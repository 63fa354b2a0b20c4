/**
  Bandwidth accounting: a counter per peer and one for the whole group, each with a running total
  and the amount since the last heartbeat, in four kinds. All words are 64 bits wide and wrap.

  Every increment and every exchange is an atomic step of its own, so calls may be caught between
  any two of them.
 */
module Bandwidth {

  const Width: nat := 0x1_0000_0000_0000_0000

  function Wrap(x: int): nat {
    x % Width
  }

  lemma WrapIs(x: int)
    ensures Wrap(x) == x % 0x1_0000_0000_0000_0000
  {
  }

  datatype Kind = Down | DownBlocks | Up | UpBlocks

  datatype Quad = Quad(down: nat, downBlocks: nat, up: nat, upBlocks: nat) {
    function Get(k: Kind): nat {
      match k
      case Down => down
      case DownBlocks => downBlocks
      case Up => up
      case UpBlocks => upBlocks
    }
    function Set(k: Kind, v: nat): Quad {
      match k
      case Down => this.(down := v)
      case DownBlocks => this.(downBlocks := v)
      case Up => this.(up := v)
      case UpBlocks => this.(upBlocks := v)
    }
  }

  const Zero: Quad := Quad(0, 0, 0, 0)

  // `drained` is the sum of what the heartbeats have taken out of `last`.
  datatype Counter = Counter(total: Quad, last: Quad, drained: Quad) {
    function AddTotal(k: Kind, bytes: nat): Counter {
      this.(total := total.Set(k, Wrap(total.Get(k) + bytes)))
    }
    function AddLast(k: Kind, bytes: nat): Counter {
      this.(last := last.Set(k, Wrap(last.Get(k) + bytes)))
    }
    function Drain(k: Kind): Counter {
      this.(drained := drained.Set(k, drained.Get(k) + last.Get(k)), last := last.Set(k, 0))
    }
  }

  const NewCounter: Counter := Counter(Zero, Zero, Zero)

  // One pair of `add_*` calls, first on the peer's counter and then on the group's: `done` of its four
  // increments have happened.
  datatype Call = Call(peer: nat, kind: Kind, bytes: nat, done: nat)

  // `peers` are the counters of all peers ever created, `calls` all calls ever begun.
  datatype State = State(peers: seq<Counter>, group: Counter, calls: seq<Call>)

  const Start: State := State([], NewCounter, [])

  datatype Step =
    | Create
    | Begin(peer: nat, kind: Kind, bytes: nat)
    | Advance(call: nat)
    | DrainPeer(peer: nat, kind: Kind)
    | DrainGroup(kind: Kind)

  function Next(s: State, step: Step): State {
    match step
    case Create => s.(peers := s.peers + [NewCounter])
    case Begin(p, k, b) => if p < |s.peers| then s.(calls := s.calls + [Call(p, k, b, 0)]) else s
    case DrainPeer(p, k) => if p < |s.peers| then s.(peers := s.peers[p := s.peers[p].Drain(k)]) else s
    case DrainGroup(k) => s.(group := s.group.Drain(k))
    case Advance(i) =>
      if i < |s.calls| && s.calls[i].done < 4 && s.calls[i].peer < |s.peers| then
        var c := s.calls[i];
        var s' := s.(calls := s.calls[i := c.(done := c.done + 1)]);
        match c.done
        case 0 => s'.(peers := s.peers[c.peer := s.peers[c.peer].AddTotal(c.kind, c.bytes)])
        case 1 => s'.(peers := s.peers[c.peer := s.peers[c.peer].AddLast(c.kind, c.bytes)])
        case 2 => s'.(group := s.group.AddTotal(c.kind, c.bytes))
        case _ => s'.(group := s.group.AddLast(c.kind, c.bytes))
      else s
  }

  function Exec(s: State, steps: seq<Step>): State
    decreases |steps|
  {
    if steps == [] then s else Exec(Next(s, steps[0]), steps[1..])
  }

  datatype Whose = All | Of(peer: nat)

  // The bytes of the calls of kind `k`, of all peers or of one, with `lo` to `hi` increments done.
  function Caught(calls: seq<Call>, k: Kind, whose: Whose, lo: nat, hi: nat): nat {
    if calls == [] then 0
    else Caught(calls[..|calls| - 1], k, whose, lo, hi) + Weight(calls[|calls| - 1], k, whose, lo, hi)
  }

  function Weight(c: Call, k: Kind, whose: Whose, lo: nat, hi: nat): nat {
    if c.kind == k && (whose.All? || c.peer == whose.peer) && lo <= c.done <= hi then c.bytes else 0
  }

  function Totals(peers: seq<Counter>, k: Kind): nat {
    if peers == [] then 0 else Totals(peers[..|peers| - 1], k) + peers[|peers| - 1].total.Get(k)
  }

  lemma {:induction false} CaughtUpdate(calls: seq<Call>, i: nat, c: Call, k: Kind, whose: Whose, lo: nat, hi: nat)
    requires i < |calls|
    ensures Caught(calls[i := c], k, whose, lo, hi) ==
            Caught(calls, k, whose, lo, hi) - Weight(calls[i], k, whose, lo, hi) + Weight(c, k, whose, lo, hi)
    decreases |calls|
  {
    var n := |calls| - 1;
    if i == n {
      assert calls[i := c][..n] == calls[..n];
    } else {
      assert calls[i := c][..n] == calls[..n][i := c];
      CaughtUpdate(calls[..n], i, c, k, whose, lo, hi);
    }
  }

  lemma {:induction false} TotalsUpdate(peers: seq<Counter>, i: nat, c: Counter, k: Kind)
    requires i < |peers|
    ensures Totals(peers[i := c], k) == Totals(peers, k) - peers[i].total.Get(k) + c.total.Get(k)
    decreases |peers|
  {
    var n := |peers| - 1;
    if i == n {
      assert peers[i := c][..n] == peers[..n];
    } else {
      assert peers[i := c][..n] == peers[..n][i := c];
      TotalsUpdate(peers[..n], i, c, k);
    }
  }

  // ---------------------------------------------------------------- conservation

  // What the total counted is what the heartbeats took, what is left to take, and what is caught
  // between the increment of the total and the other one.
  predicate Balanced(c: Counter, k: Kind, caught: nat) {
    c.total.Get(k) == Wrap(c.drained.Get(k) + c.last.Get(k) + caught)
  }

  predicate PeersBalanced(s: State, k: Kind) {
    forall p | 0 <= p < |s.peers| :: Balanced(s.peers[p], k, Caught(s.calls, k, Of(p), 1, 1))
  }

  // The group's total, with the calls that are between the two counters, is the sum over the peers.
  predicate Summed(group: nat, between: int, peers: int) {
    Wrap(group + between) == Wrap(peers)
  }

  predicate Inv(s: State, k: Kind) {
    && (forall i | 0 <= i < |s.calls| :: s.calls[i].peer < |s.peers|)
    && PeersBalanced(s, k)
    && Balanced(s.group, k, Caught(s.calls, k, All, 3, 3))
    && Summed(s.group.total.Get(k), Caught(s.calls, k, All, 1, 2), Totals(s.peers, k))
  }

  lemma SumPeer(group: nat, between: nat, peers: int, peer: nat, bytes: nat)
    requires Summed(group, between, peers)
    ensures Summed(group, between + bytes, peers - peer + Wrap(peer + bytes))
  {
  }

  lemma SumGroup(group: nat, between: nat, peers: int, bytes: nat)
    requires Summed(group, between, peers)
    ensures Summed(Wrap(group + bytes), between - bytes, peers)
  {
  }

  lemma CountTotal(c: Counter, k: Kind, j: Kind, caught: nat, bytes: nat)
    requires Balanced(c, k, caught)
    ensures Balanced(c.AddTotal(j, bytes), k, if j == k then caught + bytes else caught)
  {
  }

  lemma CountLast(c: Counter, k: Kind, j: Kind, caught: nat, bytes: nat)
    requires Balanced(c, k, caught) && (j == k ==> bytes <= caught)
    ensures Balanced(c.AddLast(j, bytes), k, if j == k then caught - bytes else caught)
  {
  }

  lemma {:induction false} WeightBound(calls: seq<Call>, i: nat, k: Kind, whose: Whose, lo: nat, hi: nat)
    requires i < |calls|
    ensures Weight(calls[i], k, whose, lo, hi) <= Caught(calls, k, whose, lo, hi)
    decreases |calls|
  {
    if i < |calls| - 1 {
      WeightBound(calls[..|calls| - 1], i, k, whose, lo, hi);
    }
  }

  // A call makes its next increment: how the caught bytes change, for each peer and for the group.
  lemma Moved(s: State, i: nat, k: Kind)
    requires i < |s.calls|
    ensures var c := s.calls[i];
            var calls := s.calls[i := c.(done := c.done + 1)];
            && (forall p: nat :: Caught(calls, k, Of(p), 1, 1) == Caught(s.calls, k, Of(p), 1, 1) -
                  Weight(c, k, Of(p), 1, 1) + Weight(c.(done := c.done + 1), k, Of(p), 1, 1))
            && Caught(calls, k, All, 1, 2) ==
                 Caught(s.calls, k, All, 1, 2) - Weight(c, k, All, 1, 2) + Weight(c.(done := c.done + 1), k, All, 1, 2)
            && Caught(calls, k, All, 3, 3) ==
                 Caught(s.calls, k, All, 3, 3) - Weight(c, k, All, 3, 3) + Weight(c.(done := c.done + 1), k, All, 3, 3)
  {
    var c := s.calls[i];
    var c' := c.(done := c.done + 1);
    forall p: nat
      ensures Caught(s.calls[i := c'], k, Of(p), 1, 1) ==
              Caught(s.calls, k, Of(p), 1, 1) - Weight(c, k, Of(p), 1, 1) + Weight(c', k, Of(p), 1, 1)
    {
      CaughtUpdate(s.calls, i, c', k, Of(p), 1, 1);
    }
    CaughtUpdate(s.calls, i, c', k, All, 1, 2);
    CaughtUpdate(s.calls, i, c', k, All, 3, 3);
  }

  lemma AdvancePeerTotal(s: State, i: nat, k: Kind)
    requires Inv(s, k) && i < |s.calls| && s.calls[i].done == 0
    ensures Inv(Next(s, Advance(i)), k)
  {
    hide Summed, Wrap, Balanced, Caught, Totals;
    var c, s' := s.calls[i], Next(s, Advance(i));
    var before, after := s.peers[c.peer], s.peers[c.peer].AddTotal(c.kind, c.bytes);
    Moved(s, i, k);
    CountTotal(before, k, c.kind, Caught(s.calls, k, Of(c.peer), 1, 1), c.bytes);
    TotalsUpdate(s.peers, c.peer, after, k);
    SumPeer(s.group.total.Get(k), Caught(s.calls, k, All, 1, 2), Totals(s.peers, k), before.total.Get(k), c.bytes);
  }

  lemma AdvancePeerLast(s: State, i: nat, k: Kind)
    requires Inv(s, k) && i < |s.calls| && s.calls[i].done == 1
    ensures Inv(Next(s, Advance(i)), k)
  {
    hide Summed, Wrap, Balanced, Caught, Totals;
    var c := s.calls[i];
    Moved(s, i, k);
    WeightBound(s.calls, i, k, Of(c.peer), 1, 1);
    CountLast(s.peers[c.peer], k, c.kind, Caught(s.calls, k, Of(c.peer), 1, 1), c.bytes);
    TotalsUpdate(s.peers, c.peer, s.peers[c.peer].AddLast(c.kind, c.bytes), k);
  }

  lemma AdvanceGroupTotal(s: State, i: nat, k: Kind)
    requires Inv(s, k) && i < |s.calls| && s.calls[i].done == 2
    ensures Inv(Next(s, Advance(i)), k)
  {
    hide Summed, Wrap, Balanced, Caught, Totals;
    var c := s.calls[i];
    Moved(s, i, k);
    WeightBound(s.calls, i, k, All, 1, 2);
    CountTotal(s.group, k, c.kind, Caught(s.calls, k, All, 3, 3), c.bytes);
    SumGroup(s.group.total.Get(k), Caught(s.calls, k, All, 1, 2), Totals(s.peers, k), c.bytes);
  }

  lemma AdvanceGroupLast(s: State, i: nat, k: Kind)
    requires Inv(s, k) && i < |s.calls| && s.calls[i].done == 3
    ensures Inv(Next(s, Advance(i)), k)
  {
    hide Summed, Wrap, Balanced, Caught, Totals;
    var c := s.calls[i];
    Moved(s, i, k);
    WeightBound(s.calls, i, k, All, 3, 3);
    CountLast(s.group, k, c.kind, Caught(s.calls, k, All, 3, 3), c.bytes);
  }

  lemma CaughtAppend(calls: seq<Call>, c: Call, k: Kind, whose: Whose, lo: nat, hi: nat)
    ensures Caught(calls + [c], k, whose, lo, hi) == Caught(calls, k, whose, lo, hi) + Weight(c, k, whose, lo, hi)
  {
  }

  lemma TotalsAppend(peers: seq<Counter>, c: Counter, k: Kind)
    ensures Totals(peers + [c], k) == Totals(peers, k) + c.total.Get(k)
  {
  }

  lemma BeginKeepsInv(s: State, p: nat, j: Kind, b: nat, k: Kind)
    requires Inv(s, k)
    ensures Inv(Next(s, Begin(p, j, b)), k)
  {
    hide Summed, Wrap, Balanced, Caught;
    if p < |s.peers| {
      forall whose: Whose, lo: nat, hi: nat
        ensures Caught(s.calls + [Call(p, j, b, 0)], k, whose, lo, hi) ==
                Caught(s.calls, k, whose, lo, hi) + Weight(Call(p, j, b, 0), k, whose, lo, hi)
      {
        CaughtAppend(s.calls, Call(p, j, b, 0), k, whose, lo, hi);
      }
    }
  }

  lemma {:induction false} NothingCaught(calls: seq<Call>, k: Kind, p: nat)
    requires forall i | 0 <= i < |calls| :: calls[i].peer < p
    ensures Caught(calls, k, Of(p), 1, 1) == 0
    decreases |calls|
  {
    if calls != [] {
      NothingCaught(calls[..|calls| - 1], k, p);
    }
  }

  lemma CreateKeepsInv(s: State, k: Kind)
    requires Inv(s, k)
    ensures Inv(Next(s, Create), k)
  {
    hide Summed, Caught, Totals;
    TotalsAppend(s.peers, NewCounter, k);
    NothingCaught(s.calls, k, |s.peers|);
  }

  lemma DrainKeepsInv(s: State, p: nat, j: Kind, k: Kind)
    requires Inv(s, k)
    ensures Inv(Next(s, DrainPeer(p, j)), k)
  {
    hide Summed, Wrap, Caught, Totals;
    if p < |s.peers| {
      TotalsUpdate(s.peers, p, s.peers[p].Drain(j), k);
    }
  }

  lemma StepKeepsInv(s: State, step: Step, k: Kind)
    requires Inv(s, k)
    ensures Inv(Next(s, step), k)
  {
    hide Summed, Wrap;
    match step
    case Create => CreateKeepsInv(s, k);
    case Begin(p, j, b) => BeginKeepsInv(s, p, j, b, k);
    case DrainPeer(p, j) => DrainKeepsInv(s, p, j, k);
    case DrainGroup(_) =>
    case Advance(i) =>
      if i < |s.calls| && s.calls[i].done < 4 {
        match s.calls[i].done
        case 0 => AdvancePeerTotal(s, i, k);
        case 1 => AdvancePeerLast(s, i, k);
        case 2 => AdvanceGroupTotal(s, i, k);
        case _ => AdvanceGroupLast(s, i, k);
      }
  }

  lemma {:induction false} RunKeepsInv(s: State, steps: seq<Step>, k: Kind)
    requires Inv(s, k)
    ensures Inv(Exec(s, steps), k)
    decreases |steps|
  {
    hide Summed, Wrap;
    if steps != [] {
      StepKeepsInv(s, steps[0], k);
      RunKeepsInv(Next(s, steps[0]), steps[1..], k);
    }
  }

  lemma StartInv(k: Kind)
    ensures Inv(Start, k)
  {
  }

  // ---------------------------------------------------------------- what the heartbeats take

  // The counter of the group or of a peer; one that is not there yet is empty.
  function CounterOf(s: State, whose: Whose): Counter {
    if whose.All? then s.group else if whose.peer < |s.peers| then s.peers[whose.peer] else NewCounter
  }

  predicate Drains(step: Step, k: Kind, whose: Whose) {
    step == if whose.All? then DrainGroup(k) else DrainPeer(whose.peer, k)
  }

  // What the heartbeats among the steps took: at each of them, what had come in since the one before.
  function TakenBy(s: State, steps: seq<Step>, k: Kind, whose: Whose): nat
    decreases |steps|
  {
    if steps == [] then 0
    else
      var now := if Drains(steps[0], k, whose) then CounterOf(s, whose).last.Get(k) else 0;
      now + TakenBy(Next(s, steps[0]), steps[1..], k, whose)
  }

  // A drain takes what is left of its kind, so that nothing of it is left, and touches nothing else.
  lemma DrainTakes(s: State, step: Step, k: Kind, whose: Whose)
    ensures var c, c' := CounterOf(s, whose), CounterOf(Next(s, step), whose);
            && c'.drained.Get(k) == c.drained.Get(k) + (if Drains(step, k, whose) then c.last.Get(k) else 0)
            && (Drains(step, k, whose) ==> c'.last.Get(k) == 0 && c'.total == c.total)
  {
    hide Wrap;
  }

  lemma {:induction false} DrainedIsTaken(s: State, steps: seq<Step>, k: Kind, whose: Whose)
    ensures CounterOf(Exec(s, steps), whose).drained.Get(k) ==
            CounterOf(s, whose).drained.Get(k) + TakenBy(s, steps, k, whose)
    decreases |steps|
  {
    if steps != [] {
      DrainTakes(s, steps[0], k, whose);
      hide Next, CounterOf, Drains;
      DrainedIsTaken(Next(s, steps[0]), steps[1..], k, whose);
    }
  }

  // ---------------------------------------------------------------- what the totals count

  // Each total is the sum of the bytes of the calls that have got as far as it.
  predicate Counted(s: State, k: Kind) {
    && (forall p | 0 <= p < |s.peers| :: s.peers[p].total.Get(k) == Wrap(Caught(s.calls, k, Of(p), 1, 4)))
    && s.group.total.Get(k) == Wrap(Caught(s.calls, k, All, 3, 4))
  }

  lemma WrapAdd(x: nat, y: nat)
    ensures Wrap(Wrap(x) + y) == Wrap(x + y)
  {
  }

  lemma AdvanceCountsGroup(s: State, i: nat, k: Kind)
    requires s.group.total.Get(k) == Wrap(Caught(s.calls, k, All, 3, 4))
    requires i < |s.calls| && s.calls[i].done < 4 && s.calls[i].peer < |s.peers|
    ensures var s' := Next(s, Advance(i));
            s'.group.total.Get(k) == Wrap(Caught(s'.calls, k, All, 3, 4))
  {
    var c := s.calls[i];
    hide Wrap, Caught;
    GroupAfter(s, i, k);
    CallsNext(s, Advance(i));
    hide Next;
    CaughtUpdate(s.calls, i, c.(done := c.done + 1), k, All, 3, 4);
    WrapAdd(Caught(s.calls, k, All, 3, 4), c.bytes);
  }

  lemma GroupAfter(s: State, i: nat, k: Kind)
    requires i < |s.calls| && s.calls[i].done < 4 && s.calls[i].peer < |s.peers|
    ensures var c := s.calls[i];
            Next(s, Advance(i)).group.total.Get(k) ==
            if c.done == 2 && c.kind == k then Wrap(s.group.total.Get(k) + c.bytes) else s.group.total.Get(k)
  {
    hide Wrap;
  }

  lemma AdvanceCountsPeer(s: State, i: nat, k: Kind, p: nat)
    requires p < |s.peers| && s.peers[p].total.Get(k) == Wrap(Caught(s.calls, k, Of(p), 1, 4))
    requires i < |s.calls| && s.calls[i].done < 4 && s.calls[i].peer < |s.peers|
    ensures var s' := Next(s, Advance(i));
            p < |s'.peers| && s'.peers[p].total.Get(k) == Wrap(Caught(s'.calls, k, Of(p), 1, 4))
  {
    var c := s.calls[i];
    CaughtUpdate(s.calls, i, c.(done := c.done + 1), k, Of(p), 1, 4);
    WrapAdd(Caught(s.calls, k, Of(p), 1, 4), c.bytes);
    hide Wrap, Caught;
  }

  lemma AdvanceCounts(s: State, i: nat, k: Kind)
    requires Counted(s, k) && i < |s.calls| && s.calls[i].done < 4 && s.calls[i].peer < |s.peers|
    ensures Counted(Next(s, Advance(i)), k)
  {
    var s' := Next(s, Advance(i));
    CallsNext(s, Advance(i));
    AdvanceCountsGroup(s, i, k);
    hide Wrap, Caught, Next;
    forall p | 0 <= p < |s'.peers| ensures s'.peers[p].total.Get(k) == Wrap(Caught(s'.calls, k, Of(p), 1, 4)) {
      AdvanceCountsPeer(s, i, k, p);
    }
  }

  lemma {:induction false} NothingOf(calls: seq<Call>, k: Kind, p: nat)
    requires forall i | 0 <= i < |calls| :: calls[i].peer < p
    ensures Caught(calls, k, Of(p), 1, 4) == 0
    decreases |calls|
  {
    if calls != [] {
      NothingOf(calls[..|calls| - 1], k, p);
    }
  }

  lemma CreateCounts(s: State, k: Kind)
    requires Counted(s, k) && forall i | 0 <= i < |s.calls| :: s.calls[i].peer < |s.peers|
    ensures Counted(Next(s, Create), k)
  {
    NothingOf(s.calls, k, |s.peers|);
    assert Wrap(0) == 0;
    hide Caught, Wrap;
  }

  lemma BeginCounts(s: State, p: nat, j: Kind, b: nat, k: Kind)
    requires Counted(s, k)
    ensures Counted(Next(s, Begin(p, j, b)), k)
  {
    hide Wrap, Caught;
    var c := Call(p, j, b, 0);
    CaughtAppend(s.calls, c, k, All, 3, 4);
    forall q | 0 <= q < |s.peers| ensures Caught(s.calls + [c], k, Of(q), 1, 4) == Caught(s.calls, k, Of(q), 1, 4) {
      CaughtAppend(s.calls, c, k, Of(q), 1, 4);
    }
  }

  lemma StepCounts(s: State, step: Step, k: Kind)
    requires Counted(s, k) && forall i | 0 <= i < |s.calls| :: s.calls[i].peer < |s.peers|
    ensures Counted(Next(s, step), k)
  {
    match step
    case Advance(i) =>
      if i < |s.calls| && s.calls[i].done < 4 {
        AdvanceCounts(s, i, k);
      }
    case Create => CreateCounts(s, k);
    case Begin(p, j, b) => BeginCounts(s, p, j, b, k);
    case DrainPeer(_, _) => hide Wrap, Caught;
    case DrainGroup(_) => hide Wrap, Caught;
  }

  lemma {:induction false} RunCounts(s: State, steps: seq<Step>, k: Kind)
    requires Counted(s, k) && Inv(s, k)
    ensures Counted(Exec(s, steps), k)
    decreases |steps|
  {
    hide Wrap;
    if steps != [] {
      StepKeepsInv(s, steps[0], k);
      StepCounts(s, steps[0], k);
      hide Counted, Next;
      RunCounts(Next(s, steps[0]), steps[1..], k);
    }
  }

  // What the steps do to the calls: each one that begins is there, and advances up to its four increments.
  lemma CallsNext(s: State, step: Step)
    ensures var s' := Next(s, step);
            && |s'.peers| == |s.peers| + (if step.Create? then 1 else 0)
            && s'.calls ==
                 match step
                 case Begin(p, k, b) => if p < |s.peers| then s.calls + [Call(p, k, b, 0)] else s.calls
                 case Advance(i) =>
                   if i < |s.calls| && s.calls[i].done < 4 && s.calls[i].peer < |s.peers|
                   then s.calls[i := s.calls[i].(done := s.calls[i].done + 1)]
                   else s.calls
                 case _ => s.calls
  {
    hide Wrap;
  }

  // Under every interleaving, modulo 2^64, each total counts the bytes of exactly the calls that have got as far
  // as it: those of a peer with its first increment done, and those of all peers with their third.
  lemma TotalsCount(steps: seq<Step>, k: Kind)
    ensures var s := Exec(Start, steps);
            && (forall p | 0 <= p < |s.peers| ::
                  s.peers[p].total.Get(k) == Caught(s.calls, k, Of(p), 1, 4) % 0x1_0000_0000_0000_0000)
            && s.group.total.Get(k) == Caught(s.calls, k, All, 3, 4) % 0x1_0000_0000_0000_0000
  {
    hide Exec, Wrap, Caught, Counted, Inv;
    StartInv(k);
    StartCounted(k);
    RunCounts(Start, steps, k);
    CountedMeans(Exec(Start, steps), k);
  }

  lemma StartCounted(k: Kind)
    ensures Counted(Start, k)
  {
    hide Caught;
    assert Caught([], k, All, 3, 4) == 0 by { NothingBegun(k); }
  }

  lemma NothingBegun(k: Kind)
    ensures Caught([], k, All, 3, 4) == 0
  {
  }

  lemma CountedMeans(s: State, k: Kind)
    requires Counted(s, k)
    ensures forall p | 0 <= p < |s.peers| ::
              s.peers[p].total.Get(k) == Caught(s.calls, k, Of(p), 1, 4) % 0x1_0000_0000_0000_0000
    ensures s.group.total.Get(k) == Caught(s.calls, k, All, 3, 4) % 0x1_0000_0000_0000_0000
  {
    hide Wrap, Caught;
    WrapIs(Caught(s.calls, k, All, 3, 4));
    forall p | 0 <= p < |s.peers|
      ensures s.peers[p].total.Get(k) == Caught(s.calls, k, Of(p), 1, 4) % 0x1_0000_0000_0000_0000
    {
      WrapIs(Caught(s.calls, k, Of(p), 1, 4));
    }
  }

  // Under every interleaving, modulo 2^64: each total is what all heartbeats drained, plus what is left
  // to drain, plus the calls caught between their two increments; and the group's total, with the
  // calls that are between the two counters, is the sum over all peers ever created.
  lemma Conservation(steps: seq<Step>, k: Kind)
    ensures var s := Exec(Start, steps);
            && PeersBalanced(s, k)
            && Balanced(s.group, k, Caught(s.calls, k, All, 3, 3))
            && Summed(s.group.total.Get(k), Caught(s.calls, k, All, 1, 2), Totals(s.peers, k))
            && (forall whose: Whose :: CounterOf(s, whose).drained.Get(k) == TakenBy(Start, steps, k, whose))
  {
    StartInv(k);
    RunKeepsInv(Start, steps, k);
    hide Wrap, Balanced, Summed, Caught, Totals, CounterOf, TakenBy, Exec;
    AllTaken(steps, k);
  }

  lemma AllTaken(steps: seq<Step>, k: Kind)
    ensures forall whose: Whose ::
              CounterOf(Exec(Start, steps), whose).drained.Get(k) == TakenBy(Start, steps, k, whose)
  {
    forall whose: Whose
      ensures CounterOf(Exec(Start, steps), whose).drained.Get(k) == TakenBy(Start, steps, k, whose)
    {
      DrainedIsTaken(Start, steps, k, whose);
      assert CounterOf(Start, whose).drained.Get(k) == 0;
    }
  }

  lemma BooksClose(s: State, k: Kind)
    requires Inv(s, k) && forall c | c in s.calls :: c.done == 4
    ensures forall p | 0 <= p < |s.peers| :: Balanced(s.peers[p], k, 0)
    ensures Balanced(s.group, k, 0) && Summed(s.group.total.Get(k), 0, Totals(s.peers, k))
  {
    hide Wrap, Balanced, Summed;
    NoneUnderWay(s.calls, k, All, 1, 2);
    NoneUnderWay(s.calls, k, All, 3, 3);
    forall p | 0 <= p < |s.peers| ensures Balanced(s.peers[p], k, 0) {
      NoneUnderWay(s.calls, k, Of(p), 1, 1);
    }
  }

  // Once no call is under way the books close.
  lemma QuiescentBooks(steps: seq<Step>, k: Kind)
    requires forall c | c in Exec(Start, steps).calls :: c.done == 4
    ensures var s := Exec(Start, steps);
            && (forall p | 0 <= p < |s.peers| :: Balanced(s.peers[p], k, 0))
            && Balanced(s.group, k, 0)
            && Summed(s.group.total.Get(k), 0, Totals(s.peers, k))
  {
    StartInv(k);
    RunKeepsInv(Start, steps, k);
    BooksClose(Exec(Start, steps), k);
  }

  lemma {:induction false} NoneUnderWay(calls: seq<Call>, k: Kind, whose: Whose, lo: nat, hi: nat)
    requires hi < 4 && forall c | c in calls :: c.done == 4
    ensures Caught(calls, k, whose, lo, hi) == 0
    decreases |calls|
  {
    if calls != [] {
      assert calls[|calls| - 1] in calls;
      NoneUnderWay(calls[..|calls| - 1], k, whose, lo, hi);
    }
  }

  // ---------------------------------------------------------------- the object

  class BandwidthCounter {
    var downBytes: nat
    var downBytesBlocks: nat
    var downBytesLast: nat
    var downBytesBlocksLast: nat
    var upBytes: nat
    var upBytesBlocks: nat
    var upBytesLast: nat
    var upBytesBlocksLast: nat
    ghost var drained: Quad

    constructor ()
      ensures View() == NewCounter && Valid()
    {
      downBytes, downBytesBlocks, downBytesLast, downBytesBlocksLast := 0, 0, 0, 0;
      upBytes, upBytesBlocks, upBytesLast, upBytesBlocksLast := 0, 0, 0, 0;
      drained := Zero;
    }

    ghost function View(): Counter
      reads this
    {
      Counter(Quad(downBytes, downBytesBlocks, upBytes, upBytesBlocks),
              Quad(downBytesLast, downBytesBlocksLast, upBytesLast, upBytesBlocksLast), drained)
    }

    ghost predicate Valid()
      reads this
    {
      forall k: Kind :: Balanced(View(), k, 0)
    }

    method AddDown(bytes: nat)
      requires Valid()
      modifies this
      ensures Valid() && View() == old(View()).AddTotal(Down, bytes).AddLast(Down, bytes)
      ensures downBytes == (old(downBytes) + bytes) % 0x1_0000_0000_0000_0000
      ensures downBytesLast == (old(downBytesLast) + bytes) % 0x1_0000_0000_0000_0000
    {
      WrapIs(downBytes + bytes);
      WrapIs(downBytesLast + bytes);
      hide Wrap;
      ghost var c := View().AddTotal(Down, bytes).AddLast(Down, bytes);
      AddKeepsBalance(View(), Down, bytes);
      downBytes := Wrap(downBytes + bytes);
      downBytesLast := Wrap(downBytesLast + bytes);
      assert View() == c;
    }

    method AddDownBlocks(bytes: nat)
      requires Valid()
      modifies this
      ensures Valid() && View() == old(View()).AddTotal(DownBlocks, bytes).AddLast(DownBlocks, bytes)
      ensures downBytesBlocks == (old(downBytesBlocks) + bytes) % 0x1_0000_0000_0000_0000
      ensures downBytesBlocksLast == (old(downBytesBlocksLast) + bytes) % 0x1_0000_0000_0000_0000
    {
      WrapIs(downBytesBlocks + bytes);
      WrapIs(downBytesBlocksLast + bytes);
      hide Wrap;
      ghost var c := View().AddTotal(DownBlocks, bytes).AddLast(DownBlocks, bytes);
      AddKeepsBalance(View(), DownBlocks, bytes);
      downBytesBlocks := Wrap(downBytesBlocks + bytes);
      downBytesBlocksLast := Wrap(downBytesBlocksLast + bytes);
      assert View() == c;
    }

    method AddUp(bytes: nat)
      requires Valid()
      modifies this
      ensures Valid() && View() == old(View()).AddTotal(Up, bytes).AddLast(Up, bytes)
      ensures upBytes == (old(upBytes) + bytes) % 0x1_0000_0000_0000_0000
      ensures upBytesLast == (old(upBytesLast) + bytes) % 0x1_0000_0000_0000_0000
    {
      WrapIs(upBytes + bytes);
      WrapIs(upBytesLast + bytes);
      hide Wrap;
      ghost var c := View().AddTotal(Up, bytes).AddLast(Up, bytes);
      AddKeepsBalance(View(), Up, bytes);
      upBytes := Wrap(upBytes + bytes);
      upBytesLast := Wrap(upBytesLast + bytes);
      assert View() == c;
    }

    method AddUpBlocks(bytes: nat)
      requires Valid()
      modifies this
      ensures Valid() && View() == old(View()).AddTotal(UpBlocks, bytes).AddLast(UpBlocks, bytes)
      ensures upBytesBlocks == (old(upBytesBlocks) + bytes) % 0x1_0000_0000_0000_0000
      ensures upBytesBlocksLast == (old(upBytesBlocksLast) + bytes) % 0x1_0000_0000_0000_0000
    {
      WrapIs(upBytesBlocks + bytes);
      WrapIs(upBytesBlocksLast + bytes);
      hide Wrap;
      ghost var c := View().AddTotal(UpBlocks, bytes).AddLast(UpBlocks, bytes);
      AddKeepsBalance(View(), UpBlocks, bytes);
      upBytesBlocks := Wrap(upBytesBlocks + bytes);
      upBytesBlocksLast := Wrap(upBytesBlocksLast + bytes);
      assert View() == c;
    }

    // The draining part: what was taken of each kind, and the totals reported with it.
    method Heartbeat() returns (taken: Quad, totals: Quad)
      requires Valid()
      modifies this
      ensures Valid() && View() == old(View()).Drain(Down).Drain(DownBlocks).Drain(Up).Drain(UpBlocks)
      ensures taken == old(View()).last && totals == View().total == old(View()).total
      ensures taken == Quad(old(downBytesLast), old(downBytesBlocksLast), old(upBytesLast), old(upBytesBlocksLast))
      ensures downBytesLast == 0 && downBytesBlocksLast == 0 && upBytesLast == 0 && upBytesBlocksLast == 0
      ensures totals == Quad(old(downBytes), old(downBytesBlocks), old(upBytes), old(upBytesBlocks))
      ensures drained == Quad(old(drained).down + taken.down, old(drained).downBlocks + taken.downBlocks,
                              old(drained).up + taken.up, old(drained).upBlocks + taken.upBlocks)
    {
      hide Wrap;
      taken := Quad(downBytesLast, downBytesBlocksLast, upBytesLast, upBytesBlocksLast);
      drained := Quad(drained.down + taken.down, drained.downBlocks + taken.downBlocks, drained.up + taken.up,
                      drained.upBlocks + taken.upBlocks);
      downBytesLast, downBytesBlocksLast, upBytesLast, upBytesBlocksLast := 0, 0, 0, 0;
      totals := Quad(downBytes, downBytesBlocks, upBytes, upBytesBlocks);
      forall k: Kind ensures Balanced(View(), k, 0) {
        assert Balanced(old(View()), k, 0);
      }
    }
  }

  lemma AddKeepsBalance(c: Counter, j: Kind, bytes: nat)
    requires forall k: Kind :: Balanced(c, k, 0)
    ensures forall k: Kind :: Balanced(c.AddTotal(j, bytes).AddLast(j, bytes), k, 0)
  {
    hide Wrap;
    forall k: Kind ensures Balanced(c.AddTotal(j, bytes).AddLast(j, bytes), k, 0) {
      CountTotal(c, k, j, 0, bytes);
      CountLast(c.AddTotal(j, bytes), k, j, if j == k then bytes else 0, bytes);
    }
  }
}
