/**
  The daemon's settings and a user interface that mirrors them: a cache, filled by one answer and followed
  up by events, and the listeners of that cache. The answer and the events travel on two connections.
 */
module Mirrors {
  import opened Globals
  import opened KeyLists

  // ---------------------------------------------------------------- fetching and following

  // A user interface first opens the event stream and then asks for the settings. The answer is the
  // settings at one moment and travels apart from the events, so it may be overtaken by them: `since` are
  // the events since that moment, of which `delivered` were delivered before the answer arrived.
  // `stale` are the settings about which the answer says something else than the last of those events did,
  // while no later one is on its way.
  datatype Fetch =
    | Off
    | Asked
    | Answered(snapshot: Object, since: seq<Signal>, delivered: nat)
    | Settled(stale: set<string>)

  // The daemon's settings, the events on their way to a user interface, its cache, and what its own
  // listeners have folded from the notifications of the cache.
  datatype System = System(settings: Settings, events: seq<Signal>, cache: Object, listener: Object, fetch: Fetch)

  // `keys` lists the keys of the answer and of the cache.
  datatype Step = Do(op: Op) | Connect | Answer | Arrive(keys: seq<string>) | Deliver | Disconnect

  predicate CanStep(y: System, step: Step) {
    match step
    case Do(op) => Enabled(y.settings, op)
    case Connect => y.fetch.Off?
    case Answer => y.fetch.Asked?
    case Arrive(keys) => y.fetch.Answered? && Once(keys) && Lists(keys, y.fetch.snapshot, y.cache)
    case Deliver => y.events != []
    case Disconnect => true
  }

  // The events since the answer that are still on their way.
  function Left(fetch: Fetch): int
    requires fetch.Answered?
  {
    |fetch.since| - fetch.delivered
  }

  // The events since the answer that were delivered before it arrived.
  function Overtaking(fetch: Fetch): seq<Signal>
    requires fetch.Answered?
  {
    if fetch.delivered <= |fetch.since| then fetch.since[..fetch.delivered] else fetch.since
  }

  function DoNext(y: System, op: Op): System {
    var signals := Signals(y.settings, op);
    System(
      Apply(y.settings, op),
      if y.fetch.Off? then [] else y.events + signals,
      y.cache,
      y.listener,
      match y.fetch
      case Answered(snapshot, since, delivered) => Answered(snapshot, since + signals, delivered)
      case Settled(stale) => Settled(stale - Told(signals))
      case other => other)
  }

  function DeliverNext(y: System): System
    requires y.events != []
  {
    var x := y.events[0];
    System(
      y.settings,
      y.events[1..],
      Receive(y.cache, x),
      if Lookup(y.cache, x.key) != x.value then y.listener[x.key := x.value] else y.listener,
      if y.fetch.Answered? && |y.events| == Left(y.fetch)
      then y.fetch.(delivered := y.fetch.delivered + 1)
      else y.fetch)
  }

  function ArriveNext(y: System, keys: seq<string>): System
    requires y.fetch.Answered?
  {
    var fetched := y.fetch.snapshot;
    var overtaking := Overtaking(y.fetch);
    var undone := Told(overtaking) - Told(y.events);
    System(
      y.settings,
      y.events,
      fetched,
      Fold(y.listener, Notify(fetched, Differing(y.cache, fetched, keys))),
      Settled(set k | k in undone && Lookup(fetched, k) != Lookup(Fold(map[], overtaking), k)))
  }

  function Next(y: System, step: Step): System
    requires CanStep(y, step)
  {
    match step
    case Do(op) => DoNext(y, op)
    case Connect => y.(events := [], fetch := Asked)
    case Answer => y.(fetch := Answered(Merged(y.settings.custom, y.settings.defaults), [], 0))
    case Arrive(keys) => ArriveNext(y, keys)
    case Deliver => DeliverNext(y)
    case Disconnect => y.(events := [], fetch := Off)
  }

  // The last event about a setting that is on its way tells its current value.
  ghost predicate TellsCurrent(events: seq<Signal>, s: Settings) {
    forall k | k in Told(events) :: Lookup(Fold(map[], events), k) == s.Get(k)
  }

  ghost predicate AnswerInv(y: System)
    requires y.fetch.Answered?
  {
    && 0 <= Left(y.fetch) <= |y.events|
    && y.events[|y.events| - Left(y.fetch)..] == y.fetch.since[y.fetch.delivered..]
    && (y.fetch.delivered > 0 ==> |y.events| == Left(y.fetch))
    && Agrees(Fold(y.fetch.snapshot, y.fetch.since), y.settings)
  }

  // Exactly the stale settings are read wrongly once the events on their way are delivered.
  ghost predicate SettledInv(y: System)
    requires y.fetch.Settled?
  {
    && y.fetch.stale !! Told(y.events)
    && forall k: string :: Lookup(Fold(y.cache, y.events), k) == y.settings.Get(k) <==> k !in y.fetch.stale
  }

  ghost predicate Mirrored(y: System) {
    && SameReading(y.listener, y.cache)
    && TellsCurrent(y.events, y.settings)
    && (y.fetch.Off? ==> y.events == [])
    && (y.fetch.Answered? ==> AnswerInv(y))
    && (y.fetch.Settled? ==> SettledInv(y))
  }

  // ---------------------------------------------------------------- every step keeps it

  // The signals of an operation tell the new values; what they do not tell did not change.
  lemma SignalsTell(s: Settings, op: Op, k: string)
    requires Enabled(s, op)
    ensures var s', told := Apply(s, op), Signals(s, op);
            if k in Told(told) then Lookup(Fold(map[], told), k) == s'.Get(k) else s'.Get(k) == s.Get(k)
  {
    var s', told := Apply(s, op), Signals(s, op);
    FoldTells(map[], told, s', k);
    if op.Import? {
      if k in op.keys {
        var i :| 0 <= i < |op.keys| && op.keys[i] == k;
        assert told[i] in told;
      }
    } else {
      assert told[0] in told;
    }
  }

  lemma DoTellsCurrent(events: seq<Signal>, s: Settings, op: Op)
    requires TellsCurrent(events, s) && Enabled(s, op)
    ensures TellsCurrent(events + Signals(s, op), Apply(s, op))
  {
    hide Signals, Apply, Fold, Told;
    var s', told := Apply(s, op), Signals(s, op);
    ToldAppend(events, told);
    FoldAppend(map[], events, told);
    forall k | k in Told(events + told) ensures Lookup(Fold(map[], events + told), k) == s'.Get(k) {
      FoldReads(Fold(map[], events), told, k);
      SignalsTell(s, op, k);
    }
  }

  lemma DoKeepsReading(m: Object, events: seq<Signal>, s: Settings, op: Op, k: string)
    requires Enabled(s, op)
    ensures var s', told := Apply(s, op), Signals(s, op);
            var before, after := Fold(m, events), Fold(m, events + told);
            if k in Told(told) then Lookup(after, k) == s'.Get(k)
            else Lookup(after, k) == Lookup(before, k) && s'.Get(k) == s.Get(k)
  {
    hide Signals, Apply, Fold, Told;
    FoldAppend(m, events, Signals(s, op));
    FoldReads(Fold(m, events), Signals(s, op), k);
    SignalsTell(s, op, k);
  }

  lemma DoKeepsMirrored(y: System, op: Op)
    requires Mirrored(y) && Enabled(y.settings, op)
    ensures Mirrored(DoNext(y, op))
  {
    hide Signals, Apply, Fold, Told;
    var y', told := DoNext(y, op), Signals(y.settings, op);
    DoTellsCurrent(y.events, y.settings, op);
    match y.fetch
    case Off => NothingTold(y'.settings);
    case Asked =>
    case Answered(snapshot, since, delivered) =>
      OpKeepsAgreement(Fold(snapshot, since), y.settings, op);
      FoldAppend(snapshot, since, told);
      AppendBoth(y.events, since, delivered, told);
    case Settled(stale) =>
      ToldAppend(y.events, told);
      forall k: string ensures Lookup(Fold(y.cache, y'.events), k) == y'.settings.Get(k) <==> k !in stale - Told(told) {
        DoKeepsReading(y.cache, y.events, y.settings, op, k);
      }
  }

  lemma NothingTold(s: Settings)
    ensures TellsCurrent([], s)
  {
  }

  lemma AppendBoth(events: seq<Signal>, since: seq<Signal>, delivered: nat, told: seq<Signal>)
    requires 0 <= |since| - delivered <= |events| && events[|events| - (|since| - delivered)..] == since[delivered..]
    ensures var e, n := events + told, |since + told| - delivered;
            e[|e| - n..] == (since + told)[delivered..]
  {
    var i := |events| - (|since| - delivered);
    assert (events + told)[i..] == events[i..] + told;
    assert (since + told)[delivered..] == since[delivered..] + told;
  }

  // Delivering the first event takes it off the way and onto the cache.
  lemma DeliverReads(cache: Object, events: seq<Signal>, k: string)
    requires events != []
    ensures Lookup(Fold(Receive(cache, events[0]), events[1..]), k) == Lookup(Fold(cache, events), k)
  {
    var x := events[0];
    assert SameReading(Receive(cache, x), cache[x.key := x.value]);
    FoldReadsSame(Receive(cache, x), cache[x.key := x.value], events[1..]);
  }

  lemma DeliverTellsCurrent(events: seq<Signal>, s: Settings)
    requires events != [] && TellsCurrent(events, s)
    ensures TellsCurrent(events[1..], s)
  {
    var x, rest := events[0], events[1..];
    ToldHead(events);
    forall k | k in Told(rest) ensures Lookup(Fold(map[], rest), k) == s.Get(k) {
      FoldReads(map[][x.key := x.value], rest, k);
    }
  }

  lemma DeliverKeepsMirrored(y: System)
    requires Mirrored(y) && y.events != []
    ensures Mirrored(DeliverNext(y))
  {
    var x, y' := y.events[0], DeliverNext(y);
    UpdateReadsSame(y.listener, y.cache, x.key, x.value);
    DeliverTellsCurrent(y.events, y.settings);
    if y.fetch.Settled? {
      ToldHead(y.events);
      forall k: string ensures Lookup(Fold(y'.cache, y'.events), k) == Lookup(Fold(y.cache, y.events), k) {
        DeliverReads(y.cache, y.events, k);
      }
    }
  }

  // The answer replaces the cache. Of what the events since the answer told, exactly what is told again
  // by one that is still on its way, or was not news, is not undone.
  lemma ArriveKeepsMirrored(y: System, keys: seq<string>)
    requires Mirrored(y) && CanStep(y, Arrive(keys))
    ensures Mirrored(ArriveNext(y, keys))
  {
    hide Told, Differing;
    var y', fetched := ArriveNext(y, keys), y.fetch.snapshot;
    NotificationsRebuild(y.cache, fetched, keys);
    FoldReadsSame(y.listener, y.cache, Notify(fetched, Differing(y.cache, fetched, keys)));
    forall k: string ensures Lookup(Fold(fetched, y.events), k) == y.settings.Get(k) <==> k !in y'.fetch.stale {
      FoldReads(fetched, y.events, k);
      FoldReads(map[], y.events, k);
      if k !in Told(y.events) {
        SinceTold(y, k);
      }
    }
  }

  // A setting that no event on its way tells is what the overtaking events told, or else what the answer says.
  lemma SinceTold(y: System, k: string)
    requires y.fetch.Answered? && AnswerInv(y) && k !in Told(y.events)
    ensures var overtaking := Overtaking(y.fetch);
            y.settings.Get(k) == Lookup(if k in Told(overtaking) then Fold(map[], overtaking) else y.fetch.snapshot, k)
  {
    var since, d := y.fetch.since, y.fetch.delivered;
    LeftIsTold(y, k);
    assert Lookup(Fold(y.fetch.snapshot, since), k) == y.settings.Get(k);
    hide Told, Fold, AnswerInv;
    assert since == since[..d] + since[d..];
    FoldAppend(y.fetch.snapshot, since[..d], since[d..]);
    FoldReads(Fold(y.fetch.snapshot, since[..d]), since[d..], k);
    FoldReads(y.fetch.snapshot, since[..d], k);
  }

  // What is left of the events since the answer is on its way.
  lemma LeftIsTold(y: System, k: string)
    requires y.fetch.Answered? && AnswerInv(y) && k !in Told(y.events)
    ensures k !in Told(y.fetch.since[y.fetch.delivered..])
  {
    hide Told, Fold, Agrees;
    var i := |y.events| - Left(y.fetch);
    assert y.events == y.events[..i] + y.events[i..];
    ToldAppend(y.events[..i], y.events[i..]);
  }

  lemma StepKeepsMirrored(y: System, step: Step)
    requires Mirrored(y) && CanStep(y, step)
    ensures Mirrored(Next(y, step))
  {
    NothingTold(y.settings);
    match step
    case Do(op) => DoKeepsMirrored(y, op);
    case Deliver => DeliverKeepsMirrored(y);
    case Arrive(keys) => ArriveKeepsMirrored(y, keys);
    case Connect =>
    case Answer => assert y.events[|y.events|..] == [];
    case Disconnect =>
  }

  // ---------------------------------------------------------------- all runs

  // A run is a sequence of states, each one a step from the one before.
  ghost predicate IsRun(run: seq<System>, steps: seq<Step>) {
    && |run| == |steps| + 1
    && run[0].events == [] && run[0].cache == run[0].listener == map[] && run[0].fetch == Off
    && forall i | 0 <= i < |steps| :: CanStep(run[i], steps[i]) && run[i + 1] == Next(run[i], steps[i])
  }

  lemma {:induction false} RunKeepsMirrored(run: seq<System>, steps: seq<Step>, i: nat)
    requires IsRun(run, steps) && i < |run|
    ensures Mirrored(run[i])
    decreases i
  {
    if i == 0 {
      NothingTold(run[0].settings);
    } else {
      RunKeepsMirrored(run, steps, i - 1);
      StepKeepsMirrored(run[i - 1], steps[i - 1]);
    }
  }

  // The operations among the steps.
  function OpsOf(steps: seq<Step>): seq<Op> {
    if steps == [] then []
    else OpsOf(steps[..|steps| - 1]) + if steps[|steps| - 1].Do? then [steps[|steps| - 1].op] else []
  }

  function ApplyAll(s: Settings, ops: seq<Op>): Settings {
    if ops == [] then s else Apply(ApplyAll(s, ops[..|ops| - 1]), ops[|ops| - 1])
  }

  // In every run the settings are what the operations made of them.
  lemma {:induction false} SettingsAreTheOps(run: seq<System>, steps: seq<Step>, i: nat)
    requires IsRun(run, steps) && i < |run|
    ensures run[i].settings == ApplyAll(run[0].settings, OpsOf(steps[..i]))
    decreases i
  {
    if i > 0 {
      SettingsAreTheOps(run, steps, i - 1);
      assert steps[..i][..i - 1] == steps[..i - 1];
      var ops, step := OpsOf(steps[..i - 1]), steps[i - 1];
      if step.Do? {
        assert (ops + [step.op])[..|ops|] == ops;
      } else {
        assert ops + [] == ops;
      }
      hide Apply;
    }
  }

  // Connecting asks for the settings, which are answered as they are; disconnecting leaves nothing on its way.
  lemma ConnectionSteps(y: System, k: string)
    ensures y.fetch.Off? ==> var y' := Next(y, Connect); y'.fetch.Asked? && y'.events == [] && y'.cache == y.cache
    ensures y.fetch.Asked? ==>
              var y' := Next(y, Answer);
              y'.fetch.Answered? && Lookup(y'.fetch.snapshot, k) == y.settings.Get(k) && y'.events == y.events
    ensures var y' := Next(y, Disconnect); y'.fetch.Off? && y'.events == [] && y'.cache == y.cache
  {
    hide Merged, DoNext, DeliverNext, ArriveNext;
    MergedIs(y.settings.custom, y.settings.defaults, k);
  }

  // In every run, whatever is set, removed or imported and however events and answer overtake each other:
  // once an answer has arrived and the events on their way are delivered, the remote cache and its
  // listeners read the daemon's settings at exactly the keys that are not stale.
  lemma MirrorsAgreeIff(run: seq<System>, steps: seq<Step>, i: nat, k: string)
    requires IsRun(run, steps) && i < |run| && run[i].fetch.Settled?
    ensures var y := run[i];
            && (Lookup(Fold(y.cache, y.events), k) == y.settings.Get(k) <==> k !in y.fetch.stale)
            && (y.events == [] ==> (Lookup(y.cache, k) == y.settings.Get(k) <==> k !in y.fetch.stale))
            && Lookup(y.listener, k) == Lookup(y.cache, k)
  {
    RunKeepsMirrored(run, steps, i);
  }

  // Nothing is stale if no event since the answer was delivered before it, and nothing becomes stale later.
  lemma StaleOnlyIfOvertaken(y: System, step: Step)
    requires Mirrored(y) && CanStep(y, step)
    ensures step.Arrive? && y.fetch.delivered == 0 ==> Next(y, step).fetch.stale == {}
    ensures y.fetch.Settled? && Next(y, step).fetch.Settled? ==> Next(y, step).fetch.stale <= y.fetch.stale
  {
  }

  // A setting that is changed between the answer and its arrival stays unread.
  lemma StaleRun(k: string, v: Value) returns (run: seq<System>)
    requires v != Null
    ensures IsRun(run, [Connect, Answer, Do(Set(k, v)), Deliver, Arrive([k])])
    ensures run[5].fetch == Settled({k}) && run[5].events == []
    ensures run[5].settings.Get(k) == v && Lookup(run[4].cache, k) == v && Lookup(run[5].cache, k) == Null
  {
    hide Fold, Differing, Told;
    var y0 := System(Settings(map[], map[]), [], map[], map[], Off);
    var y1 := Next(y0, Connect);
    var y2 := Next(y1, Answer);
    var y3 := Next(y2, Do(Set(k, v)));
    assert y3.events == [Changed(k, v)] && y3.fetch.since == [Changed(k, v)];
    var y4 := Next(y3, Deliver);
    assert y4.cache == map[k := v];
    StaleArrival(y4, Changed(k, v));
    run := [y0, y1, y2, y3, y4, Next(y4, Arrive([k]))];
  }

  lemma StaleArrival(y: System, x: Signal)
    requires y.fetch == Answered(map[], [x], 1) && y.events == [] && y.cache.Keys == {x.key} && x.value != Null
    ensures CanStep(y, Arrive([x.key])) && Next(y, Arrive([x.key])).fetch == Settled({x.key})
  {
    assert [x][..1] == [x] && [x][1..] == [];
    assert Fold(map[], [x]) == Fold(map[][x.key := x.value], []) == map[x.key := x.value];
    hide Fold, Differing;
    assert Told([x]) == {x.key} && Told([]) == {};
  }
}
