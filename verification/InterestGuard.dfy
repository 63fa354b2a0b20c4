/**
  The reference-counted interest guard of a remote.

  `Guarded` is one remote: the use counts of the guard objects made so far, the weak pointer to the
  last one, the end of the link, and everything it has sent. The class at the end of the file does
  the same with objects.
 */
module InterestGuards {
  import opened Options
  import opened PeerLink
  import opened P2PFolders

  datatype Guarded = Guarded(uses: seq<nat>, weak: Option<nat>, end: End, sent: seq<Message>) {
    // The guard object that `weak` refers to is alive.
    predicate Locks() {
      weak.Some? && Alive(weak.value)
    }
    predicate Alive(g: nat) {
      g < |uses| && uses[g] > 0
    }
    function React(r: Reaction): Guarded {
      this.(end := r.end, sent := sent + r.out)
    }
  }

  // Lock the weak pointer, or make a guard, which declares interest, and remember it.
  function GetGuard(r: Guarded): Guarded {
    if r.Locks() then r.(uses := r.uses[r.weak.value := r.uses[r.weak.value] + 1])
    else r.React(SetInterested(r.end, true)).(uses := r.uses + [1], weak := Some(|r.uses|))
  }

  function CopyGuard(r: Guarded, g: nat): Guarded
    requires r.Alive(g)
  {
    r.(uses := r.uses[g := r.uses[g] + 1])
  }

  // Drop one handle; dropping the last one destroys the guard object, which withdraws interest.
  function DropGuard(r: Guarded, g: nat): Guarded
    requires r.Alive(g)
  {
    var r' := r.(uses := r.uses[g := r.uses[g] - 1]);
    if r'.uses[g] == 0 then r'.React(SetInterested(r.end, false)) else r'
  }

  predicate IsNotice(m: Message) {
    m.Interested? || m.NotInterested?
  }

  // The interest messages among those sent.
  function Notices(sent: seq<Message>): seq<Message> {
    if sent == [] then []
    else Notices(sent[..|sent| - 1]) + if IsNotice(sent[|sent| - 1]) then [sent[|sent| - 1]] else []
  }

  lemma NoticesAppend(sent: seq<Message>, m: Message)
    ensures Notices(sent + [m]) == Notices(sent) + if IsNotice(m) then [m] else []
  {
  }

  // INTERESTED and NOT_INTERESTED in turn, INTERESTED first.
  predicate Alternates(notices: seq<Message>) {
    forall i | 0 <= i < |notices| :: notices[i] == if i % 2 == 0 then Interested else NotInterested
  }

  // At most one guard object is alive and it is the last one made, which `weak` refers to; the flag
  // says whether there is one; the notices alternate and end accordingly.
  predicate GuardInv(r: Guarded) {
    && r.weak == (if r.uses == [] then None else Some(|r.uses| - 1))
    && (forall g | 0 <= g < |r.uses| - 1 :: r.uses[g] == 0)
    && r.end.amInterested == r.Locks()
    && Alternates(Notices(r.sent))
    && (r.end.amInterested <==> |Notices(r.sent)| % 2 == 1)
  }

  datatype Op = Take | Copy(g: nat) | Drop(g: nat) | Other(r: Reaction)

  // What everything else does to the remote: it neither touches the flag nor sends a notice.
  predicate IsOther(r: Guarded, x: Reaction) {
    x.end.amInterested == r.end.amInterested && |x.out| <= 1 && forall m | m in x.out :: !IsNotice(m)
  }

  // There are no handles of a dead guard to copy or to drop.
  function Apply(r: Guarded, op: Op): Guarded {
    match op
    case Take => GetGuard(r)
    case Copy(g) => if r.Alive(g) then CopyGuard(r, g) else r
    case Drop(g) => if r.Alive(g) then DropGuard(r, g) else r
    case Other(x) => if IsOther(r, x) then r.React(x) else r
  }

  function ApplyAll(r: Guarded, ops: seq<Op>): Guarded
    decreases |ops|
  {
    if ops == [] then r else ApplyAll(Apply(r, ops[0]), ops[1..])
  }

  function Unguarded(role: Side): Guarded {
    Guarded([], None, Fresh(role), [])
  }

  lemma TakeKeepsInv(r: Guarded)
    requires GuardInv(r)
    ensures GuardInv(GetGuard(r)) && GetGuard(r).Locks()
  {
  }

  lemma DropKeepsInv(r: Guarded, g: nat)
    requires GuardInv(r) && r.Alive(g)
    ensures GuardInv(DropGuard(r, g))
  {
  }

  lemma OtherKeepsInv(r: Guarded, x: Reaction)
    requires GuardInv(r) && IsOther(r, x)
    ensures GuardInv(r.React(x))
  {
    if x.out == [] {
      assert r.sent + x.out == r.sent;
    } else {
      assert x.out == [x.out[0]] && x.out[0] in x.out;
      NoticesAppend(r.sent, x.out[0]);
    }
  }

  lemma ApplyKeepsInv(r: Guarded, op: Op)
    requires GuardInv(r)
    ensures GuardInv(Apply(r, op))
  {
    match op
    case Take => TakeKeepsInv(r);
    case Copy(_) =>
    case Drop(g) => if r.Alive(g) { DropKeepsInv(r, g); }
    case Other(x) => if IsOther(r, x) { OtherKeepsInv(r, x); }
  }

  lemma {:induction false} ApplyAllKeepsInv(r: Guarded, ops: seq<Op>)
    requires GuardInv(r)
    ensures GuardInv(ApplyAll(r, ops))
    decreases |ops|
  {
    if ops != [] {
      ApplyKeepsInv(r, ops[0]);
      ApplyAllKeepsInv(Apply(r, ops[0]), ops[1..]);
    }
  }

  // The number of handles of the guard that is alive.
  function Held(r: Guarded): nat {
    if r.weak.Some? && r.weak.value < |r.uses| then r.uses[r.weak.value] else 0
  }

  // The handles that one operation adds.
  function Delta(r: Guarded, op: Op): int {
    match op
    case Take => 1
    case Copy(g) => if r.Alive(g) then 1 else 0
    case Drop(g) => if r.Alive(g) then -1 else 0
    case Other(_) => 0
  }

  function Balance(r: Guarded, ops: seq<Op>): int
    decreases |ops|
  {
    if ops == [] then 0 else Delta(r, ops[0]) + Balance(Apply(r, ops[0]), ops[1..])
  }

  lemma ApplyCounts(r: Guarded, op: Op)
    requires GuardInv(r)
    ensures Held(Apply(r, op)) == Held(r) + Delta(r, op)
  {
  }

  lemma {:induction false} HandlesBalance(r: Guarded, ops: seq<Op>)
    requires GuardInv(r)
    ensures Held(ApplyAll(r, ops)) == Held(r) + Balance(r, ops)
    decreases |ops|
  {
    if ops != [] {
      ApplyKeepsInv(r, ops[0]);
      ApplyCounts(r, ops[0]);
      hide Apply, GuardInv, Held, Delta;
      HandlesBalance(Apply(r, ops[0]), ops[1..]);
    }
  }

  // Over every sequence of taking, copying and dropping guards, with anything else the remote does in
  // between: the flag is set exactly while more handles were taken and copied than dropped, no two guard
  // objects are alive, and the notices sent strictly alternate.
  lemma EverySequence(role: Side, ops: seq<Op>)
    ensures var r := ApplyAll(Unguarded(role), ops);
            && (r.end.amInterested <==> Balance(Unguarded(role), ops) > 0)
            && (r.end.amInterested <==> exists g :: r.Alive(g))
            && (forall g, h | r.Alive(g) && r.Alive(h) :: g == h)
            && Alternates(Notices(r.sent))
            && (r.end.amInterested <==> |Notices(r.sent)| % 2 == 1)
  {
    ApplyAllKeepsInv(Unguarded(role), ops);
    HandlesBalance(Unguarded(role), ops);
    var r := ApplyAll(Unguarded(role), ops);
    if r.end.amInterested {
      assert r.Alive(r.weak.value);
    }
  }

  // A handle is one use of a guard object.
  class InterestGuard {
    var uses: nat

    constructor ()
      ensures uses == 1
    {
      uses := 1;
    }
  }

  ghost function Uses(guards: seq<InterestGuard>): (r: seq<nat>)
    reads guards
    ensures |r| == |guards| && forall i | 0 <= i < |r| :: r[i] == guards[i].uses
  {
    if guards == [] then [] else Uses(guards[..|guards| - 1]) + [guards[|guards| - 1].uses]
  }

  class RemoteFolder {
    const folder: P2PFolder
    var interestGuard: InterestGuard?
    ghost var made: seq<InterestGuard>

    constructor (folder: P2PFolder)
      ensures this.folder == folder && View() == Guarded([], None, folder.View(), folder.written)
      ensures Distinct()
    {
      this.folder := folder;
      interestGuard := null;
      made := [];
    }

    ghost function View(): Guarded
      reads this, folder, made
    {
      var weak := if interestGuard == null || made == [] then None else Some(|made| - 1);
      Guarded(Uses(made), weak, folder.View(), folder.written)
    }

    // The guard objects are different ones, and the weak pointer is to the last.
    ghost predicate Distinct()
      reads this
    {
      && (forall i, j | 0 <= i < j < |made| :: made[i] != made[j])
      && (if interestGuard == null then made == [] else made != [] && made[|made| - 1] == interestGuard)
    }

    method GetInterestGuard() returns (g: InterestGuard)
      requires Distinct() && GuardInv(View())
      modifies this, folder, made
      ensures Distinct() && GuardInv(View()) && interestGuard == g
      ensures View() == GetGuard(old(View()))
      ensures if old(interestGuard) != null && old(interestGuard.uses) > 0
              then
                && g == old(interestGuard) && g.uses == old(interestGuard.uses) + 1
                && folder.written == old(folder.written)
              else fresh(g) && g.uses == 1 && folder.amInterested
      ensures made == old(made) || (made == old(made) + [g] && fresh(g))
    {
      TakeKeepsInv(View());
      if interestGuard != null && interestGuard.uses > 0 {
        ghost var uses := View().uses;
        g := interestGuard;
        g.uses := g.uses + 1;
        assert View().uses == uses[|made| - 1 := g.uses];
      } else {
        g := MakeGuard();
      }
    }

    // Making a guard tells the remote that we are interested.
    method MakeGuard() returns (g: InterestGuard)
      requires Distinct() && !View().Locks()
      modifies this, folder
      ensures Distinct() && interestGuard == g && fresh(g) && made == old(made) + [g]
      ensures View() == GetGuard(old(View()))
    {
      ghost var uses := View().uses;
      g := new InterestGuard();
      folder.Interest();
      interestGuard := g;
      made := made + [g];
      assert View().uses == uses + [1];
    }

    method DropInterestGuard(g: InterestGuard)
      requires Distinct() && GuardInv(View()) && g == interestGuard && g.uses > 0
      modifies folder, g
      ensures Distinct() && GuardInv(View())
      ensures View() == DropGuard(old(View()), |made| - 1)
      ensures g.uses == old(g.uses) - 1 && (folder.amInterested <==> g.uses > 0)
      ensures folder.written == old(folder.written) + if g.uses == 0 then [NotInterested] else []
    {
      DropKeepsInv(View(), |made| - 1);
      hide GuardInv;
      ghost var uses := View().uses;
      g.uses := g.uses - 1;
      assert View().uses == uses[|made| - 1 := g.uses];
      if g.uses == 0 {
        folder.Uninterest();
      }
    }
  }
}
