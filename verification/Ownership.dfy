/**
  Which remote owns which missing chunk, as the downloader records it: it holds one interest guard
  of a remote for every missing chunk that the remote owns.
 */
module Ownership {
  import opened PeerLink
  import opened InterestGuards

  type Peer = nat
  type Hash = nat

  // `owners` maps a missing chunk to the remotes in its `owned_by`.
  datatype Downloader = Downloader(owners: map<Hash, set<Peer>>, remotes: map<Peer, Guarded>, tracked: set<Peer>)

  const Idle: Downloader := Downloader(map[], map[], {})

  function Release(r: Guarded): Guarded {
    if r.Locks() then DropGuard(r, r.weak.value) else r
  }

  function ReleaseMany(r: Guarded, n: nat): Guarded
    decreases n
  {
    if n == 0 then r else ReleaseMany(Release(r), n - 1)
  }

  function ReleaseAll(remotes: map<Peer, Guarded>, peers: set<Peer>): map<Peer, Guarded> {
    map p | p in remotes :: if p in peers then Release(remotes[p]) else remotes[p]
  }

  function Owned(owners: map<Hash, set<Peer>>, p: Peer): set<Hash> {
    set h | h in owners && p in owners[h]
  }

  datatype Event =
    | Connected(p: Peer, role: Side)
    | Track(p: Peer)
    | Untrack(p: Peer)
    | AddChunk(h: Hash)
    | RemoveChunk(h: Hash)
    | RemoteHas(p: Peer, h: Hash)

  // Adding a chunk that is already there replaces it and so drops what it held. Recording an owner
  // takes a new handle and then drops the one it replaces, if any.
  function Next(d: Downloader, e: Event): Downloader {
    match e
    case Connected(p, role) =>
      if p in d.remotes then d else d.(remotes := d.remotes[p := Unguarded(role)])
    case Track(p) =>
      if p in d.remotes then d.(tracked := d.tracked + {p}) else d
    case Untrack(p) =>
      if p !in d.tracked || p !in d.remotes then d
      else Downloader(map h | h in d.owners :: d.owners[h] - {p},
                      d.remotes[p := ReleaseMany(d.remotes[p], |Owned(d.owners, p)|)],
                      d.tracked - {p})
    case AddChunk(h) =>
      d.(owners := d.owners[h := {}],
         remotes := if h in d.owners then ReleaseAll(d.remotes, d.owners[h]) else d.remotes)
    case RemoveChunk(h) =>
      if h !in d.owners then d
      else d.(owners := d.owners - {h}, remotes := ReleaseAll(d.remotes, d.owners[h]))
    case RemoteHas(p, h) =>
      if h !in d.owners || p !in d.remotes then d
      else
        var r := GetGuard(d.remotes[p]);
        d.(owners := d.owners[h := d.owners[h] + {p}],
           remotes := d.remotes[p := if p in d.owners[h] then Release(r) else r])
  }

  function Exec(d: Downloader, events: seq<Event>): Downloader
    decreases |events|
  {
    if events == [] then d else Exec(Next(d, events[0]), events[1..])
  }

  // One handle per owned chunk.
  ghost predicate Counted(owners: map<Hash, set<Peer>>, p: Peer, r: Guarded) {
    GuardInv(r) && Held(r) == |Owned(owners, p)|
  }

  ghost predicate OwnInv(d: Downloader) {
    && d.tracked <= d.remotes.Keys
    && (forall h | h in d.owners :: d.owners[h] <= d.remotes.Keys)
    && (forall p | p in d.remotes :: Counted(d.owners, p, d.remotes[p]))
  }

  lemma TakeCounts(r: Guarded)
    requires GuardInv(r)
    ensures GuardInv(GetGuard(r)) && Held(GetGuard(r)) == Held(r) + 1
  {
  }

  lemma ReleaseCounts(r: Guarded)
    requires GuardInv(r) && Held(r) > 0
    ensures GuardInv(Release(r)) && Held(Release(r)) == Held(r) - 1
  {
  }

  lemma {:induction false} ReleaseManyCounts(r: Guarded, n: nat)
    requires GuardInv(r) && n <= Held(r)
    ensures GuardInv(ReleaseMany(r, n)) && Held(ReleaseMany(r, n)) == Held(r) - n
    decreases n
  {
    if n > 0 {
      ReleaseCounts(r);
      ReleaseManyCounts(Release(r), n - 1);
    }
  }

  // Emptying or removing the entry of `h` takes one owned chunk from each of its owners.
  lemma LosesChunk(owners: map<Hash, set<Peer>>, owners': map<Hash, set<Peer>>, h: Hash, remotes: map<Peer, Guarded>,
                   p: Peer)
    requires p in remotes && Counted(owners, p, remotes[p]) && h in owners
    requires Owned(owners', p) == Owned(owners, p) - {h}
    ensures Counted(owners', p, ReleaseAll(remotes, owners[h])[p])
  {
  }

  lemma RemoveKeepsInv(d: Downloader, h: Hash)
    requires OwnInv(d) && h in d.owners
    ensures OwnInv(Next(d, RemoveChunk(h))) && OwnInv(Next(d, AddChunk(h)))
  {
    hide Counted;
    forall p | p in d.remotes
      ensures Counted(d.owners - {h}, p, ReleaseAll(d.remotes, d.owners[h])[p])
      ensures Counted(d.owners[h := {}], p, ReleaseAll(d.remotes, d.owners[h])[p])
    {
      assert Owned(d.owners - {h}, p) == Owned(d.owners, p) - {h} == Owned(d.owners[h := {}], p);
      LosesChunk(d.owners, d.owners - {h}, h, d.remotes, p);
      LosesChunk(d.owners, d.owners[h := {}], h, d.remotes, p);
    }
  }

  lemma AddKeepsInv(d: Downloader, h: Hash)
    requires OwnInv(d) && h !in d.owners
    ensures OwnInv(Next(d, AddChunk(h)))
  {
    forall p | p in d.remotes ensures Counted(d.owners[h := {}], p, d.remotes[p]) {
      assert Owned(d.owners[h := {}], p) == Owned(d.owners, p);
    }
  }

  lemma RemoteHasKeepsInv(d: Downloader, p: Peer, h: Hash)
    requires OwnInv(d)
    ensures OwnInv(Next(d, RemoteHas(p, h)))
  {
    hide GuardInv, GetGuard, Release, Held;
    if h in d.owners && p in d.remotes {
      var d' := Next(d, RemoteHas(p, h));
      TakeCounts(d.remotes[p]);
      assert Owned(d'.owners, p) == Owned(d.owners, p) + {h};
      if p in d.owners[h] {
        assert h in Owned(d.owners, p);
        assert Owned(d'.owners, p) == Owned(d.owners, p);
        ReleaseCounts(GetGuard(d.remotes[p]));
      }
      forall q | q in d'.remotes && q != p ensures Counted(d'.owners, q, d'.remotes[q]) {
        assert Owned(d'.owners, q) == Owned(d.owners, q);
      }
    }
  }

  lemma UntrackKeepsInv(d: Downloader, p: Peer)
    requires OwnInv(d)
    ensures OwnInv(Next(d, Untrack(p)))
  {
    if p in d.tracked {
      var d' := Next(d, Untrack(p));
      ReleaseManyCounts(d.remotes[p], |Owned(d.owners, p)|);
      assert Owned(d'.owners, p) == {};
      forall q | q in d'.remotes && q != p ensures Counted(d'.owners, q, d'.remotes[q]) {
        assert Owned(d'.owners, q) == Owned(d.owners, q);
      }
    }
  }

  lemma NextKeepsInv(d: Downloader, e: Event)
    requires OwnInv(d)
    ensures OwnInv(Next(d, e))
  {
    match e
    case Connected(p, role) =>
      if p !in d.remotes {
        assert Owned(d.owners, p) == {};
      }
    case Track(_) =>
    case Untrack(p) => UntrackKeepsInv(d, p);
    case AddChunk(h) => if h in d.owners { RemoveKeepsInv(d, h); } else { AddKeepsInv(d, h); }
    case RemoveChunk(h) => if h in d.owners { RemoveKeepsInv(d, h); }
    case RemoteHas(p, h) => RemoteHasKeepsInv(d, p, h);
  }

  lemma {:induction false} ExecKeepsInv(d: Downloader, events: seq<Event>)
    requires OwnInv(d)
    ensures OwnInv(Exec(d, events))
    decreases |events|
  {
    if events != [] {
      NextKeepsInv(d, events[0]);
      ExecKeepsInv(Next(d, events[0]), events[1..]);
    }
  }

  // ---------------------------------------------------------------- what the events say

  predicate IsOwner(d: Downloader, p: Peer, h: Hash) {
    h in d.owners && p in d.owners[h]
  }

  // What one event does to the tables.
  lemma NextTables(d: Downloader, e: Event, p: Peer, h: Hash)
    requires d.tracked <= d.remotes.Keys
    ensures var d' := Next(d, e);
            && (p in d'.remotes <==> p in d.remotes || (e.Connected? && e.p == p))
            && (h in d'.owners <==> e == AddChunk(h) || (h in d.owners && e != RemoveChunk(h)))
            && (p in d'.tracked <==> (e == Track(p) && p in d.remotes) || (p in d.tracked && e != Untrack(p)))
            && (IsOwner(d', p, h) <==>
                  || (e == RemoteHas(p, h) && h in d.owners && p in d.remotes)
                  || (IsOwner(d, p, h) && e != AddChunk(h) && e != RemoveChunk(h)
                        && !(e == Untrack(p) && p in d.tracked)))
  {
    hide GetGuard, Release, ReleaseMany;
  }

  // Read off the events alone: whether a remote is there, a chunk is missing, a remote is tracked.
  predicate Present(events: seq<Event>, p: Peer) {
    exists i | 0 <= i < |events| :: events[i].Connected? && events[i].p == p
  }

  predicate Misses(events: seq<Event>, h: Hash) {
    exists i | 0 <= i < |events| ::
      events[i] == AddChunk(h) && forall j | i < j < |events| :: events[j] != RemoveChunk(h)
  }

  predicate Tracks(events: seq<Event>, p: Peer) {
    exists i | 0 <= i < |events| ::
      events[i] == Track(p) && Present(events[..i], p) && forall j | i < j < |events| :: events[j] != Untrack(p)
  }

  // The event at `j` ends the ownership of `h` by `p`.
  predicate Ends(events: seq<Event>, j: nat, p: Peer, h: Hash)
    requires j < |events|
  {
    events[j] == AddChunk(h) || events[j] == RemoveChunk(h) || (events[j] == Untrack(p) && Tracks(events[..j], p))
  }

  // The event at `i` announces `h`, which is missing, on behalf of `p`, which is there.
  predicate Begins(events: seq<Event>, i: nat, p: Peer, h: Hash)
    requires i < |events|
  {
    events[i] == RemoteHas(p, h) && Misses(events[..i], h) && Present(events[..i], p)
  }

  predicate Owns(events: seq<Event>, p: Peer, h: Hash) {
    exists i | 0 <= i < |events| :: Begins(events, i, p, h) && forall j | i < j < |events| :: !Ends(events, j, p, h)
  }

  lemma Prefix(events: seq<Event>, e: Event, i: nat)
    requires i <= |events|
    ensures (events + [e])[..i] == events[..i] && (i < |events| ==> (events + [e])[i] == events[i])
    ensures events[..|events|] == events
  {
  }

  lemma PresentNext(events: seq<Event>, e: Event, p: Peer)
    ensures Present(events + [e], p) <==> Present(events, p) || (e.Connected? && e.p == p)
  {
    var all := events + [e];
    assert all[|events|] == e;
    if i :| 0 <= i < |events| && events[i].Connected? && events[i].p == p {
      assert all[i] == events[i];
    }
  }

  lemma MissesNext(events: seq<Event>, e: Event, h: Hash)
    ensures Misses(events + [e], h) <==> e == AddChunk(h) || (Misses(events, h) && e != RemoveChunk(h))
  {
    var all, n := events + [e], |events|;
    assert all[n] == e && forall i | 0 <= i < n :: all[i] == events[i];
    if i :| 0 <= i < n && events[i] == AddChunk(h) && (forall j | i < j < n :: events[j] != RemoveChunk(h)) {
      assert all[i] == AddChunk(h);
    }
    if i :| 0 <= i < |all| && all[i] == AddChunk(h) && (forall j | i < j < |all| :: all[j] != RemoveChunk(h)) {
      if i < n {
        assert events[i] == AddChunk(h) && all[n] != RemoveChunk(h);
        assert forall j | i < j < n :: events[j] == all[j];
      }
    }
  }

  lemma TracksNext(events: seq<Event>, e: Event, p: Peer)
    ensures Tracks(events + [e], p) <==> (e == Track(p) && Present(events, p)) || (Tracks(events, p) && e != Untrack(p))
  {
    hide Present;
    var all, n := events + [e], |events|;
    assert all[n] == e && all[..n] == events && forall i | 0 <= i < n :: all[i] == events[i] && all[..i] == events[..i];
    if i :| 0 <= i < n && events[i] == Track(p) && Present(events[..i], p)
            && (forall j | i < j < n :: events[j] != Untrack(p)) {
      assert all[i] == Track(p) && all[..i] == events[..i];
    }
    if i :| 0 <= i < |all| && all[i] == Track(p) && Present(all[..i], p)
            && (forall j | i < j < |all| :: all[j] != Untrack(p)) {
      if i < n {
        assert events[i] == Track(p) && all[n] != Untrack(p);
        assert forall j | i < j < n :: events[j] == all[j];
      }
    }
  }

  lemma OwnsNext(events: seq<Event>, e: Event, p: Peer, h: Hash)
    ensures Owns(events + [e], p, h) <==>
              || (e == RemoteHas(p, h) && Misses(events, h) && Present(events, p))
              || (Owns(events, p, h) && e != AddChunk(h) && e != RemoveChunk(h)
                    && !(e == Untrack(p) && Tracks(events, p)))
  {
    var all, n := events + [e], |events|;
    assert all[n] == e && all[..n] == events;
    assert Begins(all, n, p, h) <==> e == RemoteHas(p, h) && Misses(events, h) && Present(events, p);
    assert Ends(all, n, p, h) <==> e == AddChunk(h) || e == RemoveChunk(h) || (e == Untrack(p) && Tracks(events, p));
    forall i | 0 <= i < n
      ensures Begins(all, i, p, h) <==> Begins(events, i, p, h)
      ensures Ends(all, i, p, h) <==> Ends(events, i, p, h)
    {
      Prefix(events, e, i);
    }
    hide Begins, Ends;
    if i :| 0 <= i < n && Begins(events, i, p, h) && (forall j | i < j < n :: !Ends(events, j, p, h)) {
      assert Begins(all, i, p, h);
    }
    if i :| 0 <= i < |all| && Begins(all, i, p, h) && (forall j | i < j < |all| :: !Ends(all, j, p, h)) {
      if i < n {
        assert Begins(events, i, p, h) && !Ends(all, n, p, h);
        assert forall j | i < j < n :: !Ends(events, j, p, h) by {
          forall j | i < j < n ensures !Ends(events, j, p, h) {
            assert !Ends(all, j, p, h);
          }
        }
      }
    }
  }

  lemma {:induction false} ExecNext(d: Downloader, events: seq<Event>, e: Event)
    ensures Exec(d, events + [e]) == Next(Exec(d, events), e)
    decreases |events|
  {
    hide Next;
    if events == [] {
      assert events + [e] == [e] && [e][1..] == [];
      assert Exec(d, [e]) == Exec(Next(d, e), []);
    } else {
      assert (events + [e])[1..] == events[1..] + [e];
      ExecNext(Next(d, events[0]), events[1..], e);
    }
  }

  // After every run the tables are what the events say: a remote owns a missing chunk if and only if it
  // announced it while it was missing, and since then the chunk was neither found nor added again, and the
  // remote not untracked.
  lemma {:induction false} Tables(events: seq<Event>, p: Peer, h: Hash)
    ensures var d := Exec(Idle, events);
            && (p in d.remotes <==> Present(events, p))
            && (h in d.owners <==> Misses(events, h))
            && (p in d.tracked <==> Tracks(events, p))
            && (IsOwner(d, p, h) <==> Owns(events, p, h))
    decreases |events|
  {
    if events != [] {
      var init, e := events[..|events| - 1], events[|events| - 1];
      assert events == init + [e];
      Tables(init, p, h);
      ExecKeepsInv(Idle, init);
      ExecNext(Idle, init, e);
      NextTables(Exec(Idle, init), e, p, h);
      hide Exec, Next, Present, Misses, Tracks, Owns, IsOwner;
      PresentNext(init, e, p);
      MissesNext(init, e, h);
      TracksNext(init, e, p);
      OwnsNext(init, e, p, h);
    }
  }

  // In every run of the downloader, the daemon is interested in a remote exactly while that remote, by
  // what the events say, owns a chunk; and it has told it so by strictly alternating messages.
  lemma InterestedIffOwner(events: seq<Event>, p: Peer)
    ensures var d := Exec(Idle, events);
            p in d.remotes ==>
              var r := d.remotes[p];
              && (r.end.amInterested <==> exists h :: Owns(events, p, h))
              && Alternates(Notices(r.sent))
              && (r.end.amInterested <==> |Notices(r.sent)| % 2 == 1)
  {
    ExecKeepsInv(Idle, events);
    var d := Exec(Idle, events);
    if p in d.remotes {
      InterestMeansOwner(d, p);
      forall h ensures IsOwner(d, p, h) <==> Owns(events, p, h) {
        Tables(events, p, h);
      }
      hide Owns, Exec;
      if h :| h in d.owners && p in d.owners[h] {
        assert IsOwner(d, p, h);
      }
    }
  }

  lemma InterestMeansOwner(d: Downloader, p: Peer)
    requires OwnInv(d) && p in d.remotes
    ensures d.remotes[p].end.amInterested <==> exists h | h in d.owners :: p in d.owners[h]
    ensures GuardInv(d.remotes[p])
  {
    assert Counted(d.owners, p, d.remotes[p]);
    assert Owned(d.owners, p) != {} <==> exists h | h in d.owners :: p in d.owners[h] by {
      if h :| h in d.owners && p in d.owners[h] {
        assert h in Owned(d.owners, p);
      }
    }
  }

  // ---------------------------------------------------------------- remotes that are not tracked

  // No interest in a remote that is not tracked.
  predicate Lawful(d: Downloader) {
    forall p | p in d.remotes && p !in d.tracked :: !d.remotes[p].end.amInterested
  }

  predicate LawfulThroughout(d: Downloader, events: seq<Event>)
    decreases |events|
  {
    Lawful(d) && (events == [] || LawfulThroughout(Next(d, events[0]), events[1..]))
  }

  // A missing chunk is announced by tracked remotes only.
  predicate Timely(d: Downloader, e: Event) {
    e.RemoteHas? && e.h in d.owners && e.p in d.remotes ==> e.p in d.tracked
  }

  predicate TimelyThroughout(d: Downloader, events: seq<Event>)
    decreases |events|
  {
    events == [] || (Timely(d, events[0]) && TimelyThroughout(Next(d, events[0]), events[1..]))
  }

  ghost predicate OwnersTracked(d: Downloader) {
    forall h | h in d.owners :: d.owners[h] <= d.tracked
  }

  lemma LawfulIffOwnersTracked(d: Downloader)
    requires OwnInv(d)
    ensures Lawful(d) <==> OwnersTracked(d)
  {
    forall p | p in d.remotes
      ensures d.remotes[p].end.amInterested <==> exists h | h in d.owners :: p in d.owners[h]
    {
      InterestMeansOwner(d, p);
    }
    if Lawful(d) {
      forall h, p | h in d.owners && p in d.owners[h] ensures p in d.tracked {
      }
    }
  }

  lemma StepTimelyIff(d: Downloader, e: Event)
    requires OwnInv(d) && OwnersTracked(d)
    ensures OwnersTracked(Next(d, e)) <==> Timely(d, e)
  {
    hide GetGuard, Release, ReleaseMany, Counted;
    if !Timely(d, e) {
      assert e.p in Next(d, e).owners[e.h];
    }
  }

  // A remote that is not tracked is never an object of interest, throughout a run, if and only if only tracked
  // remotes announce missing chunks.
  lemma {:induction false} LawfulIffTimely(d: Downloader, events: seq<Event>)
    requires OwnInv(d) && OwnersTracked(d)
    ensures LawfulThroughout(d, events) <==> TimelyThroughout(d, events)
    decreases |events|
  {
    LawfulIffOwnersTracked(d);
    if events != [] {
      hide Lawful, OwnersTracked, Timely, OwnInv, Next;
      var d' := Next(d, events[0]);
      NextKeepsInv(d, events[0]);
      StepTimelyIff(d, events[0]);
      LawfulIffOwnersTracked(d');
      if OwnersTracked(d') {
        LawfulIffTimely(d', events[1..]);
      } else {
        assert !LawfulThroughout(d', events[1..]);
      }
    }
  }
}
