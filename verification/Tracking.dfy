/**
  The downloader together with the connections of its group: a remote is tracked when its handshake succeeds
  and untracked when it closes, and only an open and ready connection announces chunks. So every guard of a
  remote is dropped before the remote is.
 */
module Tracking {
  import opened PeerLink
  import opened InterestGuards
  import opened Ownership

  // `announced` are the chunks that an announcing message tells of. `Does` is anything else a connection
  // does: it changes flags other than its own interest and sends messages other than notices.
  datatype Happening =
    | Made(p: Peer, role: Side)
    | Opened(p: Peer, admitted: bool, local: Token)
    | Received(p: Peer, m: Message, announced: seq<Hash>, local: Token, remote: Token)
    | Does(p: Peer, x: Reaction)
    | Shut(p: Peer)
    | Missing(h: Hash)
    | Found(h: Hash)

  // A chunk is announced by itself, with its file, or with the answer to a request for the file.
  predicate Announces(m: Message) {
    m.Ordinary? && (m.kind.HaveChunk? || m.kind.HaveMeta? || m.kind.MetaReply?)
  }

  // The same handshake state.
  predicate SameLink(a: End, b: End) {
    a.role == b.role && a.phase == b.phase && a.sent == b.sent && a.received == b.received && a.successes == b.successes
  }

  function With(d: Downloader, p: Peer, x: Reaction): Downloader
    requires p in d.remotes
  {
    d.(remotes := d.remotes[p := d.remotes[p].React(x)])
  }

  function AnnounceAll(d: Downloader, p: Peer, announced: seq<Hash>): Downloader
    decreases |announced|
  {
    if announced == [] then d else AnnounceAll(Ownership.Next(d, RemoteHas(p, announced[0])), p, announced[1..])
  }

  // Closing detaches first, which untracks the remote.
  function Close(d: Downloader, p: Peer): Downloader
    requires p in d.remotes
  {
    var d1 := Ownership.Next(d, Untrack(p));
    if p in d1.remotes then With(d1, p, Reaction(d1.remotes[p].end.(phase := Closed), [])) else d1
  }

  function Receive(d: Downloader, p: Peer, m: Message, announced: seq<Hash>, local: Token, remote: Token): Downloader
    requires p in d.remotes
  {
    Absorb(d, p, m, announced, HandleMessage(d.remotes[p].end, m, local, remote))
  }

  // The reaction `x` of the connection to the message `m`, with what the group does about it.
  function Absorb(d: Downloader, p: Peer, m: Message, announced: seq<Hash>, x: Reaction): Downloader
    requires p in d.remotes
  {
    var e := d.remotes[p].end;
    if x.end.phase.Closed? then
      var d1 := Close(d, p);
      if p in d1.remotes then With(d1, p, Reaction(d1.remotes[p].end.(protocolError := true), x.out)) else d1
    else if x.end.successes > e.successes then Ownership.Next(With(d, p, x), Track(p))
    else if e.Ready() && Announces(m) then AnnounceAll(With(d, p, x), p, announced)
    else With(d, p, x)
  }

  // Nothing reaches a connection that is not open.
  function Happen(d: Downloader, e: Happening): Downloader {
    match e
    case Made(p, role) => Ownership.Next(d, Connected(p, role))
    case Missing(h) => Ownership.Next(d, AddChunk(h))
    case Found(h) => Ownership.Next(d, RemoveChunk(h))
    case Opened(p, admitted, local) =>
      if p in d.remotes && d.remotes[p].end.phase.Idle?
      then With(d, p, HandleConnected(d.remotes[p].end, admitted, local))
      else d
    case Received(p, m, announced, local, remote) =>
      if p in d.remotes && d.remotes[p].end.phase.Attached? then Receive(d, p, m, announced, local, remote) else d
    case Does(p, x) =>
      if p in d.remotes && IsOther(d.remotes[p], x) && SameLink(d.remotes[p].end, x.end) then With(d, p, x) else d
    case Shut(p) => if p in d.remotes then Close(d, p) else d
  }

  function HappenAll(d: Downloader, events: seq<Happening>): Downloader
    decreases |events|
  {
    if events == [] then d else HappenAll(Happen(d, events[0]), events[1..])
  }

  // ---------------------------------------------------------------- the invariant

  predicate Sound(e: End) {
    && (e.phase.Idle? ==> !e.sent && !e.received)
    && (e.role.Client? && e.phase.Attached? ==> e.sent)
    && (e.received ==> e.sent)
    && e.successes == (if e.received then 1 else 0)
  }

  predicate Open(e: End) {
    e.phase.Attached? && e.Ready()
  }

  // Exactly the open and ready remotes are tracked.
  ghost predicate LinksTracked(d: Downloader) {
    forall p | p in d.remotes :: Sound(d.remotes[p].end) && (p in d.tracked <==> Open(d.remotes[p].end))
  }

  ghost predicate TrackInv(d: Downloader) {
    OwnInv(d) && OwnersTracked(d) && LinksTracked(d)
  }

  // ---------------------------------------------------------------- the downloader leaves the links alone

  lemma ReleaseKeepsLink(r: Guarded)
    ensures SameLink(Release(r).end, r.end)
  {
  }

  lemma {:induction false} ReleaseManyKeepsLink(r: Guarded, n: nat)
    ensures SameLink(ReleaseMany(r, n).end, r.end)
    decreases n
  {
    if n > 0 {
      ReleaseKeepsLink(r);
      ReleaseManyKeepsLink(Release(r), n - 1);
    }
  }

  lemma TakeKeepsLink(r: Guarded)
    ensures SameLink(GetGuard(r).end, r.end)
  {
  }

  lemma NextKeepsLinks(d: Downloader, e: Event, p: Peer)
    requires p in d.remotes
    ensures p in Ownership.Next(d, e).remotes && SameLink(Ownership.Next(d, e).remotes[p].end, d.remotes[p].end)
  {
    var r := d.remotes[p];
    ReleaseKeepsLink(r);
    TakeKeepsLink(r);
    ReleaseKeepsLink(GetGuard(r));
    ReleaseManyKeepsLink(r, |Owned(d.owners, p)|);
    hide Release, GetGuard, ReleaseMany, Owned;
  }

  lemma NextKeepsRemotes(d: Downloader, e: Event)
    requires !e.Connected? && !e.Track? && d.tracked <= d.remotes.Keys
    ensures Ownership.Next(d, e).remotes.Keys == d.remotes.Keys
    ensures Ownership.Next(d, e).tracked == if e.Untrack? then d.tracked - {e.p} else d.tracked
  {
    hide Release, GetGuard, ReleaseMany, Owned;
  }

  // Every link keeps its state, and is tracked as before unless it is untracked.
  lemma NextKeepsSound(d: Downloader, e: Event, p: Peer)
    requires LinksTracked(d) && !e.Connected? && !e.Track? && d.tracked <= d.remotes.Keys && p in d.remotes
    ensures var d' := Ownership.Next(d, e);
            && p in d'.remotes && Sound(d'.remotes[p].end)
            && (Open(d'.remotes[p].end) <==> Open(d.remotes[p].end))
            && (p in d'.tracked <==> Open(d.remotes[p].end) && !(e.Untrack? && e.p == p))
  {
    NextKeepsLinks(d, e, p);
    NextKeepsRemotes(d, e);
    hide Ownership.Next;
  }

  // A step of the downloader that does not change who is tracked.
  lemma NextKeepsTrackInv(d: Downloader, e: Event)
    requires TrackInv(d) && Timely(d, e) && (e.AddChunk? || e.RemoveChunk? || e.RemoteHas?)
    ensures TrackInv(Ownership.Next(d, e))
  {
    NextKeepsInv(d, e);
    StepTimelyIff(d, e);
    TrackedAreRemotes(d);
    NextKeepsRemotes(d, e);
    var d' := Ownership.Next(d, e);
    hide Ownership.Next, OwnInv, OwnersTracked, Timely, Sound, Open;
    forall p | p in d'.remotes ensures Sound(d'.remotes[p].end) && (p in d'.tracked <==> Open(d'.remotes[p].end)) {
      NextKeepsSound(d, e, p);
    }
  }

  lemma TrackedAreRemotes(d: Downloader)
    requires OwnInv(d)
    ensures d.tracked <= d.remotes.Keys
  {
  }

  lemma {:induction false} AnnounceAllKeepsInv(d: Downloader, p: Peer, announced: seq<Hash>)
    requires TrackInv(d) && p in d.tracked
    ensures TrackInv(AnnounceAll(d, p, announced))
    decreases |announced|
  {
    if announced != [] {
      NextKeepsTrackInv(d, RemoteHas(p, announced[0]));
      assert Ownership.Next(d, RemoteHas(p, announced[0])).tracked == d.tracked;
      hide TrackInv, Ownership.Next;
      AnnounceAllKeepsInv(Ownership.Next(d, RemoteHas(p, announced[0])), p, announced[1..]);
    }
  }

  // ---------------------------------------------------------------- one connection acts

  lemma WithKeepsOwners(d: Downloader, p: Peer, x: Reaction)
    requires p in d.remotes && OwnInv(d) && IsOther(d.remotes[p], x)
    ensures OwnInv(With(d, p, x))
    ensures OwnersTracked(d) ==> OwnersTracked(With(d, p, x))
  {
    OtherKeepsInv(d.remotes[p], x);
    hide GuardInv;
    var d' := With(d, p, x);
    assert d'.owners == d.owners && d'.remotes.Keys == d.remotes.Keys;
    forall q | q in d'.remotes ensures Counted(d'.owners, q, d'.remotes[q]) {
      assert Counted(d.owners, q, d.remotes[q]);
    }
  }

  // A connection that does not become open or stop being open.
  lemma WithKeepsInv(d: Downloader, p: Peer, x: Reaction)
    requires TrackInv(d) && p in d.remotes && IsOther(d.remotes[p], x)
    requires Sound(x.end) && (Open(x.end) <==> Open(d.remotes[p].end))
    ensures TrackInv(With(d, p, x))
  {
    WithKeepsOwners(d, p, x);
    hide OwnInv, OwnersTracked;
  }

  // One that becomes open is tracked.
  lemma TrackKeepsInv(d: Downloader, p: Peer, x: Reaction)
    requires TrackInv(d) && p in d.remotes && IsOther(d.remotes[p], x) && Sound(x.end) && Open(x.end)
    ensures TrackInv(Ownership.Next(With(d, p, x), Track(p)))
  {
    WithKeepsOwners(d, p, x);
    NextKeepsInv(With(d, p, x), Track(p));
    hide OwnInv;
  }

  // One that closes is untracked.
  lemma CloseKeepsInv(d: Downloader, p: Peer)
    requires TrackInv(d) && p in d.remotes
    ensures TrackInv(Close(d, p)) && p in Close(d, p).remotes && Close(d, p).remotes[p].end.phase.Closed?
  {
    TrackedAreRemotes(d);
    CloseKeepsOwners(d, p);
    hide OwnInv, OwnersTracked;
    CloseKeepsLinks(d, p);
  }

  lemma CloseKeepsOwners(d: Downloader, p: Peer)
    requires OwnInv(d) && OwnersTracked(d) && p in d.remotes
    ensures OwnInv(Close(d, p)) && OwnersTracked(Close(d, p))
  {
    var d1 := Ownership.Next(d, Untrack(p));
    NextKeepsInv(d, Untrack(p));
    StepTimelyIff(d, Untrack(p));
    NextKeepsLinks(d, Untrack(p), p);
    hide OwnInv, OwnersTracked, Ownership.Next, Timely;
    WithKeepsOwners(d1, p, Reaction(d1.remotes[p].end.(phase := Closed), []));
    assert Timely(d, Untrack(p)) by { UntrackIsTimely(d, p); }
  }

  lemma UntrackIsTimely(d: Downloader, p: Peer)
    ensures Timely(d, Untrack(p))
  {
  }

  lemma CloseKeepsLinks(d: Downloader, p: Peer)
    requires LinksTracked(d) && d.tracked <= d.remotes.Keys && p in d.remotes
    ensures var d' := Close(d, p);
            LinksTracked(d') && p in d'.remotes && d'.remotes[p].end.phase.Closed?
  {
    NextKeepsRemotes(d, Untrack(p));
    NextKeepsSound(d, Untrack(p), p);
    hide Ownership.Next, Open;
    var d' := Close(d, p);
    assert !Open(d'.remotes[p].end) by { ClosedIsNotOpen(d'.remotes[p].end); }
    forall q | q in d'.remotes ensures Sound(d'.remotes[q].end) && (q in d'.tracked <==> Open(d'.remotes[q].end)) {
      NextKeepsSound(d, Untrack(p), q);
    }
  }

  lemma ClosedIsNotOpen(e: End)
    requires e.phase.Closed?
    ensures !Open(e)
  {
  }

  // What a message does to the handshake of an open connection.
  lemma ReceiveSound(e: End, m: Message, local: Token, remote: Token)
    requires Sound(e) && e.phase.Attached?
    ensures var x := HandleMessage(e, m, local, remote);
            && Sound(x.end) && x.end.amInterested == e.amInterested && |x.out| <= 1 && NoNotice(x.out)
            && (x.end.phase.Closed? ==> e.Ready() && m.Handshake?)
            && (!x.end.phase.Closed? ==>
                  x.end.phase.Attached? && (x.end.Ready() <==> e.Ready() || x.end.successes > e.successes))
  {
    if e.Ready() {
      ReadyShape(e, m, local, remote);
    } else {
      NewShape(e, m, local, remote);
    }
    hide HandleMessage;
  }

  predicate NoNotice(out: seq<Message>) {
    forall m | m in out :: !IsNotice(m)
  }

  lemma ReceiveKeepsInv(d: Downloader, p: Peer, m: Message, announced: seq<Hash>, local: Token, remote: Token)
    requires TrackInv(d) && p in d.remotes && d.remotes[p].end.phase.Attached?
    ensures TrackInv(Receive(d, p, m, announced, local, remote))
  {
    var e := d.remotes[p].end;
    var x := HandleMessage(e, m, local, remote);
    ReceiveSound(e, m, local, remote);
    hide HandleMessage, OwnInv, OwnersTracked;
    if x.end.phase.Closed? {
      ErrorKeepsInv(d, p, x.out);
    } else if x.end.successes > e.successes {
      TrackKeepsInv(d, p, x);
    } else {
      WithKeepsInv(d, p, x);
      if e.Ready() && Announces(m) {
        AnnounceAllKeepsInv(With(d, p, x), p, announced);
      }
    }
  }

  lemma ErrorKeepsInv(d: Downloader, p: Peer, out: seq<Message>)
    requires TrackInv(d) && p in d.remotes && |out| <= 1 && NoNotice(out)
    ensures var d1 := Close(d, p);
            p in d1.remotes && TrackInv(With(d1, p, Reaction(d1.remotes[p].end.(protocolError := true), out)))
  {
    CloseKeepsInv(d, p);
    var d1 := Close(d, p);
    hide Close, OwnInv, OwnersTracked;
    WithKeepsInv(d1, p, Reaction(d1.remotes[p].end.(protocolError := true), out));
  }

  lemma MadeKeepsInv(d: Downloader, p: Peer, role: Side)
    requires TrackInv(d)
    ensures TrackInv(Ownership.Next(d, Connected(p, role)))
  {
    NextKeepsInv(d, Connected(p, role));
    hide OwnInv;
    assert d.tracked <= d.remotes.Keys by { TrackedAreRemotes(d); }
  }

  lemma HappenKeepsInv(d: Downloader, e: Happening)
    requires TrackInv(d)
    ensures TrackInv(Happen(d, e))
  {
    hide OwnInv, OwnersTracked, Ownership.Next, Close, Receive;
    match e
    case Made(p, role) => MadeKeepsInv(d, p, role);
    case Missing(h) => NextKeepsTrackInv(d, AddChunk(h));
    case Found(h) => NextKeepsTrackInv(d, RemoveChunk(h));
    case Opened(p, admitted, local) =>
      if p in d.remotes && d.remotes[p].end.phase.Idle? {
        WithKeepsInv(d, p, HandleConnected(d.remotes[p].end, admitted, local));
      }
    case Received(p, m, announced, local, remote) =>
      if p in d.remotes && d.remotes[p].end.phase.Attached? {
        ReceiveKeepsInv(d, p, m, announced, local, remote);
      }
    case Does(p, x) =>
      if p in d.remotes && IsOther(d.remotes[p], x) && SameLink(d.remotes[p].end, x.end) {
        WithKeepsInv(d, p, x);
      }
    case Shut(p) => if p in d.remotes { CloseKeepsInv(d, p); }
  }

  lemma {:induction false} RunKeepsInv(d: Downloader, events: seq<Happening>)
    requires TrackInv(d)
    ensures TrackInv(HappenAll(d, events))
    decreases |events|
  {
    hide TrackInv, Happen;
    if events != [] {
      HappenKeepsInv(d, events[0]);
      RunKeepsInv(Happen(d, events[0]), events[1..]);
    }
  }

  // ---------------------------------------------------------------- who owns what

  // The end of a connection goes as the link says, but for its own interest.
  lemma EndFollows(d: Downloader, e: Happening, p: Peer)
    requires p in d.remotes && OwnInv(d)
    ensures var d', end := Happen(d, e), d.remotes[p].end;
            && p in d'.remotes
            && SameLink(d'.remotes[p].end,
                        match e
                        case Opened(q, admitted, local) =>
                          if q == p && end.phase.Idle? then HandleConnected(end, admitted, local).end else end
                        case Received(q, m, _, local, remote) =>
                          if q == p && end.phase.Attached? then HandleMessage(end, m, local, remote).end else end
                        case Shut(q) => if q == p then end.(phase := Closed) else end
                        case _ => end)
  {
    hide OwnInv, HandleMessage;
    match e
    case Made(q, role) => NextKeepsLinks(d, Connected(q, role), p);
    case Missing(h) => NextKeepsLinks(d, AddChunk(h), p);
    case Found(h) => NextKeepsLinks(d, RemoveChunk(h), p);
    case Opened(_, _, _) =>
    case Does(_, _) =>
    case Shut(q) => CloseFollows(d, q, p);
    case Received(q, m, announced, local, remote) =>
      if q in d.remotes && d.remotes[q].end.phase.Attached? {
        ReceiveFollows(d, q, m, announced, local, remote, p);
      }
  }

  lemma CloseFollows(d: Downloader, q: Peer, p: Peer)
    requires p in d.remotes
    ensures q in d.remotes ==> p in Close(d, q).remotes && q in Close(d, q).remotes
    ensures q in d.remotes ==>
              var end := d.remotes[p].end;
              SameLink(Close(d, q).remotes[p].end, if q == p then end.(phase := Closed) else end)
  {
    if q in d.remotes {
      NextKeepsLinks(d, Untrack(q), p);
      NextKeepsLinks(d, Untrack(q), q);
      hide Ownership.Next;
    }
  }

  lemma {:induction false} AnnounceAllFollows(d: Downloader, q: Peer, announced: seq<Hash>, p: Peer)
    requires p in d.remotes
    ensures p in AnnounceAll(d, q, announced).remotes
    ensures SameLink(AnnounceAll(d, q, announced).remotes[p].end, d.remotes[p].end)
    decreases |announced|
  {
    if announced != [] {
      NextKeepsLinks(d, RemoteHas(q, announced[0]), p);
      hide Ownership.Next;
      AnnounceAllFollows(Ownership.Next(d, RemoteHas(q, announced[0])), q, announced[1..], p);
    }
  }

  lemma ReceiveFollows(d: Downloader, q: Peer, m: Message, announced: seq<Hash>, local: Token, remote: Token, p: Peer)
    requires p in d.remotes && q in d.remotes && d.remotes[q].end.phase.Attached?
    ensures var d', end := Receive(d, q, m, announced, local, remote), d.remotes[p].end;
            && p in d'.remotes
            && SameLink(d'.remotes[p].end, if q == p then HandleMessage(end, m, local, remote).end else end)
  {
    ClosingShape(d.remotes[q].end, m, local, remote);
    AbsorbFollows(d, q, m, announced, HandleMessage(d.remotes[q].end, m, local, remote), p);
  }

  lemma AbsorbFollows(d: Downloader, q: Peer, m: Message, announced: seq<Hash>, x: Reaction, p: Peer)
    requires p in d.remotes && q in d.remotes
    requires x.end.phase.Closed? ==> SameLink(d.remotes[q].end.(phase := Closed), x.end)
    ensures var d' := Absorb(d, q, m, announced, x);
            p in d'.remotes && SameLink(d'.remotes[p].end, if q == p then x.end else d.remotes[p].end)
  {
    hide SameLink, Ownership.Next, AnnounceAll, Close, Announces;
    if x.end.phase.Closed? {
      ErrorFollows(d, q, x, p);
    } else {
      var d1 := With(d, q, x);
      WithFollows(d, q, x, p);
      hide With;
      NextKeepsLinks(d1, Track(q), p);
      AnnounceAllFollows(d1, q, announced, p);
      LinkSelf(d1.remotes[p].end);
    }
  }

  lemma ClosingShape(e: End, m: Message, local: Token, remote: Token)
    requires e.phase.Attached?
    ensures var x := HandleMessage(e, m, local, remote);
            x.end.phase.Closed? ==> SameLink(e.(phase := Closed), x.end)
  {
    if e.Ready() {
      ReadyShape(e, m, local, remote);
    } else {
      NewShape(e, m, local, remote);
    }
    hide HandleMessage;
  }

  lemma WithFollows(d: Downloader, q: Peer, x: Reaction, p: Peer)
    requires p in d.remotes && q in d.remotes
    ensures p in With(d, q, x).remotes
    ensures With(d, q, x).remotes[p].end == if q == p then x.end else d.remotes[p].end
  {
  }

  lemma LinkSelf(e: End)
    ensures SameLink(e, e)
  {
  }

  lemma ErrorFollows(d: Downloader, q: Peer, x: Reaction, p: Peer)
    requires p in d.remotes && q in d.remotes && SameLink(d.remotes[q].end.(phase := Closed), x.end)
    ensures var d1 := Close(d, q);
            q in d1.remotes && p in d1.remotes &&
            var d', end := With(d1, q, Reaction(d1.remotes[q].end.(protocolError := true), x.out)), d.remotes[p].end;
            SameLink(d'.remotes[p].end, if q == p then x.end else end)
  {
    CloseFollows(d, q, p);
    CloseFollows(d, q, q);
    hide Close;
  }

  lemma {:induction false} AnnounceAllOwners(d: Downloader, q: Peer, announced: seq<Hash>, p: Peer, h: Hash)
    requires q in d.remotes && d.tracked <= d.remotes.Keys
    ensures var d' := AnnounceAll(d, q, announced);
            && (h in d'.owners <==> h in d.owners)
            && (IsOwner(d', p, h) <==> IsOwner(d, p, h) || (p == q && h in announced && h in d.owners))
    decreases |announced|
  {
    if announced != [] {
      var e := RemoteHas(q, announced[0]);
      NextTables(d, e, p, h);
      NextTables(d, e, q, h);
      NextKeepsRemotes(d, e);
      assert forall x | x in announced :: x == announced[0] || x in announced[1..];
      hide Ownership.Next, IsOwner;
      AnnounceAllOwners(Ownership.Next(d, e), q, announced[1..], p, h);
    }
  }

  // An open and ready connection announces the chunk.
  predicate Tells(d: Downloader, e: Happening, p: Peer, h: Hash) {
    e.Received? && e.p == p && Announces(e.m) && h in e.announced && OpenAt(d, p)
  }

  predicate OpenAt(d: Downloader, p: Peer) {
    p in d.remotes && Open(d.remotes[p].end)
  }

  lemma ReceiveOwners(d: Downloader, e: Happening, p: Peer, h: Hash)
    requires TrackInv(d) && e.Received? && e.p in d.remotes && d.remotes[e.p].end.phase.Attached?
    ensures var d' := Receive(d, e.p, e.m, e.announced, e.local, e.remote);
            && (h in d'.owners <==> h in d.owners)
            && (IsOwner(d', p, h) <==>
                  || (Tells(d, e, p, h) && h in d.owners)
                  || (IsOwner(d, p, h) && (p == e.p ==> !(e.m.Handshake? && OpenAt(d, p)))))
  {
    var end := d.remotes[e.p].end;
    var x := HandleMessage(end, e.m, e.local, e.remote);
    TrackedAreRemotes(d);
    if end.Ready() {
      ReadyShape(end, e.m, e.local, e.remote);
    } else {
      NewShape(end, e.m, e.local, e.remote);
    }
    hide HandleMessage, OwnInv;
    assert IsOwner(d, p, h) ==> p in d.tracked && p in d.remotes && Open(d.remotes[p].end);
    if x.end.phase.Closed? {
      CloseOwners(d, e.p, p, h);
    } else if x.end.successes > end.successes {
    } else if end.Ready() && Announces(e.m) {
      AnnounceAllOwners(With(d, e.p, x), e.p, e.announced, p, h);
    }
  }

  lemma CloseOwners(d: Downloader, q: Peer, p: Peer, h: Hash)
    requires TrackInv(d) && q in d.remotes
    ensures var d' := Close(d, q);
            (h in d'.owners <==> h in d.owners) && (IsOwner(d', p, h) <==> IsOwner(d, p, h) && p != q)
  {
    TrackedAreRemotes(d);
    NextTables(d, Untrack(q), p, h);
    hide Ownership.Next;
  }

  // What one happening does to the owners.
  lemma HappenOwners(d: Downloader, e: Happening, p: Peer, h: Hash)
    requires TrackInv(d)
    ensures var d' := Happen(d, e);
            && (h in d'.owners <==> e == Missing(h) || (h in d.owners && e != Found(h)))
            && (IsOwner(d', p, h) <==>
                  || (Tells(d, e, p, h) && h in d.owners)
                  || (IsOwner(d, p, h) && e != Missing(h) && e != Found(h) && OpenAt(d', p)))
  {
    TrackedAreRemotes(d);
    assert IsOwner(d, p, h) ==> OpenAt(d, p);
    match e
    case Received(q, _, _, _, _) => ReceivedOwners(d, e, p, h);
    case Shut(q) => ShutOwners(d, q, p, h);
    case _ => OtherOwners(d, e, p, h);
  }

  lemma OtherOwners(d: Downloader, e: Happening, p: Peer, h: Hash)
    requires d.tracked <= d.remotes.Keys && OwnInv(d) && !e.Received? && !e.Shut?
    requires IsOwner(d, p, h) ==> OpenAt(d, p)
    ensures var d' := Happen(d, e);
            && (h in d'.owners <==> e == Missing(h) || (h in d.owners && e != Found(h)))
            && (IsOwner(d', p, h) <==> IsOwner(d, p, h) && e != Missing(h) && e != Found(h) && OpenAt(d', p))
  {
    if p in d.remotes {
      EndFollows(d, e, p);
    }
    hide OwnInv, Ownership.Next, HandleConnected;
    match e
    case Made(q, role) => NextTables(d, Connected(q, role), p, h);
    case Missing(g) => NextTables(d, AddChunk(g), p, h);
    case Found(g) => NextTables(d, RemoveChunk(g), p, h);
    case Opened(_, _, _) =>
    case Does(_, _) =>
  }

  lemma ShutOwners(d: Downloader, q: Peer, p: Peer, h: Hash)
    requires TrackInv(d) && (IsOwner(d, p, h) ==> OpenAt(d, p))
    ensures var d' := Happen(d, Shut(q));
            (h in d'.owners <==> h in d.owners) && (IsOwner(d', p, h) <==> IsOwner(d, p, h) && OpenAt(d', p))
  {
    if q in d.remotes {
      CloseOwners(d, q, p, h);
      if p in d.remotes {
        CloseFollows(d, q, p);
      }
    }
    hide Close, TrackInv;
  }

  lemma ReceivedOwners(d: Downloader, e: Happening, p: Peer, h: Hash)
    requires TrackInv(d) && e.Received? && (IsOwner(d, p, h) ==> OpenAt(d, p))
    ensures var d' := Happen(d, e);
            && (h in d'.owners <==> h in d.owners)
            && (IsOwner(d', p, h) <==> (Tells(d, e, p, h) && h in d.owners) || (IsOwner(d, p, h) && OpenAt(d', p)))
  {
    if e.p in d.remotes && d.remotes[e.p].end.phase.Attached? {
      ReceiveOwners(d, e, p, h);
      if OpenAt(d, p) {
        ReceiveFollows(d, e.p, e.m, e.announced, e.local, e.remote, p);
        ReadyShape(d.remotes[p].end, e.m, e.local, e.remote);
      }
    }
    hide TrackInv, Receive, HandleMessage;
  }

  // ---------------------------------------------------------------- owners over whole runs

  // A chunk is missing since it was last added.
  predicate MissesSoFar(events: seq<Happening>, h: Hash) {
    exists i | 0 <= i < |events| :: events[i] == Missing(h) && forall j | i < j < |events| :: events[j] != Found(h)
  }

  // The connection `p` tells of the missing chunk `h` at `i`; and at `j` the chunk is found or added again, or the
  // connection is not open any more.
  predicate TellsAt(events: seq<Happening>, i: nat, p: Peer, h: Hash)
    requires i < |events|
  {
    Tells(HappenAll(Ownership.Idle, events[..i]), events[i], p, h) && MissesSoFar(events[..i], h)
  }

  predicate StopsAt(events: seq<Happening>, j: nat, p: Peer, h: Hash)
    requires j < |events|
  {
    events[j] == Missing(h) || events[j] == Found(h) || !OpenAt(HappenAll(Ownership.Idle, events[..j + 1]), p)
  }

  predicate OwnsSoFar(events: seq<Happening>, p: Peer, h: Hash) {
    exists i | 0 <= i < |events| :: TellsAt(events, i, p, h) && forall j | i < j < |events| :: !StopsAt(events, j, p, h)
  }

  lemma MissesSoFarNext(events: seq<Happening>, e: Happening, h: Hash)
    ensures MissesSoFar(events + [e], h) <==> e == Missing(h) || (MissesSoFar(events, h) && e != Found(h))
  {
    var all, n := events + [e], |events|;
    assert all[n] == e && forall i | 0 <= i < n :: all[i] == events[i];
    if i :| 0 <= i < n && events[i] == Missing(h) && (forall j | i < j < n :: events[j] != Found(h)) {
      assert all[i] == Missing(h);
    }
    if i :| 0 <= i < |all| && all[i] == Missing(h) && (forall j | i < j < |all| :: all[j] != Found(h)) {
      if i < n {
        assert events[i] == Missing(h) && all[n] != Found(h);
        assert forall j | i < j < n :: events[j] == all[j];
      }
    }
  }

  lemma SoFarPrefix(events: seq<Happening>, e: Happening, i: nat, p: Peer, h: Hash)
    requires i < |events|
    ensures TellsAt(events + [e], i, p, h) <==> TellsAt(events, i, p, h)
    ensures StopsAt(events + [e], i, p, h) <==> StopsAt(events, i, p, h)
  {
    hide HappenAll, Tells, OpenAt, MissesSoFar;
    var all := events + [e];
    assert all[i] == events[i] && all[..i] == events[..i] && all[..i + 1] == events[..i + 1];
  }

  lemma OwnsSoFarNext(events: seq<Happening>, e: Happening, p: Peer, h: Hash)
    ensures OwnsSoFar(events + [e], p, h) <==>
              || (Tells(HappenAll(Ownership.Idle, events), e, p, h) && MissesSoFar(events, h))
              || (OwnsSoFar(events, p, h) && e != Missing(h) && e != Found(h)
                    && OpenAt(HappenAll(Ownership.Idle, events + [e]), p))
  {
    hide HappenAll, Tells, OpenAt, MissesSoFar;
    var all, n := events + [e], |events|;
    assert all[n] == e && all[..n] == events && all[..n + 1] == all;
    assert TellsAt(all, n, p, h) <==> Tells(HappenAll(Ownership.Idle, events), e, p, h) && MissesSoFar(events, h);
    assert StopsAt(all, n, p, h) <==>
             e == Missing(h) || e == Found(h) || !OpenAt(HappenAll(Ownership.Idle, all), p);
    hide TellsAt, StopsAt;
    forall i | 0 <= i < n
      ensures TellsAt(all, i, p, h) <==> TellsAt(events, i, p, h)
      ensures StopsAt(all, i, p, h) <==> StopsAt(events, i, p, h)
    {
      SoFarPrefix(events, e, i, p, h);
    }
    if i :| 0 <= i < n && TellsAt(events, i, p, h) && (forall j | i < j < n :: !StopsAt(events, j, p, h)) {
      assert TellsAt(all, i, p, h);
    }
    if i :| 0 <= i < |all| && TellsAt(all, i, p, h) && (forall j | i < j < |all| :: !StopsAt(all, j, p, h)) {
      if i < n {
        assert TellsAt(events, i, p, h) && !StopsAt(all, n, p, h);
        forall j | i < j < n ensures !StopsAt(events, j, p, h) {
          assert !StopsAt(all, j, p, h);
        }
      }
    }
  }

  lemma {:induction false} HappenNext(d: Downloader, events: seq<Happening>, e: Happening)
    ensures HappenAll(d, events + [e]) == Happen(HappenAll(d, events), e)
    decreases |events|
  {
    hide Happen;
    if events == [] {
      assert events + [e] == [e] && [e][1..] == [];
      assert HappenAll(d, [e]) == HappenAll(Happen(d, e), []);
    } else {
      assert (events + [e])[1..] == events[1..] + [e];
      HappenNext(Happen(d, events[0]), events[1..], e);
    }
  }

  // In every run a remote owns a missing chunk if and only if it told of it on an open and ready connection while
  // it was missing, and since then the connection stayed open and the chunk was neither found nor added again.
  lemma {:induction false} OwnersSoFar(events: seq<Happening>, p: Peer, h: Hash)
    ensures var d := HappenAll(Ownership.Idle, events);
            && (h in d.owners <==> MissesSoFar(events, h))
            && (IsOwner(d, p, h) <==> OwnsSoFar(events, p, h))
    decreases |events|
  {
    if events != [] {
      var init, e := events[..|events| - 1], events[|events| - 1];
      assert events == init + [e];
      OwnersSoFar(init, p, h);
      RunKeepsInv(Ownership.Idle, init);
      HappenNext(Ownership.Idle, init, e);
      HappenOwners(HappenAll(Ownership.Idle, init), e, p, h);
      hide HappenAll, Happen, MissesSoFar, OwnsSoFar, Tells, OpenAt, IsOwner, TrackInv;
      MissesSoFarNext(init, e, h);
      OwnsSoFarNext(init, e, p, h);
    }
  }

  // A new connection is there, with nothing exchanged yet.
  lemma MadeIsThere(d: Downloader, p: Peer, role: Side)
    requires p !in d.remotes
    ensures var d' := Happen(d, Made(p, role));
            && p in d'.remotes && d'.remotes[p].end.role == role && d'.remotes[p].end.phase.Idle?
            && !d'.remotes[p].end.sent && !d'.remotes[p].end.received && d'.remotes[p].sent == []
  {
  }

  // In every run of the downloader and its connections: exactly the open and ready remotes are tracked, only
  // they own missing chunks, the daemon is interested in a remote exactly while it owns one, and a remote
  // that is not open has no guard left, so none outlives it.
  lemma NoGuardOutlivesItsRemote(events: seq<Happening>, p: Peer)
    ensures var d := HappenAll(Ownership.Idle, events);
            p in d.remotes ==>
              var r := d.remotes[p];
              && (p in d.tracked <==> Open(r.end))
              && (r.end.amInterested <==> exists h :: OwnsSoFar(events, p, h))
              && (!Open(r.end) ==> !r.end.amInterested && forall g :: !r.Alive(g))
  {
    RunKeepsInv(Ownership.Idle, events);
    var d := HappenAll(Ownership.Idle, events);
    if p in d.remotes {
      InterestMeansOwner(d, p);
      forall h ensures IsOwner(d, p, h) <==> OwnsSoFar(events, p, h) {
        OwnersSoFar(events, p, h);
      }
      hide OwnsSoFar, HappenAll;
      if h :| h in d.owners && p in d.owners[h] {
        assert IsOwner(d, p, h);
      }
    }
  }
}
