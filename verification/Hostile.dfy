/**
  A peer link on which messages may be forged: besides the steps of the two ends, any message may enter
  either inbox at any time. What an end keeps does not rest on its peer's running this program.
 */
module Hostile {
  import opened PeerLink

  // `Forge` puts a message into the inbox of `side`.
  datatype Event = Do(step: Step) | Forge(side: Side, m: Message)

  function Suffer(env: Env, l: Link, e: Event): Link {
    match e
    case Do(step) => Next(env, l, step)
    case Forge(side, m) =>
      if side.Client? then l.(toClient := l.toClient + [m]) else l.(toServer := l.toServer + [m])
  }

  function SufferAll(env: Env, l: Link, events: seq<Event>): Link
    decreases |events|
  {
    if events == [] then l else SufferAll(env, Suffer(env, l, events[0]), events[1..])
  }

  // ---------------------------------------------------------------- signals and readiness

  lemma {:induction false} RunKeepsShapes(env: Env, l: Link, events: seq<Event>)
    requires Shapes(l)
    ensures Shapes(SufferAll(env, l, events))
    decreases |events|
  {
    if events != [] {
      if events[0].Do? {
        StepKeepsShapes(env, l, events[0].step);
      }
      RunKeepsShapes(env, Suffer(env, l, events[0]), events[1..]);
    }
  }

  lemma {:induction false} ReadyIsKeptForever(env: Env, l: Link, events: seq<Event>, side: Side)
    ensures l.At(side).Ready() ==> SufferAll(env, l, events).At(side).Ready()
    decreases |events|
  {
    if events != [] {
      if events[0].Do? {
        ReadyIsKept(env, l, events[0].step, side);
      }
      ReadyIsKeptForever(env, Suffer(env, l, events[0]), events[1..], side);
    }
  }

  // In every run, whatever tokens the two ends hold and whatever messages are forged: `handshakeSuccess`
  // fires at most once per end, exactly for the ends that became ready, and a ready end stays ready.
  lemma SuccessOnce(env: Env, events: seq<Event>, more: seq<Event>, side: Side)
    ensures var l := SufferAll(env, Start, events);
            && l.At(side).successes == (if l.At(side).Ready() then 1 else 0)
            && (l.At(side).Ready() ==>
                  SufferAll(env, l, more).At(side).Ready() && SufferAll(env, l, more).At(side).successes == 1)
  {
    RunKeepsShapes(env, Start, events);
    RunKeepsShapes(env, SufferAll(env, Start, events), more);
    ReadyIsKeptForever(env, SufferAll(env, Start, events), more, side);
  }

  // ---------------------------------------------------------------- tokens

  // Forged handshakes carry only tokens of `known`.
  predicate Within(known: set<Token>, events: seq<Event>) {
    forall e | e in events :: e.Forge? && e.m.Handshake? ==> e.m.token in known
  }

  // The token `side` expects is known to the forger, or it is the one its peer has sent.
  predicate Explained(env: Env, l: Link, known: set<Token>, side: Side) {
    env.Remote(side) in known || (env.Local(side.Peer()) == env.Remote(side) && l.At(side.Peer()).sent)
  }

  predicate TokenInv(env: Env, l: Link, known: set<Token>) {
    && l.client.role.Client? && l.server.role.Server?
    && (l.server.sent ==> l.server.received)
    && (Handshake(env.clientRemote) in l.toClient || l.client.received ==> Explained(env, l, known, Client))
    && (Handshake(env.serverRemote) in l.toServer || l.server.received ==> Explained(env, l, known, Server))
  }

  lemma ForgeKeepsTokens(env: Env, l: Link, known: set<Token>, side: Side, m: Message)
    requires TokenInv(env, l, known) && (m.Handshake? ==> m.token in known)
    ensures TokenInv(env, Suffer(env, l, Forge(side, m)), known)
  {
  }

  lemma DeliverKeepsTokens(env: Env, l: Link, known: set<Token>, side: Side)
    requires TokenInv(env, l, known) && l.At(side).phase.Attached? && l.Inbox(side) != []
    ensures TokenInv(env, Next(env, l, Deliver(side)), known)
  {
    var e, m := l.At(side), l.Inbox(side)[0];
    ReceiveShape(e, m, env.Local(side), env.Remote(side));
    var r := HandleMessage(e, m, env.Local(side), env.Remote(side));
    hide HandleMessage;
    assert m in l.Inbox(side) && forall x | x in l.Pop(side).Inbox(side) :: x in l.Inbox(side);
    assert Next(env, l, Deliver(side)) == l.Pop(side).Put(side, r);
    PutKeepsTokens(env, l, l.Pop(side), known, side, r);
  }

  // An end that becomes ready on its expected token, or writes what it did before or its own token.
  lemma PutKeepsTokens(env: Env, l: Link, p: Link, known: set<Token>, side: Side, r: Reaction)
    requires TokenInv(env, l, known) && p.client == l.client && p.server == l.server
    requires p.Inbox(side.Peer()) == l.Inbox(side.Peer()) && forall x | x in p.Inbox(side) :: x in l.Inbox(side)
    requires var e := l.At(side); r.end.role == e.role && (e.sent ==> r.end.sent) && (e.received ==> r.end.received)
    requires r.end.received ==> l.At(side).received || Handshake(env.Remote(side)) in l.Inbox(side)
    requires side.Server? && r.end.sent ==> r.end.received
    requires forall m | m in r.out && m.Handshake? :: m.token == env.Local(side) && r.end.sent
    ensures TokenInv(env, p.Put(side, r), known)
  {
    var l' := p.Put(side, r);
    assert l'.Inbox(side) == p.Inbox(side) && l'.At(side) == r.end && l'.At(side.Peer()) == l.At(side.Peer());
    forall m | m in l'.Inbox(side.Peer()) ensures m in l.Inbox(side.Peer()) || m in r.out {
    }
  }

  lemma StepKeepsTokens(env: Env, l: Link, known: set<Token>, step: Step)
    requires TokenInv(env, l, known)
    ensures TokenInv(env, Next(env, l, step), known)
  {
    hide TokenInv, HandleMessage;
    var e := l.At(step.side);
    match step
    case Connect(side, admitted) =>
      if e.phase.Idle? { ConnectKeepsTokens(env, l, known, side, admitted); }
    case Deliver(side) =>
      if e.phase.Attached? && l.Inbox(side) != [] { DeliverKeepsTokens(env, l, known, side); }
    case DoChoking(side, on) => PlainKeepsTokens(env, l, known, side, SetChoking(e, on));
    case DoInterested(side, on) => PlainKeepsTokens(env, l, known, side, SetInterested(e, on));
    case Broadcast(side, kind) =>
      PlainKeepsTokens(env, l, known, side, Post(e, kind));
      EarlyIsNoToken(env, l.Put(side, Post(e, kind)), known, l.early || (side.Server? && !e.Ready()));
    case Send(side, kind) => PlainKeepsTokens(env, l, known, side, Post(e, kind));
    case Close(side) => PlainKeepsTokens(env, l, known, side, Reaction(e.(phase := Closed), []));
  }

  lemma EarlyIsNoToken(env: Env, l: Link, known: set<Token>, early: bool)
    requires TokenInv(env, l, known)
    ensures TokenInv(env, l.(early := early), known)
  {
  }

  lemma ConnectKeepsTokens(env: Env, l: Link, known: set<Token>, side: Side, admitted: bool)
    requires TokenInv(env, l, known)
    ensures TokenInv(env, l.Put(side, HandleConnected(l.At(side), admitted, env.Local(side))), known)
  {
    PutKeepsTokens(env, l, l, known, side, HandleConnected(l.At(side), admitted, env.Local(side)));
  }

  lemma PlainKeepsTokens(env: Env, l: Link, known: set<Token>, side: Side, r: Reaction)
    requires TokenInv(env, l, known) && NoHandshake(r.out)
    requires var e := l.At(side); r.end.role == e.role && r.end.sent == e.sent && r.end.received == e.received
    ensures TokenInv(env, l.Put(side, r), known)
  {
    PutKeepsTokens(env, l, l, known, side, r);
  }

  lemma {:induction false} RunKeepsTokens(env: Env, l: Link, known: set<Token>, events: seq<Event>)
    requires TokenInv(env, l, known) && Within(known, events)
    ensures TokenInv(env, SufferAll(env, l, events), known)
    decreases |events|
  {
    hide TokenInv;
    if events != [] {
      assert events[0] in events && forall e | e in events[1..] :: e in events;
      match events[0] {
        case Do(step) => StepKeepsTokens(env, l, known, step);
        case Forge(side, m) => ForgeKeepsTokens(env, l, known, side, m);
      }
      RunKeepsTokens(env, Suffer(env, l, events[0]), known, events[1..]);
    }
  }

  // The server end can be made ready, and the client end can.
  predicate ServerOpen(env: Env, known: set<Token>) {
    env.serverRemote in known || env.clientLocal == env.serverRemote
  }

  predicate ClientOpen(env: Env, known: set<Token>) {
    env.clientRemote in known || (env.serverLocal == env.clientRemote && ServerOpen(env, known))
  }

  lemma OnlyOpenEnds(env: Env, known: set<Token>, events: seq<Event>)
    requires Within(known, events)
    ensures SufferAll(env, Start, events).server.Ready() ==> ServerOpen(env, known)
    ensures SufferAll(env, Start, events).client.Ready() ==> ClientOpen(env, known)
  {
    RunKeepsTokens(env, Start, known, events);
  }

  // The server's handshake, forged or sent by the client.
  function OpenServer(env: Env, known: set<Token>): seq<Event> {
    [Do(Connect(Server, true)),
     if env.serverRemote in known then Forge(Server, Handshake(env.serverRemote)) else Do(Connect(Client, true)),
     Do(Deliver(Server))]
  }

  lemma ServerOpens(env: Env, known: set<Token>)
    requires ServerOpen(env, known)
    ensures Within(known, OpenServer(env, known))
    ensures var l := SufferAll(env, Start, OpenServer(env, known));
            l.server.Ready() && l.toClient == [Handshake(env.serverLocal)] && !l.client.received
    ensures var e := SufferAll(env, Start, OpenServer(env, known)).client;
            if env.serverRemote in known then e == Fresh(Client) else e.phase.Attached? && e.sent && e.role.Client?
  {
    var s := OpenServer(env, known);
    var l1 := Suffer(env, Start, s[0]);
    var l2 := Suffer(env, l1, s[1]);
    var l3 := Suffer(env, l2, s[2]);
    SufferThree(env, Start, s);
    assert l2.toServer == [Handshake(env.serverRemote)] && l2.toClient == [];
    assert l3.toClient == [] + [Handshake(env.serverLocal)];
  }

  lemma SufferThree(env: Env, l: Link, s: seq<Event>)
    requires |s| == 3
    ensures SufferAll(env, l, s) == Suffer(env, Suffer(env, Suffer(env, l, s[0]), s[1]), s[2])
  {
    hide Suffer;
    assert s[1..][1..] == s[2..] && s[2..][1..] == [];
    var l1 := Suffer(env, l, s[0]);
    assert SufferAll(env, l, s) == SufferAll(env, l1, s[1..]);
    var l2 := Suffer(env, l1, s[1]);
    assert SufferAll(env, l1, s[1..]) == SufferAll(env, l2, s[2..]);
    assert SufferAll(env, l2, s[2..]) == SufferAll(env, Suffer(env, l2, s[2]), []);
  }

  lemma {:induction false} SufferAppend(env: Env, l: Link, a: seq<Event>, b: seq<Event>)
    ensures SufferAll(env, l, a + b) == SufferAll(env, SufferAll(env, l, a), b)
    decreases |a|
  {
    hide Suffer;
    if a == [] {
      assert a + b == b;
    } else {
      assert (a + b)[1..] == a[1..] + b;
      SufferAppend(env, Suffer(env, l, a[0]), a[1..], b);
    }
  }

  lemma ForgedClientOpens(env: Env)
    ensures var s := [Do(Connect(Client, true)), Forge(Client, Handshake(env.clientRemote)), Do(Deliver(Client))];
            SufferAll(env, Start, s).client.Ready()
  {
    var s := [Do(Connect(Client, true)), Forge(Client, Handshake(env.clientRemote)), Do(Deliver(Client))];
    SufferThree(env, Start, s);
    var l2 := Suffer(env, Suffer(env, Start, s[0]), s[1]);
    assert l2.toClient == [Handshake(env.clientRemote)];
  }

  // An end that is open can be made ready.
  lemma ClientOpens(env: Env, known: set<Token>) returns (events: seq<Event>)
    requires ClientOpen(env, known)
    ensures Within(known, events) && SufferAll(env, Start, events).client.Ready()
  {
    if env.clientRemote in known {
      ForgedClientOpens(env);
      events := [Do(Connect(Client, true)), Forge(Client, Handshake(env.clientRemote)), Do(Deliver(Client))];
    } else {
      ServerOpens(env, known);
      // Connecting an end again does nothing.
      var more := [Do(Connect(Client, true)), Do(Connect(Client, true)), Do(Deliver(Client))];
      events := OpenServer(env, known) + more;
      assert Within(known, events);
      var l := SufferAll(env, Start, OpenServer(env, known));
      hide SufferAll, OpenServer;
      SufferAppend(env, Start, OpenServer(env, known), more);
      SufferThree(env, l, more);
      assert Suffer(env, Suffer(env, l, more[0]), more[1]).toClient == [Handshake(env.serverLocal)];
    }
  }

  // Which ends can be made ready by someone who forges messages but knows only the tokens of `known`:
  // exactly those whose expected token is known, or is sent by a peer that can be made to send it.
  lemma ReadyIff(env: Env, known: set<Token>)
    ensures (exists events :: Within(known, events) && SufferAll(env, Start, events).server.Ready())
            <==> ServerOpen(env, known)
    ensures (exists events :: Within(known, events) && SufferAll(env, Start, events).client.Ready())
            <==> ClientOpen(env, known)
  {
    hide SufferAll, ServerOpen, ClientOpen, Within;
    forall events | Within(known, events)
      ensures SufferAll(env, Start, events).server.Ready() ==> ServerOpen(env, known)
      ensures SufferAll(env, Start, events).client.Ready() ==> ClientOpen(env, known)
    {
      OnlyOpenEnds(env, known, events);
    }
    if ServerOpen(env, known) {
      ServerOpens(env, known);
    }
    if ClientOpen(env, known) {
      var events := ClientOpens(env, known);
    }
  }

  // ---------------------------------------------------------------- nothing forged

  function Doing(steps: seq<Step>): (r: seq<Event>)
    ensures |r| == |steps| && forall e | e in r :: e.Do?
  {
    if steps == [] then [] else [Do(steps[0])] + Doing(steps[1..])
  }

  lemma {:induction false} DoingIsExec(env: Env, l: Link, steps: seq<Step>)
    ensures SufferAll(env, l, Doing(steps)) == Exec(env, l, steps)
    decreases |steps|
  {
    hide Next;
    if steps != [] {
      assert Doing(steps)[1..] == Doing(steps[1..]);
      DoingIsExec(env, Next(env, l, steps[0]), steps[1..]);
    }
  }

  predicate Meet(env: Env, steps: seq<Step>) {
    Exec(env, Start, steps).client.Ready() && Exec(env, Start, steps).server.Ready()
  }

  // Without forgery, both ends can become ready exactly if each expects what the other one sends, and no
  // end becomes ready on a token it does not expect.
  lemma BothReadyIffHonest(env: Env)
    ensures (exists steps :: Meet(env, steps)) <==> env.Honest()
    ensures forall steps :: Exec(env, Start, steps).server.Ready() ==> env.clientLocal == env.serverRemote
    ensures forall steps :: Exec(env, Start, steps).client.Ready() ==> env.Honest()
  {
    forall steps
      ensures Exec(env, Start, steps).server.Ready() ==> env.clientLocal == env.serverRemote
      ensures Exec(env, Start, steps).client.Ready() ==> env.Honest()
    {
      DoingIsExec(env, Start, steps);
      OnlyOpenEnds(env, {}, Doing(steps));
    }
    if env.Honest() {
      var steps := HonestEndsMeet(env);
      assert Meet(env, steps);
    }
  }
}
