/**
  One peer link: two `P2PFolder` ends joined by a pair of FIFO channels.

  The functions up to `Post` are the specification of the methods of the class in
  P2PFolder.dfy; `Next` composes two ends with their channels into a transition
  system, and the rest of the module is about all its runs.
 */
module PeerLink {

  type Token = nat

  datatype Side = Client | Server {
    function Peer(): Side {
      if Client? then Server else Client
    }
  }

  // A connection object before `connected`, while its socket is open, and after `close`.
  datatype Phase = Idle | Attached | Closed

  datatype Kind = HaveMeta | HaveChunk | MetaRequest | MetaReply | MetaCancel | BlockRequest | BlockReply | BlockCancel

  datatype Message =
    | Handshake(token: Token)
    | Choke
    | Unchoke
    | Interested
    | NotInterested
    | Ordinary(kind: Kind)

  // `failures` and `successes` count the `handshakeFailed` and `handshakeSuccess` signals;
  // `protocolError` records a close with CloseCodeProtocolError.
  datatype End = End(
    role: Side,
    phase: Phase,
    sent: bool,
    received: bool,
    amChoking: bool,
    amInterested: bool,
    peerChoking: bool,
    peerInterested: bool,
    failures: nat,
    successes: nat,
    protocolError: bool)
  {
    predicate Ready() {
      sent && received
    }
  }

  // What one call does: the new end and the messages handed to the socket.
  datatype Reaction = Reaction(end: End, out: seq<Message>)

  function Fresh(role: Side): End {
    End(role, Idle, false, false, true, false, true, false, 0, 0, false)
  }

  // ---------------------------------------------------------------- one end

  function SendHandshake(e: End, local: Token): Reaction {
    Reaction(e.(sent := true), [Handshake(local)])
  }

  function HandleConnected(e: End, admitted: bool, local: Token): Reaction {
    if !admitted then
      Reaction(e.(phase := Closed), [])
    else if e.role.Client? then
      SendHandshake(e.(phase := Attached), local)
    else
      Reaction(e.(phase := Attached), [])
  }

  function HandleHandshake(e: End, m: Message, local: Token, remote: Token): Reaction {
    if m.Handshake? && m.token == remote then
      var r := if e.role.Server? then SendHandshake(e, local) else Reaction(e, []);
      r.(end := r.end.(received := true, successes := r.end.successes + 1))
    else
      Reaction(e.(failures := e.failures + 1), [])
  }

  function HandleMessage(e: End, m: Message, local: Token, remote: Token): Reaction {
    if e.Ready() then
      Reaction(
        match m
        case Choke => e.(peerChoking := true)
        case Unchoke => e.(peerChoking := false)
        case Interested => e.(peerInterested := true)
        case NotInterested => e.(peerInterested := false)
        case Ordinary(_) => e
        case Handshake(_) => e.(phase := Closed, protocolError := true),
        [])
    else
      HandleHandshake(e, m, local, remote)
  }

  function SetChoking(e: End, on: bool): Reaction {
    if e.amChoking == on then Reaction(e, [])
    else Reaction(e.(amChoking := on), [if on then Choke else Unchoke])
  }

  function SetInterested(e: End, on: bool): Reaction {
    if e.amInterested == on then Reaction(e, [])
    else Reaction(e.(amInterested := on), [if on then Interested else NotInterested])
  }

  function Post(e: End, kind: Kind): Reaction {
    Reaction(e, [Ordinary(kind)])
  }

  // ---------------------------------------------------------------- two ends

  // The tokens of the two ends: what each one sends and what each one expects.
  datatype Env = Env(clientLocal: Token, serverRemote: Token, serverLocal: Token, clientRemote: Token) {
    function Local(side: Side): Token {
      if side.Client? then clientLocal else serverLocal
    }
    function Remote(side: Side): Token {
      if side.Client? then clientRemote else serverRemote
    }
    // Each end expects what the other one sends.
    predicate Honest() {
      clientLocal == serverRemote && serverLocal == clientRemote
    }
  }

  // The tokens of two nodes that hold the given secrets: each end derives its own token from its
  // own digest, and the expected one from the digest of the certificate the other end presents.
  function EnvOf<S, D>(derive: (S, D) -> Token, clientSecret: S, clientDigest: D, serverSecret: S,
                       serverDigest: D): Env {
    Env(derive(clientSecret, clientDigest), derive(serverSecret, clientDigest),
        derive(serverSecret, serverDigest), derive(clientSecret, serverDigest))
  }

  // `early` records that the server end has broadcast while it was not ready.
  datatype Link = Link(client: End, server: End, toServer: seq<Message>, toClient: seq<Message>, early: bool) {
    function At(side: Side): End {
      if side.Client? then client else server
    }
    // The channel that `side` reads from.
    function Inbox(side: Side): seq<Message> {
      if side.Client? then toClient else toServer
    }
    function Pop(side: Side): Link
      requires Inbox(side) != []
    {
      if side.Client? then this.(toClient := toClient[1..]) else this.(toServer := toServer[1..])
    }
    // The end becomes `r.end`; what it wrote enters its outgoing channel while its socket is open.
    function Put(side: Side, r: Reaction): Link {
      var out := if r.end.phase.Attached? then r.out else [];
      if side.Client? then this.(client := r.end, toServer := toServer + out)
      else this.(server := r.end, toClient := toClient + out)
    }
  }

  datatype Step =
    | Connect(side: Side, admitted: bool)
    | Deliver(side: Side)
    | DoChoking(side: Side, on: bool)
    | DoInterested(side: Side, on: bool)
    | Broadcast(side: Side, kind: Kind)
    | Send(side: Side, kind: Kind)
    | Close(side: Side)

  const Start: Link := Link(Fresh(Client), Fresh(Server), [], [], false)

  // One step; a step that is not enabled changes nothing. Choking and interest are changed only
  // for ends that completed the handshake, because the handlers that do so are connected there
  // (FolderGroup.cpp:124-146); the two broadcasts go to every attached remote.
  function Next(env: Env, l: Link, step: Step): Link {
    var e := l.At(step.side);
    match step
    case Connect(side, admitted) =>
      if e.phase.Idle? then l.Put(side, HandleConnected(e, admitted, env.Local(side))) else l
    case Deliver(side) =>
      if e.phase.Attached? && l.Inbox(side) != []
      then l.Pop(side).Put(side, HandleMessage(e, l.Inbox(side)[0], env.Local(side), env.Remote(side)))
      else l
    case DoChoking(side, on) =>
      if e.Ready() then l.Put(side, SetChoking(e, on)) else l
    case DoInterested(side, on) =>
      if e.Ready() then l.Put(side, SetInterested(e, on)) else l
    case Broadcast(side, kind) =>
      if e.phase.Attached?
      then l.Put(side, Post(e, kind)).(early := l.early || (side.Server? && !e.Ready()))
      else l
    case Send(side, kind) =>
      if e.Ready() then l.Put(side, Post(e, kind)) else l
    case Close(side) =>
      l.Put(side, Reaction(e.(phase := Closed), []))
  }

  // What the steps of an open end do besides delivering: the end, and what it puts on its way to the peer.
  lemma StepDoes(env: Env, l: Link, step: Step)
    requires l.At(step.side).phase.Attached?
    ensures var side, e := step.side, l.At(step.side);
            var e', sent := Next(env, l, step).At(side), Next(env, l, step).Inbox(side.Peer());
            var was := l.Inbox(side.Peer());
            match step
            case DoChoking(_, on) =>
              e.Ready() ==>
                e' == e.(amChoking := on) &&
                sent == was + if e.amChoking == on then [] else [if on then Choke else Unchoke]
            case DoInterested(_, on) =>
              e.Ready() ==>
                e' == e.(amInterested := on) &&
                sent == was + if e.amInterested == on then [] else [if on then Interested else NotInterested]
            case Send(_, kind) => e.Ready() ==> e' == e && sent == was + [Ordinary(kind)]
            case Broadcast(_, kind) => e' == e && sent == was + [Ordinary(kind)]
            case Close(_) => e' == e.(phase := Closed) && sent == was
            case Connect(_, _) => e' == e && sent == was
            case Deliver(_) => true
  {
    assert l.Inbox(step.side.Peer()) + [] == l.Inbox(step.side.Peer());
  }

  // Connecting opens an end that is admitted, and the client then sends its handshake.
  lemma ConnectDoes(env: Env, l: Link, side: Side, admitted: bool)
    requires l.At(side).phase.Idle? && l.At(side).role == side
    ensures var l', e := Next(env, l, Connect(side, admitted)), l.At(side);
            var greets := admitted && side.Client?;
            && l'.At(side) == e.(phase := if admitted then Attached else Closed, sent := e.sent || greets)
            && l'.Inbox(side.Peer()) == l.Inbox(side.Peer()) + (if greets then [Handshake(env.Local(side))] else [])
            && l'.Inbox(side) == l.Inbox(side) && l'.At(side.Peer()) == l.At(side.Peer())
  {
  }

  // A delivery takes the first message off the way, and the end handles it.
  lemma DeliverDoes(env: Env, l: Link, side: Side)
    requires l.At(side).phase.Attached? && l.Inbox(side) != []
    ensures var l' := Next(env, l, Deliver(side));
            var r := HandleMessage(l.At(side), l.Inbox(side)[0], env.Local(side), env.Remote(side));
            && l'.At(side) == r.end && l'.Inbox(side) == l.Inbox(side)[1..] && l'.At(side.Peer()) == l.At(side.Peer())
            && l'.Inbox(side.Peer()) == l.Inbox(side.Peer()) + if r.end.phase.Attached? then r.out else []
  {
    hide HandleMessage;
  }

  function Exec(env: Env, l: Link, steps: seq<Step>): Link
    decreases |steps|
  {
    if steps == [] then l else Exec(env, Next(env, l, steps[0]), steps[1..])
  }

  // No server end broadcasts before it is ready; nothing is asked of the client end.
  predicate Quiet(env: Env, l: Link, steps: seq<Step>)
    decreases |steps|
  {
    steps == [] ||
    (!(steps[0].Broadcast? && steps[0].side.Server? && !l.server.Ready()) &&
     Quiet(env, Next(env, l, steps[0]), steps[1..]))
  }

  // ---------------------------------------------------------------- what is in flight

  predicate NoHandshake(ch: seq<Message>) {
    forall m | m in ch :: !m.Handshake?
  }

  predicate AllOrdinary(ch: seq<Message>) {
    forall m | m in ch :: m.Ordinary?
  }

  // Ordinary messages, then exactly one handshake carrying `token`, then no other handshake.
  predicate HandshakePending(ch: seq<Message>, token: Token) {
    ch != [] &&
    if ch[0].Handshake? then ch[0].token == token && NoHandshake(ch[1..])
    else ch[0].Ordinary? && HandshakePending(ch[1..], token)
  }

  function ChokeAfter(m: Message, flag: bool): bool {
    match m
    case Choke => true
    case Unchoke => false
    case _ => flag
  }

  function InterestAfter(m: Message, flag: bool): bool {
    match m
    case Interested => true
    case NotInterested => false
    case _ => flag
  }

  // The value the receiver's flag will have once everything in flight is delivered.
  function ReplayChoke(ch: seq<Message>, flag: bool): bool {
    if ch == [] then flag else ReplayChoke(ch[1..], ChokeAfter(ch[0], flag))
  }

  function ReplayInterest(ch: seq<Message>, flag: bool): bool {
    if ch == [] then flag else ReplayInterest(ch[1..], InterestAfter(ch[0], flag))
  }

  lemma {:induction false} ReplayAppend(ch: seq<Message>, m: Message, choke: bool, interest: bool)
    ensures ReplayChoke(ch + [m], choke) == ChokeAfter(m, ReplayChoke(ch, choke))
    ensures ReplayInterest(ch + [m], interest) == InterestAfter(m, ReplayInterest(ch, interest))
  {
    if ch == [] {
      assert ch + [m] == [m];
    } else {
      assert (ch + [m])[1..] == ch[1..] + [m];
      ReplayAppend(ch[1..], m, ChokeAfter(ch[0], choke), InterestAfter(ch[0], interest));
    }
  }

  lemma {:induction false} PendingAppend(ch: seq<Message>, m: Message, token: Token)
    ensures HandshakePending(ch, token) && !m.Handshake? ==> HandshakePending(ch + [m], token)
    ensures AllOrdinary(ch) && m == Handshake(token) ==> HandshakePending(ch + [m], token)
  {
    if ch == [] {
      assert ch + [m] == [m];
    } else {
      assert (ch + [m])[1..] == ch[1..] + [m];
      assert forall x :: x in ch[1..] ==> x in ch;
      assert ch[0] in ch;
      PendingAppend(ch[1..], m, token);
    }
  }

  // ---------------------------------------------------------------- the invariant

  // Replaying what is in flight from `side` onto the other end's `peer_*` flags gives the
  // `am_*` flags of `side`.
  predicate Synced(l: Link, side: Side) {
    var e, p, ch := l.At(side), l.At(side.Peer()), l.Inbox(side.Peer());
    && ReplayChoke(ch, p.peerChoking) == e.amChoking
    && ReplayInterest(ch, p.peerInterested) == e.amInterested
  }

  predicate EndInv(e: End, role: Side) {
    && e.role == role
    && (e.phase.Idle? ==> e == Fresh(role))
    && e.successes == (if e.received then 1 else 0)
    && !e.protocolError
  }

  predicate ToServerInv(env: Env, l: Link) {
    if l.server.received then l.client.sent && NoHandshake(l.toServer)
    else if l.client.sent then
      l.toServer != [] && l.toServer[0] == Handshake(env.clientLocal) && NoHandshake(l.toServer[1..])
    else l.toServer == []
  }

  predicate ToClientInv(env: Env, l: Link) {
    if l.client.received then l.server.sent && NoHandshake(l.toClient)
    else if l.server.sent then HandshakePending(l.toClient, env.serverLocal)
    else AllOrdinary(l.toClient)
  }

  // While no server broadcast was early, the client has nothing but a handshake to read first.
  predicate QuietInv(l: Link) {
    && l.client.failures == 0
    && (!l.client.received ==> if l.server.sent then l.toClient != [] && l.toClient[0].Handshake? else l.toClient == [])
  }

  predicate Inv(env: Env, l: Link) {
    && EndInv(l.client, Client)
    && EndInv(l.server, Server)
    && (l.client.phase.Attached? || l.client.received ==> l.client.sent)
    && (l.client.sent ==> !l.client.phase.Idle?)
    && l.server.sent == l.server.received
    && l.server.failures == 0
    && ToServerInv(env, l)
    && ToClientInv(env, l)
    && (!l.client.phase.Closed? ==> Synced(l, Client))
    && (!l.server.phase.Closed? ==> Synced(l, Server))
    && (!l.early ==> QuietInv(l))
  }

  // ---------------------------------------------------------------- every step keeps it

  lemma ConnectKeepsInv(env: Env, l: Link, side: Side, admitted: bool)
    requires env.Honest() && Inv(env, l)
    ensures Inv(env, Next(env, l, Connect(side, admitted)))
  {
    var l' := Next(env, l, Connect(side, admitted));
    if l.At(side).phase.Idle? {
      if side.Client? && admitted {
        assert l'.toServer == [Handshake(env.clientLocal)];
      } else {
        assert l'.toServer == l.toServer && l'.toClient == l.toClient;
      }
    }
  }

  // A ready end does to its `peer_*` flags what a replay does, and nothing else.
  lemma ReadyReceive(e: End, m: Message, local: Token, remote: Token)
    requires e.Ready() && !m.Handshake?
    ensures HandleMessage(e, m, local, remote) ==
            Reaction(e.(peerChoking := ChokeAfter(m, e.peerChoking),
                        peerInterested := InterestAfter(m, e.peerInterested)),
                     [])
  {
  }

  lemma DeliverToReadyClient(env: Env, l: Link)
    requires env.Honest() && Inv(env, l)
    requires l.client.phase.Attached? && l.client.Ready() && l.toClient != []
    ensures Inv(env, Next(env, l, Deliver(Client)))
  {
    var m, e := l.toClient[0], l.client;
    assert m in l.toClient;
    ReadyReceive(e, m, env.clientLocal, env.clientRemote);
    var e' := e.(peerChoking := ChokeAfter(m, e.peerChoking), peerInterested := InterestAfter(m, e.peerInterested));
    assert l.toServer + [] == l.toServer;
    assert Next(env, l, Deliver(Client)) == l.(client := e', toClient := l.toClient[1..]);
  }

  lemma DeliverToReadyServer(env: Env, l: Link)
    requires env.Honest() && Inv(env, l)
    requires l.server.phase.Attached? && l.server.Ready() && l.toServer != []
    ensures Inv(env, Next(env, l, Deliver(Server)))
  {
    var m, e := l.toServer[0], l.server;
    assert m in l.toServer;
    ReadyReceive(e, m, env.serverLocal, env.serverRemote);
    var e' := e.(peerChoking := ChokeAfter(m, e.peerChoking), peerInterested := InterestAfter(m, e.peerInterested));
    assert l.toClient + [] == l.toClient;
    assert Next(env, l, Deliver(Server)) == l.(server := e', toServer := l.toServer[1..]);
  }

  lemma DeliverToNewClient(env: Env, l: Link)
    requires env.Honest() && Inv(env, l)
    requires l.client.phase.Attached? && !l.client.Ready() && l.toClient != []
    ensures Inv(env, Next(env, l, Deliver(Client)))
  {
    var l' := Next(env, l, Deliver(Client));
    assert l.toClient[0] in l.toClient;
    assert l'.toClient == l.toClient[1..] && l'.toServer == l.toServer;
  }

  lemma DeliverToNewServer(env: Env, l: Link)
    requires env.Honest() && Inv(env, l)
    requires l.server.phase.Attached? && !l.server.Ready() && l.toServer != []
    ensures Inv(env, Next(env, l, Deliver(Server)))
  {
    var l' := Next(env, l, Deliver(Server));
    var m := Handshake(env.serverLocal);
    PendingAppend(l.toClient, m, env.serverLocal);
    ReplayAppend(l.toClient, m, l.client.peerChoking, l.client.peerInterested);
    assert l'.toClient == l.toClient + [m] && l'.toServer == l.toServer[1..];
  }

  lemma DeliverKeepsInv(env: Env, l: Link, side: Side)
    requires env.Honest() && Inv(env, l)
    ensures Inv(env, Next(env, l, Deliver(side)))
  {
    if l.At(side).phase.Attached? && l.Inbox(side) != [] {
      match (side, l.At(side).Ready())
      case (Client, true) => DeliverToReadyClient(env, l);
      case (Server, true) => DeliverToReadyServer(env, l);
      case (Client, false) => DeliverToNewClient(env, l);
      case (Server, false) => DeliverToNewServer(env, l);
    }
  }

  // Appending anything but a handshake to a channel keeps its shape.
  lemma AppendKeepsShape(env: Env, l: Link, side: Side, m: Message)
    requires Inv(env, l) && l.At(side).phase.Attached? && !m.Handshake?
    requires m.Ordinary? || l.At(side).Ready()
    ensures side.Client? ==> ToServerInv(env, l.(toServer := l.toServer + [m]))
    ensures side.Server? ==> ToClientInv(env, l.(toClient := l.toClient + [m]))
  {
    if side.Client? && !l.server.received {
      assert (l.toServer + [m])[1..] == l.toServer[1..] + [m];
    }
    PendingAppend(l.toClient, m, env.serverLocal);
  }

  // The end writes at most one message and moves its `am_*` flags accordingly.
  predicate IsSender(e: End, r: Reaction) {
    if r.out == [] then r.end == e
    else
      && |r.out| == 1 && !r.out[0].Handshake?
      && r.end == e.(amChoking := ChokeAfter(r.out[0], e.amChoking),
                     amInterested := InterestAfter(r.out[0], e.amInterested))
  }

  lemma ClientPutKeepsInv(env: Env, l: Link, r: Reaction)
    requires env.Honest() && Inv(env, l) && l.client.phase.Attached?
    requires IsSender(l.client, r) && r.out != [] && (r.out[0].Ordinary? || l.client.Ready())
    ensures Inv(env, l.Put(Client, r))
  {
    AppendKeepsShape(env, l, Client, r.out[0]);
    ReplayAppend(l.toServer, r.out[0], l.server.peerChoking, l.server.peerInterested);
    assert l.Put(Client, r).toServer == l.toServer + [r.out[0]];
  }

  lemma ServerPutKeepsInv(env: Env, l: Link, r: Reaction)
    requires env.Honest() && Inv(env, l) && l.server.phase.Attached?
    requires IsSender(l.server, r) && r.out != [] && (r.out[0].Ordinary? || l.server.Ready())
    ensures Inv(env, l.Put(Server, r).(early := l.early || !l.server.Ready()))
  {
    AppendKeepsShape(env, l, Server, r.out[0]);
    ReplayAppend(l.toClient, r.out[0], l.client.peerChoking, l.client.peerInterested);
    assert l.Put(Server, r).toClient == l.toClient + [r.out[0]];
  }

  lemma SenderKeepsInv(env: Env, l: Link, side: Side, r: Reaction)
    requires env.Honest() && Inv(env, l) && l.At(side).Ready() && IsSender(l.At(side), r)
    ensures Inv(env, l.Put(side, r))
  {
    if l.At(side).phase.Attached? && r.out != [] {
      match side
      case Client => ClientPutKeepsInv(env, l, r);
      case Server => ServerPutKeepsInv(env, l, r);
    } else {
      assert l.Put(side, r).toServer == l.toServer && l.Put(side, r).toClient == l.toClient;
    }
  }

  lemma BroadcastShape(env: Env, l: Link, side: Side, kind: Kind)
    ensures var l' := Next(env, l, Broadcast(side, kind));
            if !l.At(side).phase.Attached? then l' == l
            else if side.Client? then l' == l.Put(Client, Post(l.client, kind))
            else l' == l.Put(Server, Post(l.server, kind)).(early := l.early || !l.server.Ready())
  {
  }

  lemma BroadcastKeepsInv(env: Env, l: Link, side: Side, kind: Kind)
    requires env.Honest() && Inv(env, l)
    ensures Inv(env, Next(env, l, Broadcast(side, kind)))
  {
    BroadcastShape(env, l, side, kind);
    hide Inv, Next;
    if l.At(side).phase.Attached? {
      match side
      case Client => ClientPutKeepsInv(env, l, Post(l.client, kind));
      case Server => ServerPutKeepsInv(env, l, Post(l.server, kind));
    }
  }

  lemma CloseKeepsInv(env: Env, l: Link, side: Side)
    requires env.Honest() && Inv(env, l)
    ensures Inv(env, Next(env, l, Close(side)))
  {
    var l' := Next(env, l, Close(side));
    assert l'.toServer == l.toServer && l'.toClient == l.toClient;
  }

  lemma StepKeepsInv(env: Env, l: Link, step: Step)
    requires env.Honest() && Inv(env, l)
    ensures Inv(env, Next(env, l, step))
  {
    match step
    case Connect(side, admitted) => ConnectKeepsInv(env, l, side, admitted);
    case Deliver(side) => DeliverKeepsInv(env, l, side);
    case Close(side) => CloseKeepsInv(env, l, side);
    case DoChoking(side, on) => if l.At(side).Ready() { SenderKeepsInv(env, l, side, SetChoking(l.At(side), on)); }
    case DoInterested(side, on) =>
      if l.At(side).Ready() { SenderKeepsInv(env, l, side, SetInterested(l.At(side), on)); }
    case Send(side, kind) => if l.At(side).Ready() { SenderKeepsInv(env, l, side, Post(l.At(side), kind)); }
    case Broadcast(side, kind) => BroadcastKeepsInv(env, l, side, kind);
  }

  lemma {:induction false} RunKeepsInv(env: Env, l: Link, steps: seq<Step>)
    requires env.Honest() && Inv(env, l)
    ensures Inv(env, Exec(env, l, steps))
    decreases |steps|
  {
    if steps != [] {
      StepKeepsInv(env, l, steps[0]);
      RunKeepsInv(env, Next(env, l, steps[0]), steps[1..]);
    }
  }

  // ---------------------------------------------------------------- all runs of two honest ends

  // In every run each end's `am_*` flags are its peer's `peer_*` flags after everything in flight,
  // so the four pairs agree whenever both channels are drained.
  lemma FlagsAgree(env: Env, steps: seq<Step>)
    requires env.Honest()
    ensures var l := Exec(env, Start, steps);
            forall side: Side | !l.At(side).phase.Closed? ::
              && Synced(l, side)
              && (l.Inbox(side.Peer()) == [] ==>
                    && l.At(side.Peer()).peerChoking == l.At(side).amChoking
                    && l.At(side.Peer()).peerInterested == l.At(side).amInterested)
  {
    RunKeepsInv(env, Start, steps);
  }

  lemma {:induction false} QuietRunStaysQuiet(env: Env, l: Link, steps: seq<Step>)
    requires !l.early && Quiet(env, l, steps)
    ensures !Exec(env, l, steps).early
    decreases |steps|
  {
    if steps != [] {
      QuietRunStaysQuiet(env, Next(env, l, steps[0]), steps[1..]);
    }
  }

  // Between honest ends the protocol-error close is never reached, and a message other than a
  // handshake that reaches the head of a channel finds its receiver ready: always at the server,
  // and at the client if no server broadcast was early.
  lemma NoOrdinaryHandshake(env: Env, steps: seq<Step>)
    requires env.Honest()
    ensures var l := Exec(env, Start, steps);
            && !l.client.protocolError && !l.server.protocolError
            && l.server.failures == 0
            && (l.toServer != [] && !l.toServer[0].Handshake? ==> l.server.Ready())
            && (Quiet(env, Start, steps) ==>
                  && l.client.failures == 0
                  && (l.toClient != [] && !l.toClient[0].Handshake? ==> l.client.Ready()))
  {
    RunKeepsInv(env, Start, steps);
    if Quiet(env, Start, steps) {
      QuietRunStaysQuiet(env, Start, steps);
    }
  }

  // Whether the client's handshake can still fail without a further early broadcast.
  ghost predicate CanFail(env: Env, l: Link) {
    exists more :: Quiet(env, l, more) && Exec(env, l, more).client.failures > 0
  }

  // The broadcasts of FolderGroup go to every attached remote, ready or not. Of all of them exactly
  // those of a server end that is open and not ready, to a client end that is not closed, can make the
  // client's handshake fail.
  lemma BroadcastSafeIff(env: Env, steps: seq<Step>, kind: Kind)
    requires env.Honest() && Quiet(env, Start, steps)
    ensures var l := Exec(env, Start, steps);
            CanFail(env, Next(env, l, Broadcast(Server, kind))) <==>
              l.server.phase.Attached? && !l.server.Ready() && !l.client.phase.Closed?
    ensures !CanFail(env, Next(env, Exec(env, Start, steps), Broadcast(Client, kind)))
  {
    var l := Exec(env, Start, steps);
    RunKeepsInv(env, Start, steps);
    QuietRunStaysQuiet(env, Start, steps);
    hide Exec, Quiet, Inv, CanFail;
    BroadcastIsSafe(env, l, Client, kind);
    if l.server.phase.Attached? && !l.server.Ready() && !l.client.phase.Closed? {
      EarlyBroadcastFails(env, l, kind);
    } else {
      BroadcastIsSafe(env, l, Server, kind);
    }
  }

  lemma BroadcastIsSafe(env: Env, l: Link, side: Side, kind: Kind)
    requires env.Honest() && Inv(env, l) && !l.early
    requires side.Server? ==> !l.server.phase.Attached? || l.server.Ready() || l.client.phase.Closed?
    ensures !CanFail(env, Next(env, l, Broadcast(side, kind)))
  {
    var l' := Next(env, l, Broadcast(side, kind));
    StepKeepsInv(env, l, Broadcast(side, kind));
    forall more | Quiet(env, l', more) ensures Exec(env, l', more).client.failures == 0 {
      if l'.early {
        ClosedClientStays(env, l', more);
      } else {
        RunKeepsInv(env, l', more);
        QuietRunStaysQuiet(env, l', more);
      }
    }
  }

  lemma {:induction false} ClosedClientStays(env: Env, l: Link, steps: seq<Step>)
    requires l.client.phase.Closed?
    ensures Exec(env, l, steps).client.failures == l.client.failures
    decreases |steps|
  {
    if steps != [] {
      ClosedClientStep(env, l, steps[0]);
      hide Next;
      ClosedClientStays(env, Next(env, l, steps[0]), steps[1..]);
    }
  }

  lemma ClosedClientStep(env: Env, l: Link, step: Step)
    requires l.client.phase.Closed?
    ensures var e := Next(env, l, step).client;
            e.phase.Closed? && e.failures == l.client.failures
  {
    hide HandleMessage;
    match step
    case Connect(_, _) =>
    case Deliver(_) =>
    case DoChoking(_, _) =>
    case DoInterested(_, _) =>
    case Broadcast(side, kind) => BroadcastShape(env, l, side, kind);
    case Send(_, _) =>
    case Close(_) =>
  }

  lemma EarlyBroadcastFails(env: Env, l: Link, kind: Kind)
    requires env.Honest() && Inv(env, l) && !l.early
    requires l.server.phase.Attached? && !l.server.Ready() && !l.client.phase.Closed?
    ensures CanFail(env, Next(env, l, Broadcast(Server, kind)))
  {
    var l' := Next(env, l, Broadcast(Server, kind));
    assert l'.toClient == [Ordinary(kind)];
    var s := [Connect(Client, true), Deliver(Client)];
    var l1 := Next(env, l', s[0]);
    assert l1.client.phase.Attached? && !l1.client.received && l1.toClient == [Ordinary(kind)];
    var l2 := Next(env, l1, s[1]);
    assert s[1..][1..] == [];
    assert Exec(env, l', s) == Exec(env, l1, s[1..]) == Exec(env, l2, []) == l2;
    assert Quiet(env, l', s) by { assert Quiet(env, l1, s[1..]); }
    assert l2.client.failures > 0;
  }

  // The shortest such run: the server's folder gains a chunk between its accepting the connection
  // and the arrival of the client's handshake.
  lemma EarlyBroadcastRun(env: Env)
    requires env.Honest()
    ensures var s := [Connect(Client, true), Connect(Server, true), Broadcast(Server, HaveChunk), Deliver(Client)];
            Exec(env, Start, s).client.failures == 1
  {
  }

  // ---------------------------------------------------------------- completing the handshake

  function HandshakesLeft(l: Link): nat {
    (if l.client.received then 0 else 1) + (if l.server.received then 0 else 1)
  }

  // Whether the step hands a handshake message to an open end.
  predicate DeliversHandshake(l: Link, step: Step) {
    step.Deliver? && l.At(step.side).phase.Attached? && l.Inbox(step.side) != [] && l.Inbox(step.side)[0].Handshake?
  }

  function HandshakeDeliveries(env: Env, l: Link, steps: seq<Step>): nat
    decreases |steps|
  {
    if steps == [] then 0
    else
      var rest := HandshakeDeliveries(env, Next(env, l, steps[0]), steps[1..]);
      if DeliversHandshake(l, steps[0]) then 1 + rest else rest
  }

  lemma DeliverCountsHandshakes(env: Env, l: Link, side: Side)
    requires env.Honest() && Inv(env, l)
    ensures HandshakesLeft(l) == HandshakesLeft(Next(env, l, Deliver(side)))
              + (if DeliversHandshake(l, Deliver(side)) then 1 else 0)
  {
    match side
    case Client => assert l.toClient != [] ==> l.toClient[0] in l.toClient;
    case Server => assert l.toServer != [] ==> l.toServer[0] in l.toServer;
  }

  lemma StepCountsHandshakes(env: Env, l: Link, step: Step)
    requires env.Honest() && Inv(env, l)
    ensures HandshakesLeft(l) == HandshakesLeft(Next(env, l, step)) + (if DeliversHandshake(l, step) then 1 else 0)
  {
    if step.Deliver? {
      DeliverCountsHandshakes(env, l, step.side);
    } else {
      assert !DeliversHandshake(l, step);
      SameReceived(env, l, step);
    }
  }

  // Only a delivery receives a handshake.
  lemma SameReceived(env: Env, l: Link, step: Step)
    requires !step.Deliver?
    ensures var l' := Next(env, l, step);
            l'.client.received == l.client.received && l'.server.received == l.server.received
  {
    hide HandleMessage;
    match step
    case Connect(_, _) =>
    case DoChoking(_, _) =>
    case DoInterested(_, _) =>
    case Broadcast(side, kind) => BroadcastShape(env, l, side, kind);
    case Send(_, _) =>
    case Close(_) =>
  }

  lemma {:induction false} RunCountsHandshakes(env: Env, l: Link, steps: seq<Step>)
    requires env.Honest() && Inv(env, l)
    ensures HandshakesLeft(l) == HandshakesLeft(Exec(env, l, steps)) + HandshakeDeliveries(env, l, steps)
    decreases |steps|
  {
    if steps != [] {
      StepKeepsInv(env, l, steps[0]);
      StepCountsHandshakes(env, l, steps[0]);
      RunCountsHandshakes(env, Next(env, l, steps[0]), steps[1..]);
    }
  }

  lemma ReadyIsKept(env: Env, l: Link, step: Step, side: Side)
    ensures l.At(side).Ready() ==> Next(env, l, step).At(side).Ready()
  {
    match step
    case Deliver(s) =>
      if l.Inbox(s) != [] {
        var e, m := l.At(s), l.Inbox(s)[0];
        assert e.Ready() ==> HandleMessage(e, m, env.Local(s), env.Remote(s)).end.Ready();
      }
    case _ =>
  }

  lemma {:induction false} ReadyIsKeptForever(env: Env, l: Link, steps: seq<Step>, side: Side)
    ensures l.At(side).Ready() ==> Exec(env, l, steps).At(side).Ready()
    decreases |steps|
  {
    if steps != [] {
      ReadyIsKept(env, l, steps[0], side);
      ReadyIsKeptForever(env, Next(env, l, steps[0]), steps[1..], side);
    }
  }

  // In every run `handshakeSuccess` fires at most once per end, exactly for the ends that are ready
  // from then on, and both ends are ready exactly after two handshake deliveries.
  lemma HandshakeCompletes(env: Env, steps: seq<Step>, more: seq<Step>)
    requires env.Honest()
    ensures var l := Exec(env, Start, steps);
            && l.client.successes == (if l.client.Ready() then 1 else 0)
            && l.server.successes == (if l.server.Ready() then 1 else 0)
            && (l.client.Ready() ==> l.server.Ready() && Exec(env, l, more).client.Ready())
            && (l.server.Ready() ==> Exec(env, l, more).server.Ready())
            && HandshakeDeliveries(env, Start, steps) == l.client.successes + l.server.successes
            && (l.client.Ready() && l.server.Ready() <==> HandshakeDeliveries(env, Start, steps) == 2)
  {
    RunKeepsInv(env, Start, steps);
    RunCountsHandshakes(env, Start, steps);
    ReadyIsKeptForever(env, Exec(env, Start, steps), more, Client);
    ReadyIsKeptForever(env, Exec(env, Start, steps), more, Server);
  }

  lemma ServerCompletes(env: Env, l: Link)
    requires env.Honest() && Inv(env, l) && !l.early
    requires l.client.phase.Attached? && l.server.phase.Attached?
    ensures var l' := Next(env, l, Deliver(Server));
            Inv(env, l') && !l'.early && l'.server.Ready() && l'.client.phase.Attached? && l'.server.phase.Attached?
  {
    DeliverKeepsInv(env, l, Server);
    assert l.toServer != [] ==> l.toServer[0] in l.toServer;
  }

  lemma ClientCompletes(env: Env, l: Link)
    requires env.Honest() && Inv(env, l) && !l.early
    requires l.client.phase.Attached? && l.server.phase.Attached? && l.server.Ready()
    ensures var l' := Next(env, l, Deliver(Client));
            l'.client.Ready() && l'.server.Ready() && l'.client.phase.Attached? && l'.server.phase.Attached?
  {
  }

  // From every state of a quiet run in which both ends are attached, one delivery to each makes both ready.
  lemma HandshakeProgress(env: Env, steps: seq<Step>)
    requires env.Honest() && Quiet(env, Start, steps)
    requires Exec(env, Start, steps).client.phase.Attached? && Exec(env, Start, steps).server.phase.Attached?
    ensures var l := Exec(env, Exec(env, Start, steps), [Deliver(Server), Deliver(Client)]);
            l.client.Ready() && l.server.Ready() && l.client.phase.Attached? && l.server.phase.Attached?
  {
    var l := Exec(env, Start, steps);
    RunKeepsInv(env, Start, steps);
    QuietRunStaysQuiet(env, Start, steps);
    var l1 := Next(env, l, Deliver(Server));
    ServerCompletes(env, l);
    var l2 := Next(env, l1, Deliver(Client));
    ClientCompletes(env, l1);
    assert [Deliver(Server), Deliver(Client)][1..] == [Deliver(Client)] && [Deliver(Client)][1..] == [];
    assert Exec(env, l, [Deliver(Server), Deliver(Client)]) == Exec(env, l1, [Deliver(Client)]) == Exec(env, l2, []);
  }

  // ---------------------------------------------------------------- any tokens, any messages

  // What an end keeps whoever its peer is: `handshakeSuccess` has fired once if the peer's handshake was
  // accepted and never otherwise, and an accepted handshake means a ready end.
  predicate Shape(e: End, role: Side) {
    && e.role == role
    && (e.phase.Idle? ==> e == Fresh(role))
    && (e.received ==> e.sent)
    && (role.Client? && e.phase.Attached? ==> e.sent)
    && e.successes == (if e.received then 1 else 0)
  }

  predicate Shapes(l: Link) {
    Shape(l.client, Client) && Shape(l.server, Server)
  }

  lemma ReceiveKeepsShape(e: End, m: Message, local: Token, remote: Token)
    requires Shape(e, e.role) && e.phase.Attached?
    ensures Shape(HandleMessage(e, m, local, remote).end, e.role)
  {
    if e.Ready() {
      ReadyShape(e, m, local, remote);
    } else {
      NewShape(e, m, local, remote);
    }
    hide HandleMessage;
  }

  lemma StepKeepsShapes(env: Env, l: Link, step: Step)
    requires Shapes(l)
    ensures Shapes(Next(env, l, step))
  {
    if step.Deliver? && l.Inbox(step.side) != [] && l.At(step.side).phase.Attached? {
      ReceiveKeepsShape(l.At(step.side), l.Inbox(step.side)[0], env.Local(step.side), env.Remote(step.side));
    }
  }

  // A ready end answers nothing; another one answers a handshake that carries the expected token.
  lemma ReceiveShape(e: End, m: Message, local: Token, remote: Token)
    ensures var r := HandleMessage(e, m, local, remote);
            if e.Ready() then r.out == [] && r.end.role == e.role && r.end.sent && r.end.received
            else if m != Handshake(remote) then r == Reaction(e.(failures := e.failures + 1), [])
            else if e.role.Client? then r == Reaction(e.(received := true, successes := e.successes + 1), [])
            else r == Reaction(e.(sent := true, received := true, successes := e.successes + 1), [Handshake(local)])
  {
    if e.Ready() {
      ReadyShape(e, m, local, remote);
    } else {
      NewShape(e, m, local, remote);
    }
  }

  lemma ReadyShape(e: End, m: Message, local: Token, remote: Token)
    requires e.Ready()
    ensures var r := HandleMessage(e, m, local, remote);
            && r.out == []
            && r.end == e.(
                 peerChoking := m.Choke? || (e.peerChoking && !m.Unchoke?),
                 peerInterested := m.Interested? || (e.peerInterested && !m.NotInterested?),
                 phase := if m.Handshake? then Closed else e.phase,
                 protocolError := e.protocolError || m.Handshake?)
  {
    match m
    case Choke =>
    case Unchoke =>
    case Interested =>
    case NotInterested =>
    case Ordinary(_) =>
    case Handshake(_) =>
  }

  lemma NewShape(e: End, m: Message, local: Token, remote: Token)
    requires !e.Ready()
    ensures var r := HandleMessage(e, m, local, remote);
            if m != Handshake(remote) then r == Reaction(e.(failures := e.failures + 1), [])
            else if e.role.Client? then r == Reaction(e.(received := true, successes := e.successes + 1), [])
            else r == Reaction(e.(sent := true, received := true, successes := e.successes + 1), [Handshake(local)])
  {
  }

  lemma HonestEndsMeet(env: Env) returns (steps: seq<Step>)
    requires env.Honest()
    ensures Exec(env, Start, steps).client.Ready() && Exec(env, Start, steps).server.Ready()
  {
    var s := [Connect(Client, true), Connect(Server, true)];
    var l1 := Next(env, Start, s[0]);
    var l2 := Next(env, l1, s[1]);
    assert s[1..][1..] == [];
    assert Exec(env, Start, s) == Exec(env, l1, s[1..]) == Exec(env, l2, []) == l2;
    assert Quiet(env, Start, s) by { assert Quiet(env, l1, s[1..]); }
    HandshakeProgress(env, s);
    steps := s + [Deliver(Server), Deliver(Client)];
    ExecAppend(env, Start, s, [Deliver(Server), Deliver(Client)]);
  }

  lemma {:induction false} ExecAppend(env: Env, l: Link, a: seq<Step>, b: seq<Step>)
    ensures Exec(env, l, a + b) == Exec(env, Exec(env, l, a), b)
    decreases |a|
  {
    if a == [] {
      assert a + b == b;
    } else {
      assert (a + b)[1..] == a[1..] + b;
      ExecAppend(env, Next(env, l, a[0]), a[1..], b);
    }
  }

  // With a token derivation that separates secrets, the two ends are honest exactly if they hold the same secret.
  lemma HonestIffSameSecret<S(!new), D(!new)>(derive: (S, D) -> Token, cs: S, cd: D, ss: S, sd: D)
    requires forall s, s', d :: derive(s, d) == derive(s', d) ==> s == s'
    ensures EnvOf(derive, cs, cd, ss, sd).Honest() <==> cs == ss
  {
  }
}
