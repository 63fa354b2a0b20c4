/**
  A network of nodes that share one folder: any number of links, each with its two ends in the
  folder groups of two nodes. A step of the network is a step of one link together with what it
  does to the group of the acting end, or a forged message that enters an inbox of one link.
 */
module Network {
  import opened PeerLink
  import opened Membership
  import opened Hostile

  type NodeId = nat
  type LinkId = nat

  // One end of one link: the connection object a group knows.
  datatype Remote = Remote(link: LinkId, side: Side) {
    function Other(): Remote {
      Remote(link, side.Peer())
    }
  }

  // Who owns which end, the digest of each node, the tokens of the two ends of each link, which need not
  // agree, and the peer endpoint each end sees.
  datatype Topology = Topology(
    owner: Remote -> NodeId,
    digest: NodeId -> Digest,
    tokens: LinkId -> Env,
    endpoint: Remote -> Endpoint)
  {
    // The digest of the certificate presented to this end.
    function PeerDigest(r: Remote): Digest {
      digest(owner(r.Other()))
    }
  }

  // `forged` are the links on which some message was forged.
  datatype Net = Net(links: map<LinkId, Link>, groups: map<NodeId, Group<Remote>>, forged: set<LinkId>) {
    function GroupOf(n: NodeId): Group<Remote> {
      if n in groups then groups[n] else Empty()
    }
    function At(r: Remote): End
      requires r.link in links
    {
      links[r.link].At(r.side)
    }
  }

  // The link's own step, with `Connect` decided by the loopback test and the group's `attach`.
  function Decide(t: Topology, net: Net, r: Remote, step: Step): Step {
    var n := t.owner(r);
    if step.Connect?
    then Connect(step.side, Admits(net.GroupOf(n), r, t.PeerDigest(r), t.endpoint(r), t.digest(n)))
    else step
  }

  function NetStep(t: Topology, net: Net, id: LinkId, step: Step): Net
    requires id in net.links
  {
    var r := Remote(id, step.side);
    var n := t.owner(r);
    var l := Next(t.tokens(id), net.links[id], Decide(t, net, r, step));
    var g := GroupNext(net.GroupOf(n), r, t.PeerDigest(r), t.endpoint(r), net.At(r), l.At(step.side));
    net.(links := net.links[id := l], groups := net.groups[n := g])
  }

  function NetNext(t: Topology, net: Net, id: LinkId, event: Event): Net {
    if id !in net.links then net
    else
      match event
      case Do(step) => NetStep(t, net, id, step)
      case Forge(_, _) =>
        net.(links := net.links[id := Suffer(t.tokens(id), net.links[id], event)], forged := net.forged + {id})
  }

  function NetExec(t: Topology, net: Net, events: seq<(LinkId, Event)>): Net
    decreases |events|
  {
    if events == [] then net else NetExec(t, NetNext(t, net, events[0].0, events[0].1), events[1..])
  }

  // All links unconnected, all groups empty.
  predicate Fresh(net: Net) {
    net.groups == map[] && net.forged == {} && forall id | id in net.links :: net.links[id] == Start
  }

  // The group of `n` holds exactly the open ends that `n` owns, marks exactly the ready ones, and
  // none of them leads back to `n`.
  ghost predicate GroupInv(t: Topology, net: Net, n: NodeId) {
    var g := net.GroupOf(n);
    && Indexed(g, t.PeerDigest, t.endpoint)
    && (forall r :: r in g.remotes <==> r.link in net.links && t.owner(r) == n && net.At(r).phase.Attached?)
    && (forall r | r in g.remotes :: r in g.ready <==> net.At(r).Ready())
    && (forall r | r in g.remotes :: t.PeerDigest(r) != t.digest(n))
  }

  predicate LinkInv(env: Env, l: Link, forged: bool) {
    Shapes(l) && (env.Honest() && !forged ==> Inv(env, l))
  }

  ghost predicate NetInv(t: Topology, net: Net) {
    && (forall id | id in net.links :: LinkInv(t.tokens(id), net.links[id], id in net.forged))
    && (forall n: NodeId :: GroupInv(t, net, n))
  }

  // A step of one end leaves the other end alone.
  lemma StepTouchesOneEnd(env: Env, l: Link, step: Step)
    ensures Next(env, l, step).At(step.side.Peer()) == l.At(step.side.Peer())
  {
  }

  // How a step moves the acting end: phases advance, `Connect` alone opens, and as long as the end
  // stays open `handshakeSuccess` fires exactly when it becomes ready.
  predicate Moves(before: End, after: End) {
    && (after.phase.Idle? ==> before.phase.Idle?)
    && (before.phase.Closed? ==> after.phase.Closed?)
    && (before.phase.Idle? ==> after.successes == before.successes)
    && (before.phase.Idle? && after.phase.Attached? ==> !after.Ready())
    && (before.phase.Attached? && after.phase.Attached? ==>
          && after.successes >= before.successes
          && (after.Ready() <==> before.Ready() || after.successes > before.successes))
    && (before.phase.Closed? ==> after.successes == before.successes)
  }

  lemma DeliverMoves(env: Env, l: Link, side: Side)
    requires Shapes(l)
    ensures Moves(l.At(side), Next(env, l, Deliver(side)).At(side))
  {
    var e := l.At(side);
    if e.phase.Attached? && l.Inbox(side) != [] {
      ReceiveMoves(e, l.Inbox(side)[0], env.Local(side), env.Remote(side));
    }
    hide HandleMessage, Moves;
    assert Moves(e, e) by { StaysMoves(e); }
  }

  lemma StaysMoves(e: End)
    requires Shape(e, e.role)
    ensures Moves(e, e)
  {
  }

  lemma ReceiveMoves(e: End, m: Message, local: Token, remote: Token)
    requires Shape(e, e.role) && e.phase.Attached?
    ensures Moves(e, HandleMessage(e, m, local, remote).end)
  {
    if e.Ready() {
      ReadyShape(e, m, local, remote);
    } else {
      NewShape(e, m, local, remote);
    }
    hide HandleMessage;
  }

  lemma ConnectMoves(env: Env, l: Link, side: Side, admitted: bool)
    requires Shapes(l)
    ensures var after := Next(env, l, Connect(side, admitted)).At(side);
            Moves(l.At(side), after) && (l.At(side).phase.Idle? && after.phase.Attached? ==> admitted)
  {
  }

  lemma StepMoves(env: Env, l: Link, step: Step)
    requires Shapes(l)
    ensures Moves(l.At(step.side), Next(env, l, step).At(step.side))
    ensures !step.Connect? && l.At(step.side).phase.Idle? ==> !Next(env, l, step).At(step.side).phase.Attached?
    ensures step.Connect? && Next(env, l, step).At(step.side).phase.Attached? && l.At(step.side).phase.Idle? ==>
              step.admitted
  {
    match step
    case Connect(side, admitted) => ConnectMoves(env, l, side, admitted);
    case Deliver(side) => DeliverMoves(env, l, side);
    case DoChoking(_, _) =>
    case DoInterested(_, _) =>
    case Broadcast(_, _) =>
    case Send(_, _) =>
    case Close(_) =>
  }

  // The networks `net` and `net'` differ at most in the end `r`.
  ghost predicate SameBut(net: Net, net': Net, r: Remote) {
    && net'.links.Keys == net.links.Keys
    && (forall s: Remote | s.link in net.links && s != r :: net'.At(s) == net.At(s))
  }

  lemma OtherGroupKeepsInv(t: Topology, net: Net, net': Net, r: Remote, n: NodeId)
    requires SameBut(net, net', r) && n != t.owner(r) && net'.GroupOf(n) == net.GroupOf(n)
    requires GroupInv(t, net, n)
    ensures GroupInv(t, net', n)
  {
  }

  lemma OpenKeepsInv(t: Topology, net: Net, net': Net, r: Remote, n: NodeId)
    requires SameBut(net, net', r) && r.link in net.links && t.owner(r) == n && GroupInv(t, net, n)
    requires !net.At(r).phase.Attached? && net'.At(r).phase.Attached? && !net'.At(r).Ready()
    requires t.PeerDigest(r) != t.digest(n) && Attach(net.GroupOf(n), r, t.PeerDigest(r), t.endpoint(r)).1
    requires net'.GroupOf(n) == Attach(net.GroupOf(n), r, t.PeerDigest(r), t.endpoint(r)).0
    ensures GroupInv(t, net', n)
  {
    AttachDecides(net.GroupOf(n), r, t.PeerDigest, t.endpoint);
  }

  lemma CloseKeepsGroup(t: Topology, net: Net, net': Net, r: Remote, n: NodeId)
    requires SameBut(net, net', r) && r.link in net.links && t.owner(r) == n && GroupInv(t, net, n)
    requires !net'.At(r).phase.Attached?
    requires net'.GroupOf(n) == Detach(net.GroupOf(n), r, t.PeerDigest(r), t.endpoint(r))
    ensures GroupInv(t, net', n)
  {
    DetachDrops(net.GroupOf(n), r, t.PeerDigest, t.endpoint);
  }

  lemma StayKeepsInv(t: Topology, net: Net, net': Net, r: Remote, n: NodeId)
    requires SameBut(net, net', r) && r.link in net.links && t.owner(r) == n && GroupInv(t, net, n)
    requires net'.At(r).phase == net.At(r).phase
    requires || (net'.GroupOf(n) == net.GroupOf(n) && net'.At(r).Ready() == net.At(r).Ready())
             || (net'.GroupOf(n) == MarkReady(net.GroupOf(n), r) && net'.At(r).Ready() && net'.At(r).phase.Attached?)
    ensures GroupInv(t, net', n)
  {
  }

  // What `OwnGroupKeepsInv` needs to know of a step.
  ghost predicate Acts(t: Topology, net: Net, net': Net, r: Remote) {
    var n := t.owner(r);
    && r.link in net.links
    && SameBut(net, net', r)
    && Moves(net.At(r), net'.At(r))
    && net'.GroupOf(n) == GroupNext(net.GroupOf(n), r, t.PeerDigest(r), t.endpoint(r), net.At(r), net'.At(r))
    && (net.At(r).phase.Idle? && net'.At(r).phase.Attached? ==>
          Admits(net.GroupOf(n), r, t.PeerDigest(r), t.endpoint(r), t.digest(n)))
  }

  lemma OwnGroupKeepsInv(t: Topology, net: Net, net': Net, r: Remote)
    requires Acts(t, net, net', r) && GroupInv(t, net, t.owner(r))
    ensures GroupInv(t, net', t.owner(r))
  {
    var n, before, after := t.owner(r), net.At(r), net'.At(r);
    if before.phase == after.phase {
      if !after.phase.Attached? {
        assert r !in net.GroupOf(n).remotes;
        UnattachedKeepsInv(t, net, net', r, n);
      } else {
        StayKeepsInv(t, net, net', r, n);
      }
    } else if after.phase.Attached? {
      OpenKeepsInv(t, net, net', r, n);
    } else {
      CloseKeepsGroup(t, net, net', r, n);
    }
  }

  lemma UnattachedKeepsInv(t: Topology, net: Net, net': Net, r: Remote, n: NodeId)
    requires SameBut(net, net', r) && r.link in net.links && t.owner(r) == n && GroupInv(t, net, n)
    requires !net.At(r).phase.Attached? && !net'.At(r).phase.Attached? && net'.GroupOf(n) == net.GroupOf(n)
    ensures GroupInv(t, net', n)
  {
  }

  lemma NetStepActs(t: Topology, net: Net, id: LinkId, step: Step)
    requires id in net.links && Shapes(net.links[id])
    ensures Acts(t, net, NetStep(t, net, id, step), Remote(id, step.side))
  {
    hide Next, Moves, Shape, Attach, GroupNext;
    var r := Remote(id, step.side);
    var decided := Decide(t, net, r, step);
    StepTouchesOneEnd(t.tokens(id), net.links[id], decided);
    StepMoves(t.tokens(id), net.links[id], decided);
  }

  lemma StepKeepsLinkInv(env: Env, l: Link, step: Step, forged: bool)
    requires LinkInv(env, l, forged)
    ensures LinkInv(env, Next(env, l, step), forged)
  {
    StepKeepsShapes(env, l, step);
    if env.Honest() && !forged {
      StepKeepsInv(env, l, step);
    }
  }

  lemma AllGroupsKeepInv(t: Topology, net: Net, net': Net, r: Remote)
    requires Acts(t, net, net', r) && forall n: NodeId :: GroupInv(t, net, n)
    requires forall n: NodeId | n != t.owner(r) :: net'.GroupOf(n) == net.GroupOf(n)
    ensures forall n: NodeId :: GroupInv(t, net', n)
  {
    OwnGroupKeepsInv(t, net, net', r);
    forall n: NodeId | n != t.owner(r) ensures GroupInv(t, net', n) {
      OtherGroupKeepsInv(t, net, net', r, n);
    }
  }

  lemma NetStepKeepsInv(t: Topology, net: Net, id: LinkId, step: Step)
    requires NetInv(t, net) && id in net.links
    ensures NetInv(t, NetStep(t, net, id, step))
  {
    assert Shapes(net.links[id]);
    hide LinkInv, GroupInv, Next, Acts, GroupNext;
    var r := Remote(id, step.side);
    StepKeepsLinkInv(t.tokens(id), net.links[id], Decide(t, net, r, step), id in net.forged);
    NetStepActs(t, net, id, step);
    AllGroupsKeepInv(t, net, NetStep(t, net, id, step), r);
  }

  // A forged message changes no end, and so no group.
  lemma ForgeKeepsInv(t: Topology, net: Net, id: LinkId, side: Side, m: Message)
    requires NetInv(t, net) && id in net.links
    ensures NetInv(t, NetNext(t, net, id, Forge(side, m)))
  {
    var net' := NetNext(t, net, id, Forge(side, m));
    assert net'.links[id].client == net.links[id].client && net'.links[id].server == net.links[id].server;
    forall n: NodeId ensures GroupInv(t, net', n) {
      SameEnds(t, net, net', n);
    }
  }

  lemma SameEnds(t: Topology, net: Net, net': Net, n: NodeId)
    requires net'.links.Keys == net.links.Keys && net'.GroupOf(n) == net.GroupOf(n) && GroupInv(t, net, n)
    requires forall r: Remote | r.link in net.links :: net'.At(r) == net.At(r)
    ensures GroupInv(t, net', n)
  {
  }

  lemma {:induction false} NetRunKeepsInv(t: Topology, net: Net, events: seq<(LinkId, Event)>)
    requires NetInv(t, net)
    ensures NetInv(t, NetExec(t, net, events))
    decreases |events|
  {
    hide NetInv, NetStep;
    if events != [] {
      var (id, event) := events[0];
      if id in net.links {
        match event {
          case Do(step) => NetStepKeepsInv(t, net, id, step);
          case Forge(side, m) => ForgeKeepsInv(t, net, id, side, m);
        }
      }
      NetRunKeepsInv(t, NetNext(t, net, id, event), events[1..]);
    }
  }

  // In every run of the network, from no connection at all, whatever tokens its links hold and whatever
  // messages are forged: every group's lookup sets are the
  // injective images of its members, its members are the open ends its node owns and the ready
  // ones among them are marked, and every link between honest ends on which nothing was forged is in a
  // state of an honest link.
  lemma EveryRun(t: Topology, net: Net, events: seq<(LinkId, Event)>)
    requires Fresh(net)
    ensures NetInv(t, NetExec(t, net, events))
  {
    NetRunKeepsInv(t, net, events);
  }

  // With one digest per node, no node ever has itself attached, and none has two attached links to
  // the same peer.
  lemma OneLinkPerPeer(t: Topology, net: Net, events: seq<(LinkId, Event)>, n: NodeId)
    requires Fresh(net)
    requires forall m, m' :: t.digest(m) == t.digest(m') ==> m == m'
    ensures var remotes := NetExec(t, net, events).GroupOf(n).remotes;
            && (forall r | r in remotes :: t.owner(r) == n && t.owner(r.Other()) != n)
            && (forall r, s | r in remotes && s in remotes && t.owner(r.Other()) == t.owner(s.Other()) :: r == s)
  {
    EveryRun(t, net, events);
    assert GroupInv(t, NetExec(t, net, events), n);
  }

  // ---------------------------------------------------------------- the links of a network

  // The events of one link, with its connections decided.
  function Project(t: Topology, net: Net, events: seq<(LinkId, Event)>, id: LinkId): seq<Event>
    decreases |events|
  {
    if events == [] then []
    else
      var (k, event) := events[0];
      var rest := Project(t, NetNext(t, net, k, event), events[1..], id);
      if k != id then rest
      else [if event.Do? then Do(Decide(t, net, Remote(id, event.step.side), event.step)) else event] + rest
  }

  // Every link of a network runs as a link on its own does, event by event.
  lemma {:induction false} LinksRun(t: Topology, net: Net, events: seq<(LinkId, Event)>, id: LinkId)
    requires id in net.links
    ensures id in NetExec(t, net, events).links
    ensures NetExec(t, net, events).links[id] == SufferAll(t.tokens(id), net.links[id], Project(t, net, events, id))
    decreases |events|
  {
    if events != [] {
      var (k, event) := events[0];
      var net' := NetNext(t, net, k, event);
      LinksRun(t, net', events[1..], id);
      hide Next, GroupNext, Suffer, Decide;
      LinkNext(t, net, k, event, id);
      hide NetNext, NetStep;
      var rest := Project(t, net', events[1..], id);
      if k == id {
        var first := if event.Do? then Do(Decide(t, net, Remote(id, event.step.side), event.step)) else event;
        assert ([first] + rest)[1..] == rest;
      }
    }
  }

  lemma LinkNext(t: Topology, net: Net, k: LinkId, event: Event, id: LinkId)
    requires id in net.links
    ensures id in NetNext(t, net, k, event).links
    ensures NetNext(t, net, k, event).links[id] ==
            if k != id then net.links[id]
            else
              var decided := if event.Do? then Do(Decide(t, net, Remote(id, event.step.side), event.step)) else event;
              Suffer(t.tokens(id), net.links[id], decided)
  {
    hide Next, GroupNext, Decide;
  }

  // In every run of the network an end that connects opens if and only if its peer is not its own node and no open
  // end of its node has the peer's digest or endpoint.
  lemma OpensIff(t: Topology, net: Net, events: seq<(LinkId, Event)>, r: Remote, admitted: bool)
    requires Fresh(net) && r.link in net.links
    requires r.link in NetExec(t, net, events).links && NetExec(t, net, events).At(r).phase.Idle?
    ensures var now := NetExec(t, net, events);
            var next := NetNext(t, now, r.link, Do(Connect(r.side, admitted)));
            r.link in next.links &&
            (next.At(r).phase.Attached? <==>
               && t.PeerDigest(r) != t.digest(t.owner(r))
               && forall s: Remote | s.link in now.links && t.owner(s) == t.owner(r) && now.At(s).phase.Attached? ::
                    t.PeerDigest(s) != t.PeerDigest(r) && t.endpoint(s) != t.endpoint(r))
  {
    var now, n := NetExec(t, net, events), t.owner(r);
    EveryRun(t, net, events);
    assert GroupInv(t, now, n) && LinkInv(t.tokens(r.link), now.links[r.link], r.link in now.forged);
    hide NetExec, NetInv;
    AttachDecides(now.GroupOf(n), r, t.PeerDigest, t.endpoint);
    LinkNext(t, now, r.link, Do(Connect(r.side, admitted)), r.link);
    var ok := Admits(now.GroupOf(n), r, t.PeerDigest(r), t.endpoint(r), t.digest(n));
    ConnectDoes(t.tokens(r.link), now.links[r.link], r.side, ok);
    hide Next, NetNext, Attach;
  }
}
