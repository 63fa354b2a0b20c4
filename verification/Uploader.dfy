/**
  The choking policy of `Uploader`: a remote is unchoked as soon as it says that it is interested, and
  choked as soon as it says that it is not, while its message is being handled.

  The steps of a link with this policy are steps of PeerLink.dfy, where choking may be changed at any
  time, so what holds there holds here too.
 */
module Uploads {
  import opened PeerLink
  import opened P2PFolders

  // Handling a message, with what the uploader does when the peer's interest changes.
  function Receive(e: End, m: Message, local: Token, remote: Token): Reaction {
    var r := HandleMessage(e, m, local, remote);
    if r.end.peerInterested == e.peerInterested then r
    else
      var c := SetChoking(r.end, !r.end.peerInterested);
      Reaction(c.end, r.out + c.out)
  }

  // Choking is changed by the uploader only.
  function UpNext(env: Env, l: Link, step: Step): Link {
    match step
    case Deliver(side) =>
      if l.At(side).phase.Attached? && l.Inbox(side) != []
      then l.Pop(side).Put(side, Receive(l.At(side), l.Inbox(side)[0], env.Local(side), env.Remote(side)))
      else l
    case DoChoking(_, _) => l
    case _ => Next(env, l, step)
  }

  function UpExec(env: Env, l: Link, steps: seq<Step>): Link
    decreases |steps|
  {
    if steps == [] then l else UpExec(env, UpNext(env, l, steps[0]), steps[1..])
  }

  // ---------------------------------------------------------------- steps of the link

  function Expand(env: Env, l: Link, step: Step): seq<Step> {
    match step
    case Deliver(side) =>
      var interested := Next(env, l, step).At(side).peerInterested;
      if interested == l.At(side).peerInterested then [step] else [step, DoChoking(side, !interested)]
    case DoChoking(_, _) => []
    case _ => [step]
  }

  lemma ExecTwo(env: Env, l: Link, a: Step, b: Step)
    ensures Exec(env, l, []) == l
    ensures Exec(env, l, [a]) == Next(env, l, a)
    ensures Exec(env, l, [a, b]) == Next(env, Next(env, l, a), b)
  {
    hide Next;
    assert [a][1..] == [] && [a, b][1..] == [b] && [b][1..] == [];
    assert Exec(env, l, [a]) == Exec(env, Next(env, l, a), []);
    assert Exec(env, l, [a, b]) == Exec(env, Next(env, l, a), [b]);
    assert Exec(env, Next(env, l, a), [b]) == Exec(env, Next(env, Next(env, l, a), b), []);
  }

  // Only a ready end takes notice of its peer's interest; it stays open, and writes nothing by itself.
  lemma InterestShape(e: End, m: Message, local: Token, remote: Token)
    requires HandleMessage(e, m, local, remote).end.peerInterested != e.peerInterested
    ensures var r := HandleMessage(e, m, local, remote);
            e.Ready() && r == Reaction(e.(peerInterested := !e.peerInterested), [])
  {
  }

  lemma StepExpands(env: Env, l: Link, step: Step)
    ensures UpNext(env, l, step) == Exec(env, l, Expand(env, l, step))
  {
    var side := step.side;
    var l' := Next(env, l, step);
    ExecTwo(env, l, step, DoChoking(side, !l'.At(side).peerInterested));
    hide Exec, HandleMessage, SetChoking;
    if step.Deliver? && l.At(side).phase.Attached? && l.Inbox(side) != [] {
      var e, m := l.At(side), l.Inbox(side)[0];
      var r := HandleMessage(e, m, env.Local(side), env.Remote(side));
      assert l' == l.Pop(side).Put(side, r) && l'.At(side) == r.end;
      if r.end.peerInterested != e.peerInterested {
        InterestShape(e, m, env.Local(side), env.Remote(side));
        var c := SetChoking(r.end, !r.end.peerInterested);
        assert c.end.phase == r.end.phase by { ChokingShape(r.end, !r.end.peerInterested); }
        PutSilent(l.Pop(side), side, r, c);
      }
    }
  }

  lemma ChokingShape(e: End, on: bool)
    ensures SetChoking(e, on).end == e.(amChoking := on)
  {
  }

  lemma PutSilent(l: Link, side: Side, r: Reaction, c: Reaction)
    requires r.out == []
    ensures l.Put(side, r).Put(side, c) == l.Put(side, Reaction(c.end, r.out + c.out))
  {
    assert r.out + c.out == c.out && l.toServer + [] == l.toServer && l.toClient + [] == l.toClient;
  }

  function ExpandAll(env: Env, l: Link, steps: seq<Step>): seq<Step>
    decreases |steps|
  {
    if steps == [] then [] else Expand(env, l, steps[0]) + ExpandAll(env, UpNext(env, l, steps[0]), steps[1..])
  }

  // Every run with the uploader is a run of the link.
  lemma {:induction false} RunExpands(env: Env, l: Link, steps: seq<Step>)
    ensures UpExec(env, l, steps) == Exec(env, l, ExpandAll(env, l, steps))
    decreases |steps|
  {
    hide UpNext, Expand, Next;
    if steps != [] {
      var l', rest := UpNext(env, l, steps[0]), steps[1..];
      StepExpands(env, l, steps[0]);
      RunExpands(env, l', rest);
      ExecAppend(env, l, Expand(env, l, steps[0]), ExpandAll(env, l', rest));
    }
  }

  // ---------------------------------------------------------------- choked exactly if not interested

  // An end chokes its peer exactly while it knows it not to be interested.
  predicate Fair(e: End) {
    e.amChoking == !e.peerInterested
  }

  // Whatever message arrives.
  lemma ReceiveStaysFair(e: End, m: Message, local: Token, remote: Token)
    requires Fair(e)
    ensures Fair(Receive(e, m, local, remote).end)
  {
    hide HandleMessage;
    var r := HandleMessage(e, m, local, remote);
    if r.end.peerInterested == e.peerInterested {
      KeepsChoking(e, m, local, remote);
    } else {
      ChokingShape(r.end, !r.end.peerInterested);
    }
  }

  lemma KeepsChoking(e: End, m: Message, local: Token, remote: Token)
    ensures HandleMessage(e, m, local, remote).end.amChoking == e.amChoking
  {
    if e.Ready() {
      ReadyShape(e, m, local, remote);
    } else {
      NewShape(e, m, local, remote);
    }
    hide HandleMessage;
  }

  lemma StepStaysFair(env: Env, l: Link, step: Step)
    requires Fair(l.client) && Fair(l.server)
    ensures Fair(UpNext(env, l, step).client) && Fair(UpNext(env, l, step).server)
  {
    hide Receive;
    if step.Deliver? && l.Inbox(step.side) != [] {
      var side := step.side;
      ReceiveStaysFair(l.At(side), l.Inbox(side)[0], env.Local(side), env.Remote(side));
    }
  }

  lemma {:induction false} RunStaysFair(env: Env, l: Link, steps: seq<Step>)
    requires Fair(l.client) && Fair(l.server)
    ensures Fair(UpExec(env, l, steps).client) && Fair(UpExec(env, l, steps).server)
    decreases |steps|
  {
    hide UpNext;
    if steps != [] {
      StepStaysFair(env, l, steps[0]);
      RunStaysFair(env, UpNext(env, l, steps[0]), steps[1..]);
    }
  }

  // Neither end is closed, and nothing is on its way.
  predicate Drained(l: Link) {
    !l.client.phase.Closed? && !l.server.phase.Closed? && l.toClient == [] && l.toServer == []
  }

  // In every run each end chokes its peer exactly while it knows it not to be interested; and between
  // honest ends, once both channels are drained, an end is choked exactly if it is not interested.
  lemma ChokedIffNotInterested(env: Env, steps: seq<Step>)
    ensures var l := UpExec(env, Start, steps);
            && Fair(l.client) && Fair(l.server)
            && (env.Honest() && Drained(l) ==>
                  && l.client.peerChoking == !l.client.amInterested
                  && l.server.peerChoking == !l.server.amInterested)
  {
    RunStaysFair(env, Start, steps);
    RunExpands(env, Start, steps);
    hide UpExec, Exec, ExpandAll;
    if env.Honest() {
      FlagsAgree(env, ExpandAll(env, Start, steps));
      var l := UpExec(env, Start, steps);
      assert !l.client.phase.Closed? ==> Synced(l, Client) by { assert l.At(Client) == l.client; }
      assert !l.server.phase.Closed? ==> Synced(l, Server) by { assert l.At(Server) == l.server; }
    }
  }

  // A notice of changed interest is answered at once, with the choking it asks for.
  lemma NoticeAnswered(env: Env, l: Link, side: Side, on: bool)
    requires l.At(side).phase.Attached? && l.At(side).Ready() && Fair(l.At(side)) && l.Inbox(side) != []
    requires l.At(side).peerInterested != on && l.Inbox(side)[0] == if on then Interested else NotInterested
    ensures var l', e := UpNext(env, l, Deliver(side)), l.At(side);
            && l'.At(side) == e.(peerInterested := on, amChoking := !on)
            && l'.Inbox(side) == l.Inbox(side)[1..]
            && l'.Inbox(side.Peer()) == l.Inbox(side.Peer()) + [if on then Unchoke else Choke]
  {
    ReadyShape(l.At(side), l.Inbox(side)[0], env.Local(side), env.Remote(side));
    hide HandleMessage;
  }

  // ---------------------------------------------------------------- the objects

  method HandleInterested(remote: P2PFolder)
    modifies remote
    ensures remote.Did(SetChoking(old(remote.View()), false)) && !remote.amChoking
  {
    remote.Unchoke();
  }

  method HandleNotInterested(remote: P2PFolder)
    modifies remote
    ensures remote.Did(SetChoking(old(remote.View()), true)) && remote.amChoking
  {
    remote.Choke();
  }

  // A message reaches a connection, and the signal about its peer's interest reaches the uploader.
  method ReceiveMessage(remote: P2PFolder, m: Message)
    requires remote.fgroup.Valid() && remote in remote.fgroup.remotes
    modifies remote, remote.fgroup
    ensures remote.Did(Receive(old(remote.View()), m, remote.localToken, remote.remoteToken))
    ensures Fair(old(remote.View())) ==> Fair(remote.View())
    ensures remote.fgroup.Valid() && (old(remote.phase).Attached? ==> remote.GroupFollows())
  {
    if Fair(remote.View()) {
      ReceiveStaysFair(remote.View(), m, remote.localToken, remote.remoteToken);
    }
    hide PeerLink.HandleMessage;
    var interested := remote.peerInterested;
    remote.HandleMessage(m);
    if remote.peerInterested != interested {
      if remote.peerInterested {
        HandleInterested(remote);
      } else {
        HandleNotInterested(remote);
      }
    }
  }
}
