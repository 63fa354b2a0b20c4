/**
  The connection object `P2PFolder` and the `FolderGroup` it belongs to, as objects that update
  their fields. Every method is tied to a function of PeerLink or Membership.
 */
module P2PFolders {
  import opened PeerLink
  import opened Membership

  class FolderGroup {
    var remotes: set<P2PFolder>
    var remotesReady: set<P2PFolder>
    var digests: set<Digest>
    var endpoints: set<Endpoint>

    constructor ()
      ensures View() == Empty()
    {
      remotes, remotesReady, digests, endpoints := {}, {}, {}, {};
    }

    function View(): Group<P2PFolder>
      reads this
    {
      Group(remotes, remotesReady, digests, endpoints)
    }

    ghost predicate Valid()
      reads this
    {
      Indexed(View(), (r: P2PFolder) => r.digest, (r: P2PFolder) => r.endpoint)
    }

    method Attach(remote: P2PFolder) returns (ok: bool)
      requires Valid()
      modifies this
      ensures Valid()
      ensures (View(), ok) == Membership.Attach(old(View()), remote, remote.digest, remote.endpoint)
    {
      AttachDecides(View(), remote, (r: P2PFolder) => r.digest, (r: P2PFolder) => r.endpoint);
      if remote in remotes || remote.digest in digests || remote.endpoint in endpoints {
        return false;
      }
      remotes := remotes + {remote};
      endpoints := endpoints + {remote.endpoint};
      digests := digests + {remote.digest};
      return true;
    }

    method Detach(remote: P2PFolder)
      requires Valid()
      modifies this
      ensures Valid()
      ensures View() == Membership.Detach(old(View()), remote, remote.digest, remote.endpoint)
    {
      DetachDrops(View(), remote, (r: P2PFolder) => r.digest, (r: P2PFolder) => r.endpoint);
      if remote !in remotes {
        return;
      }
      digests := digests - {remote.digest};
      endpoints := endpoints - {remote.endpoint};
      remotes := remotes - {remote};
      remotesReady := remotesReady - {remote};
    }

    method HandleHandshake(origin: P2PFolder)
      requires Valid() && origin in remotes
      modifies this
      ensures Valid()
      ensures View() == MarkReady(old(View()), origin)
    {
      remotesReady := remotesReady + {origin};
    }
  }

  // `digest` and `endpoint` are those of the peer, fixed for the connection; `written` is everything
  // handed to the socket so far.
  class P2PFolder {
    const role: Side
    const digest: Digest
    const endpoint: Endpoint
    const nodeDigest: Digest
    const localToken: Token
    const remoteToken: Token
    const fgroup: FolderGroup

    var phase: Phase
    var handshakeSent: bool
    var handshakeReceived: bool
    var amChoking: bool
    var amInterested: bool
    var peerChoking: bool
    var peerInterested: bool
    var failures: nat
    var successes: nat
    var protocolError: bool
    var written: seq<Message>

    constructor (role: Side, digest: Digest, endpoint: Endpoint, nodeDigest: Digest, localToken: Token,
                 remoteToken: Token, fgroup: FolderGroup)
      ensures View() == Fresh(role) && written == []
      ensures this.role == role && phase == Idle && !handshakeSent && !handshakeReceived
      ensures amChoking && !amInterested && peerChoking && !peerInterested
      ensures failures == 0 && successes == 0 && !protocolError
      ensures this.digest == digest && this.endpoint == endpoint && this.nodeDigest == nodeDigest
      ensures this.localToken == localToken && this.remoteToken == remoteToken && this.fgroup == fgroup
    {
      this.role, this.digest, this.endpoint, this.nodeDigest := role, digest, endpoint, nodeDigest;
      this.localToken, this.remoteToken, this.fgroup := localToken, remoteToken, fgroup;
      phase, handshakeSent, handshakeReceived := Idle, false, false;
      amChoking, amInterested, peerChoking, peerInterested := true, false, true, false;
      failures, successes, protocolError, written := 0, 0, false, [];
    }

    function View(): End
      reads this
    {
      End(role, phase, handshakeSent, handshakeReceived, amChoking, amInterested, peerChoking, peerInterested,
          failures, successes, protocolError)
    }

    predicate IsReady()
      reads this
      ensures IsReady() == View().Ready()
    {
      handshakeSent && handshakeReceived
    }

    // The group did what the change of this connection asks for.
    twostate predicate GroupFollows()
      reads this, fgroup
    {
      fgroup.View() == GroupNext(old(fgroup.View()), this, digest, endpoint, old(View()), View())
    }

    // The new state and what was written are those of `r`.
    twostate predicate Did(r: Reaction)
      reads this
    {
      View() == r.end && written == old(written) + r.out
    }

    method SendMessage(m: Message)
      modifies this`written
      ensures written == old(written) + [m]
    {
      written := written + [m];
    }

    method SendHandshake()
      modifies this
      ensures Did(PeerLink.SendHandshake(old(View()), localToken))
      ensures handshakeSent && written == old(written) + [Handshake(localToken)]
    {
      SendMessage(Handshake(localToken));
      handshakeSent := true;
    }

    // `socket_->close`: the `aboutToClose` signal detaches the remote from its group.
    method CloseSocket()
      requires fgroup.Valid()
      modifies this`phase, fgroup
      ensures Did(Reaction(old(View()).(phase := Closed), []))
      ensures fgroup.Valid() && (!old(phase).Closed? ==> GroupFollows())
      ensures fgroup.View() == Membership.Detach(old(fgroup.View()), this, digest, endpoint)
    {
      fgroup.Detach(this);
      phase := Closed;
    }

    // Admitted exactly if the peer is not this node and the group takes it; a remote that is not
    // admitted leaves the group as it was.
    method HandleConnected() returns (admitted: bool)
      requires fgroup.Valid()
      modifies this, fgroup
      ensures Did(PeerLink.HandleConnected(old(View()), admitted, localToken))
      ensures fgroup.Valid() && (old(phase).Idle? ==> GroupFollows())
      ensures admitted == Admits(old(fgroup.View()), this, digest, endpoint, nodeDigest)
      ensures admitted <==>
                && nodeDigest != digest
                && forall s | s in old(fgroup.remotes) :: s != this && s.digest != digest && s.endpoint != endpoint
      ensures phase == (if admitted then Attached else Closed)
      ensures fgroup.remotes == if admitted then old(fgroup.remotes) + {this} else old(fgroup.remotes) - {this}
      ensures handshakeSent == (old(handshakeSent) || (admitted && role == Client))
      ensures written == old(written) + if admitted && role == Client then [Handshake(localToken)] else []
      ensures admitted ==> fgroup.View() == Membership.Attach(old(fgroup.View()), this, digest, endpoint).0
      ensures !admitted ==> fgroup.View() == Membership.Detach(old(fgroup.View()), this, digest, endpoint)
    {
      AttachDecides(fgroup.View(), this, (r: P2PFolder) => r.digest, (r: P2PFolder) => r.endpoint);
      admitted := false;
      if nodeDigest != digest {
        admitted := fgroup.Attach(this);
      }
      if admitted {
        phase := Attached;
        if role == Client {
          SendHandshake();
        }
      } else {
        CloseSocket();
      }
    }

    method Choke()
      modifies this
      ensures Did(SetChoking(old(View()), true))
      ensures View() == old(View()).(amChoking := true)
      ensures written == old(written) + if old(amChoking) then [] else [Message.Choke]
    {
      if !amChoking {
        SendMessage(Message.Choke);
        amChoking := true;
      }
    }

    method Unchoke()
      modifies this
      ensures Did(SetChoking(old(View()), false))
      ensures View() == old(View()).(amChoking := false)
      ensures written == old(written) + if !old(amChoking) then [] else [Message.Unchoke]
    {
      if amChoking {
        SendMessage(Message.Unchoke);
        amChoking := false;
      }
    }

    method Interest()
      modifies this
      ensures Did(SetInterested(old(View()), true))
      ensures View() == old(View()).(amInterested := true)
      ensures written == old(written) + if old(amInterested) then [] else [Message.Interested]
    {
      if !amInterested {
        SendMessage(Message.Interested);
        amInterested := true;
      }
    }

    method Uninterest()
      modifies this
      ensures Did(SetInterested(old(View()), false))
      ensures View() == old(View()).(amInterested := false)
      ensures written == old(written) + if !old(amInterested) then [] else [Message.NotInterested]
    {
      if amInterested {
        SendMessage(Message.NotInterested);
        amInterested := false;
      }
    }

    method PostMessage(kind: Kind)
      modifies this
      ensures Did(Post(old(View()), kind))
      ensures View() == old(View()) && written == old(written) + [Ordinary(kind)]
    {
      SendMessage(Ordinary(kind));
    }

    // `handshakeSuccess` reaches the group through the connection made by `attach`.
    method HandleHandshake(m: Message)
      requires fgroup.Valid() && this in fgroup.remotes
      modifies this, fgroup
      ensures Did(PeerLink.HandleHandshake(old(View()), m, localToken, remoteToken))
      ensures fgroup.Valid() && (old(phase).Attached? ==> GroupFollows())
      ensures fgroup.View() ==
              if m == Handshake(remoteToken) then MarkReady(old(fgroup.View()), this) else old(fgroup.View())
    {
      if !m.Handshake? || m.token != remoteToken {
        failures := failures + 1;
        return;
      }
      if role == Server {
        SendHandshake();
      }
      handshakeReceived := true;
      successes := successes + 1;
      fgroup.HandleHandshake(this);
    }

    method HandleMessage(m: Message)
      requires fgroup.Valid() && this in fgroup.remotes
      modifies this, fgroup
      ensures Did(PeerLink.HandleMessage(old(View()), m, localToken, remoteToken))
      ensures fgroup.Valid() && (old(phase).Attached? ==> GroupFollows())
      ensures fgroup.View() ==
              if !old(IsReady()) && m == Handshake(remoteToken) then MarkReady(old(fgroup.View()), this)
              else if !old(IsReady()) then old(fgroup.View())
              else if m.Handshake? then Membership.Detach(old(fgroup.View()), this, digest, endpoint)
              else old(fgroup.View())
    {
      if IsReady() {
        match m
        case Choke => if !peerChoking { peerChoking := true; }
        case Unchoke => if peerChoking { peerChoking := false; }
        case Interested => if !peerInterested { peerInterested := true; }
        case NotInterested => if peerInterested { peerInterested := false; }
        case Ordinary(_) =>
        case Handshake(_) =>
          CloseSocket();
          protocolError := true;
      } else {
        HandleHandshake(m);
      }
    }
  }
}
