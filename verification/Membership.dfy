/**
  The membership bookkeeping of a folder group: the set of attached remotes, the set of ready
  ones, and the two lookup sets that stand in for a scan of the members.

  The functions are the specification of the methods of `FolderGroup` in P2PFolder.dfy; they are
  generic in what identifies a remote. `Admits` and `GroupNext` say how a group and its connections act
  together: for the objects in P2PFolder.dfy as for the links in Network.dfy.
 */
module Membership {
  import opened PeerLink

  type Digest = nat
  type Endpoint = nat

  datatype Group<T> = Group(remotes: set<T>, ready: set<T>, digests: set<Digest>, endpoints: set<Endpoint>)

  function Empty<T>(): Group<T> {
    Group({}, {}, {}, {})
  }

  function Attach<T>(g: Group<T>, r: T, d: Digest, e: Endpoint): (Group<T>, bool) {
    if r in g.remotes || d in g.digests || e in g.endpoints then (g, false)
    else (Group(g.remotes + {r}, g.ready, g.digests + {d}, g.endpoints + {e}), true)
  }

  function Detach<T>(g: Group<T>, r: T, d: Digest, e: Endpoint): Group<T> {
    if r !in g.remotes then g
    else Group(g.remotes - {r}, g.ready - {r}, g.digests - {d}, g.endpoints - {e})
  }

  function MarkReady<T>(g: Group<T>, r: T): Group<T> {
    g.(ready := g.ready + {r})
  }

  // A connection is taken unless it leads back to this node, whose digest is `own`, or the group refuses it.
  predicate Admits<T>(g: Group<T>, r: T, d: Digest, e: Endpoint, own: Digest) {
    d != own && Attach(g, r, d, e).1
  }

  // What the group becomes when the end of the connection `r` goes from `before` to `after`: opening
  // attaches, closing detaches, and a handshake signal marks as ready.
  function GroupNext<T>(g: Group<T>, r: T, d: Digest, e: Endpoint, before: End, after: End): Group<T> {
    if before.phase.Idle? && after.phase.Attached? then Attach(g, r, d, e).0
    else if after.phase.Closed? && !before.phase.Closed? then Detach(g, r, d, e)
    else if after.successes > before.successes then MarkReady(g, r)
    else g
  }

  // `index` is exactly the image of `members`, and no two members share an entry.
  ghost predicate IsIndex<T>(members: set<T>, index: set<nat>, key: T -> nat) {
    && (forall r | r in members :: key(r) in index)
    && (forall k | k in index :: exists r :: r in members && key(r) == k)
    && (forall r, s | r in members && s in members && key(r) == key(s) :: r == s)
  }

  lemma IndexAdd<T>(members: set<T>, index: set<nat>, key: T -> nat, r: T)
    requires IsIndex(members, index, key) && key(r) !in index
    ensures IsIndex(members + {r}, index + {key(r)}, key)
  {
  }

  ghost predicate Indexed<T>(g: Group<T>, digest: T -> Digest, endpoint: T -> Endpoint) {
    && g.ready <= g.remotes
    && IsIndex(g.remotes, g.digests, digest)
    && IsIndex(g.remotes, g.endpoints, endpoint)
  }

  // No member is `r` or has its digest or its endpoint.
  ghost predicate Distinct<T>(g: Group<T>, r: T, digest: T -> Digest, endpoint: T -> Endpoint) {
    forall s | s in g.remotes :: s != r && digest(s) != digest(r) && endpoint(s) != endpoint(r)
  }

  // The lookups decide what a scan of the members would: a remote is admitted exactly if it is new
  // and no member has its digest or its endpoint. A refused remote changes nothing.
  lemma AttachDecides<T>(g: Group<T>, r: T, digest: T -> Digest, endpoint: T -> Endpoint)
    requires Indexed(g, digest, endpoint)
    ensures var (g', ok) := Attach(g, r, digest(r), endpoint(r));
            && Indexed(g', digest, endpoint)
            && (ok <==> Distinct(g, r, digest, endpoint))
            && g'.remotes == (if ok then g.remotes + {r} else g.remotes)
            && g'.ready == g.ready
            && (!ok ==> g' == g)
  {
    if Attach(g, r, digest(r), endpoint(r)).1 {
      IndexAdd(g.remotes, g.digests, digest, r);
      IndexAdd(g.remotes, g.endpoints, endpoint, r);
    }
  }

  // Detaching drops exactly that remote and keeps every other member's index entries; detaching a
  // remote that is not a member, such as a refused duplicate, changes nothing.
  lemma DetachDrops<T>(g: Group<T>, r: T, digest: T -> Digest, endpoint: T -> Endpoint)
    requires Indexed(g, digest, endpoint)
    ensures var g' := Detach(g, r, digest(r), endpoint(r));
            && Indexed(g', digest, endpoint)
            && g'.remotes == g.remotes - {r}
            && g'.ready == g.ready - {r}
            && (r !in g.remotes ==> g' == g)
  {
  }

  // Attaching and then detaching an admitted remote restores the group.
  lemma DetachUndoesAttach<T>(g: Group<T>, r: T, d: Digest, e: Endpoint)
    requires Attach(g, r, d, e).1 && g.ready <= g.remotes
    ensures Detach(Attach(g, r, d, e).0, r, d, e) == g
  {
  }
}
