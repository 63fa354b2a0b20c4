/**
  Downloading one chunk: the map of missing bytes of the chunk file, the block requests that are
  outstanding, and the file itself.

  This module is the specification of the class in DownloadChunk.dfy; ChunkRuns.dfy is about all runs.
 */
module ChunkDownload {
  import opened Options
  import opened ByteSpace

  type Byte = bv8
  type Peer = nat

  datatype Request = Request(remote: Peer, offset: nat, size: nat, started: int) {
    function AsBlock(): Block {
      Block(offset, size)
    }
    // A reply from `from` with `len` bytes at `at` answers this request.
    predicate Answers(at: nat, len: nat, from: Peer) {
      offset == at && size == len && remote == from
    }
  }

  // `accepted` counts the bytes that were written to the file.
  datatype Chunk = Chunk(space: Space, requests: seq<Request>, file: seq<Byte>, accepted: nat)

  function Blocks(requests: seq<Request>): (r: seq<Block>)
    ensures |r| == |requests| && forall i | 0 <= i < |r| :: r[i] == requests[i].AsBlock()
  {
    seq(|requests|, i requires 0 <= i < |requests| => requests[i].AsBlock())
  }

  function NewChunk(modulus: nat, size: nat): Chunk {
    Chunk(New(modulus, size), [], seq(size, _ => 0), 0)
  }

  // The missing bytes that nobody was asked for.
  function RequestMap(c: Chunk): Space
    requires c.space.modulus > 0
  {
    InsertAll(c.space, Blocks(c.requests))
  }

  function Min(x: nat, y: nat): nat {
    if x < y then x else y
  }

  // The start of the first run.
  function First(s: Space): Option<nat> {
    if 0 in s.runs then Some(0) else FirstAbove(s.runs, 0, s.original)
  }

  function Ask(c: Chunk, remote: Peer, blockSize: nat, now: int): Chunk
    requires c.space.modulus > 0
  {
    var free := RequestMap(c);
    if free.left == 0 || First(free).None? then c else
    var k := First(free).value;
    c.(requests := [Request(remote, k, Min(free.runs[k], blockSize), now)] + c.requests)
  }

  // Write `data` at `at`.
  function Overwrite(file: seq<Byte>, at: nat, data: seq<Byte>): (r: seq<Byte>)
    ensures |r| == |file|
    ensures forall i | 0 <= i < |file| :: r[i] == if at <= i < at + |data| then data[i - at] else file[i]
  {
    seq(|file|, i requires 0 <= i < |file| => if at <= i < at + |data| then data[i - at] else file[i])
  }

  function PutBlock(c: Chunk, at: nat, data: seq<Byte>): Chunk
    requires c.space.modulus > 0
  {
    var (s, ok) := Insert(c.space, Block(at, |data|));
    if ok then c.(space := s, file := Overwrite(c.file, at, data), accepted := c.accepted + |data|) else c
  }

  // Handle a reply while going over the requests `todo`; `c.requests` holds those already kept.
  // The second result counts the completions that are signalled.
  function ReplyOver(c: Chunk, todo: seq<Request>, at: nat, data: seq<Byte>, from: Peer): (Chunk, nat)
    requires c.space.modulus > 0
    decreases |todo|
  {
    if todo == [] then (c, 0)
    else if todo[0].Answers(at, |data|, from) then
      var c' := PutBlock(c, at, data);
      var (r, n) := ReplyOver(c', todo[1..], at, data, from);
      (r, n + if c'.space.left == 0 then 1 else 0)
    else ReplyOver(c.(requests := c.requests + [todo[0]]), todo[1..], at, data, from)
  }

  lemma ReplyOverStep(c: Chunk, todo: seq<Request>, at: nat, data: seq<Byte>, from: Peer)
    requires c.space.modulus > 0 && todo != []
    ensures var hit := todo[0].Answers(at, |data|, from);
            var c' := if hit then PutBlock(c, at, data) else c.(requests := c.requests + [todo[0]]);
            var (r, n) := ReplyOver(c', todo[1..], at, data, from);
            ReplyOver(c, todo, at, data, from) == (r, n + if hit && c'.space.left == 0 then 1 else 0)
  {
  }

  lemma ReplyOverDone(c: Chunk, at: nat, data: seq<Byte>, from: Peer)
    requires c.space.modulus > 0
    ensures ReplyOver(c, [], at, data, from) == (c, 0)
  {
  }

  function Reply(c: Chunk, at: nat, data: seq<Byte>, from: Peer): (Chunk, nat)
    requires c.space.modulus > 0
  {
    ReplyOver(c.(requests := []), c.requests, at, data, from)
  }

  // Forget the requests that are not to be kept: of a peer that choked us or left, or timed out.
  function Keep(requests: seq<Request>, keep: Request -> bool): (r: seq<Request>) {
    if requests == [] then [] else (if keep(requests[0]) then [requests[0]] else []) + Keep(requests[1..], keep)
  }

  // ---------------------------------------------------------------- the invariant

  // No byte is both asked for and present, and none is asked for twice.
  ghost predicate RequestsOk(s: Space, requests: seq<Request>) {
    && (forall i | 0 <= i < |requests| ::
          requests[i].offset + requests[i].size <= s.original && Bytes(requests[i].AsBlock()) <= FreeBytes(s))
    && (forall i, j | 0 <= i < j < |requests| :: Bytes(requests[i].AsBlock()) !! Bytes(requests[j].AsBlock()))
  }

  ghost predicate ChunkInv(c: Chunk) {
    && Valid(c.space)
    && |c.file| == c.space.original
    && c.accepted + c.space.left == c.space.original
    && RequestsOk(c.space, c.requests)
  }

  // The invariant while the requests `todo` are still to be looked at.
  ghost predicate OverInv(c: Chunk, todo: seq<Request>) {
    ChunkInv(c.(requests := c.requests + todo))
  }

  lemma OverInvEnds(c: Chunk)
    ensures ChunkInv(c) ==> OverInv(c.(requests := []), c.requests) && c.space.modulus > 0
    ensures OverInv(c, []) ==> ChunkInv(c)
  {
    assert [] + c.requests == c.requests && c.requests + [] == c.requests;
  }

  lemma SkipKeepsOverInv(c: Chunk, todo: seq<Request>)
    requires OverInv(c, todo) && todo != []
    ensures OverInv(c.(requests := c.requests + [todo[0]]), todo[1..])
  {
    hide ChunkInv;
    assert c.requests + todo == c.requests + [todo[0]] + todo[1..];
  }

  // ---------------------------------------------------------------- asking

  // What the request map leaves is missing and not asked for.
  lemma RequestMapExact(c: Chunk)
    requires ChunkInv(c)
    ensures var free := RequestMap(c);
            && Valid(free) && free.original == c.space.original
            && FreeBytes(free) == FreeBytes(c.space) - Union(Blocks(c.requests))
  {
    var blocks := Blocks(c.requests);
    forall x | x in Union(blocks) ensures x in FreeBytes(c.space) {
      var b :| b in blocks && x in Bytes(b);
    }
    DisjointCover(c.space, blocks);
  }

  lemma FirstIsLeast(s: Space)
    requires Valid(s) && s.left > 0
    ensures First(s).Some? && First(s).value in s.runs && First(s).value in FreeBytes(s)
    ensures forall x | x in FreeBytes(s) :: First(s).value <= x
    ensures var k := First(s).value;
            s.runs[k] > 0 && k + s.runs[k] <= s.original && Bytes(Block(k, s.runs[k])) <= FreeBytes(s)
  {
  }

  // `r` is for the first bytes of `unasked`, and for as many as there are in a row and the block size allows.
  ghost predicate FirstOf(r: Request, unasked: set<int>, blockSize: nat) {
    && Bytes(r.AsBlock()) <= unasked
    && r.offset in unasked && (forall x | x in unasked :: r.offset <= x)
    && r.size <= blockSize && (r.size == blockSize || r.offset + r.size !in unasked)
  }

  // A new request is for bytes that are missing and that nobody was asked for, starting with the first
  // one, and for as many as there are in a row and the block size allows; there is none only if every
  // missing byte is already asked for.
  lemma AskIsNew(c: Chunk, remote: Peer, blockSize: nat, now: int)
    requires ChunkInv(c)
    ensures var c' := Ask(c, remote, blockSize, now);
            var unasked := FreeBytes(c.space) - Union(Blocks(c.requests));
            && ChunkInv(c')
            && (unasked == {} ==> c' == c)
            && (unasked != {} ==>
                  var r := c'.requests[0];
                  && c' == c.(requests := [r] + c.requests) && r.remote == remote && r.started == now
                  && FirstOf(r, unasked, blockSize))
  {
    assert c.space.modulus > 0;
    hide RequestMap, Ask, FreeBytes, Valid, First, Union, Bytes, RequestsOk, FirstOf;
    RequestMapExact(c);
    AskShape(c, remote, blockSize, now);
    var free, c' := RequestMap(c), Ask(c, remote, blockSize, now);
    if free.left > 0 {
      var r := c'.requests[0];
      FirstRequest(free, r, blockSize);
      AddRequest(c.space, r, c.requests) by { FirstOfBytes(r, FreeBytes(free), blockSize); }
    }
  }

  lemma FirstOfBytes(r: Request, unasked: set<int>, blockSize: nat)
    requires FirstOf(r, unasked, blockSize)
    ensures Bytes(r.AsBlock()) <= unasked
  {
  }

  lemma FirstRequest(free: Space, r: Request, blockSize: nat)
    requires Valid(free) && free.left > 0 && First(free).Some? && First(free).value in free.runs
    requires r.offset == First(free).value && r.size == Min(free.runs[r.offset], blockSize)
    ensures FirstOf(r, FreeBytes(free), blockSize) && r.offset + r.size <= free.original
  {
    FirstIsLeast(free);
    PartOfRun(free, r.offset, r.size);
    RunEnds(free, r.offset);
    hide FreeBytes, Valid, First, Bytes;
  }

  lemma AskShape(c: Chunk, remote: Peer, blockSize: nat, now: int)
    requires ChunkInv(c)
    ensures var free, c' := RequestMap(c), Ask(c, remote, blockSize, now);
            && (free.left == 0 <==> FreeBytes(free) == {})
            && (free.left == 0 ==> c' == c)
            && (free.left > 0 ==>
                  var k := First(free).value;
                  && First(free).Some? && k in free.runs
                  && c' == c.(requests := [Request(remote, k, Min(free.runs[k], blockSize), now)] + c.requests))
  {
    RequestMapExact(c);
    var free := RequestMap(c);
    assert free.left == |FreeBytes(free)|;
    hide RequestMap, FreeBytes, Valid;
    if free.left > 0 {
      FirstIsLeast(free);
    }
  }

  lemma RunEnds(s: Space, k: nat)
    requires Valid(s) && s.left > 0 && k in s.runs
    ensures k + s.runs[k] !in FreeBytes(s)
  {
    if s.original > 0 {
      NotFreeBehindRun(s.runs, k);
    }
  }

  lemma PartOfRun(s: Space, k: nat, len: nat)
    requires k in s.runs && len <= s.runs[k] && Bytes(Block(k, s.runs[k])) <= FreeBytes(s)
    ensures Bytes(Block(k, len)) <= FreeBytes(s)
  {
    hide FreeBytes;
    assert forall x | x in Bytes(Block(k, len)) :: x in Bytes(Block(k, s.runs[k]));
  }

  lemma AddRequest(s: Space, r: Request, requests: seq<Request>)
    requires RequestsOk(s, requests) && r.offset + r.size <= s.original
    requires Bytes(r.AsBlock()) <= FreeBytes(s) - Union(Blocks(requests))
    ensures RequestsOk(s, [r] + requests)
  {
  }

  // ---------------------------------------------------------------- replies

  // Once the block of one request is in, the other requests are still good.
  lemma AnswerRequest(s: Space, pre: seq<Request>, r: Request, post: seq<Request>)
    requires Valid(s) && RequestsOk(s, pre + [r] + post)
    ensures var (s', ok) := Insert(s, r.AsBlock());
            && Valid(s') && s'.original == s.original && s'.modulus == s.modulus && (ok <==> r.size > 0)
            && FreeBytes(s') == FreeBytes(s) - Bytes(r.AsBlock()) && s'.left == s.left - r.size
            && RequestsOk(s', pre + post)
  {
    var all, rest, i := pre + [r] + post, pre + post, |pre|;
    assert all[i] == r;
    TakeFree(s, r.AsBlock());
    forall j | 0 <= j < |rest|
      ensures exists k :: 0 <= k < |all| && k != i && rest[j] == all[k] && k == if j < i then j else j + 1
    {
      assert rest[j] == all[if j < i then j else j + 1];
    }
    RestIsOk(s, Insert(s, r.AsBlock()).0, all, i, rest);
  }

  lemma RestIsOk(s: Space, s': Space, all: seq<Request>, i: nat, rest: seq<Request>)
    requires RequestsOk(s, all) && i < |all| && |rest| == |all| - 1 && s'.original == s.original
    requires forall j | 0 <= j < |rest| :: rest[j] == all[if j < i then j else j + 1]
    requires FreeBytes(s') == FreeBytes(s) - Bytes(all[i].AsBlock())
    ensures RequestsOk(s', rest)
  {
  }

  // One matching request: its block is accepted and written.
  lemma PutBlockOk(c: Chunk, r: Request, post: seq<Request>, data: seq<Byte>)
    requires ChunkInv(c.(requests := c.requests + [r] + post)) && r.size == |data|
    ensures var c' := PutBlock(c, r.offset, data);
            && ChunkInv(c'.(requests := c.requests + post)) && c'.requests == c.requests
            && c'.space.left == c.space.left - |data|
            && c'.space.modulus == c.space.modulus && c'.space.original == c.space.original
            && FreeBytes(c'.space) == FreeBytes(c.space) - Bytes(r.AsBlock())
            && (data != [] ==> c'.file == Overwrite(c.file, r.offset, data) && c'.accepted == c.accepted + |data|)
            && (data == [] ==> c' == c)
  {
    hide Insert;
    AnswerRequest(c.space, c.requests, r, post);
  }

  // Whether some request is answered.
  predicate Expected(requests: seq<Request>, at: nat, len: nat, from: Peer) {
    exists r | r in requests :: r.Answers(at, len, from)
  }

  lemma {:induction false} ReplyOverOk(c: Chunk, todo: seq<Request>, at: nat, data: seq<Byte>, from: Peer)
    requires ChunkInv(c.(requests := c.requests + todo))
    ensures var c' := ReplyOver(c, todo, at, data, from).0;
            ChunkInv(c') && c'.space.original == c.space.original && c'.space.modulus == c.space.modulus
    decreases |todo|
  {
    hide Insert;
    if todo == [] {
      assert c.requests + todo == c.requests;
    } else {
      var r, post := todo[0], todo[1..];
      assert c.requests + todo == c.requests + [r] + post;
      if r.Answers(at, |data|, from) {
        PutBlockOk(c, r, post, data);
        ReplyOverOk(PutBlock(c, at, data), post, at, data, from);
      } else {
        ReplyOverOk(c.(requests := c.requests + [r]), post, at, data, from);
      }
    }
  }

  lemma {:induction false} ReplyOverIgnores(c: Chunk, todo: seq<Request>, at: nat, data: seq<Byte>, from: Peer)
    requires c.space.modulus > 0 && !Expected(todo, at, |data|, from)
    ensures ReplyOver(c, todo, at, data, from) == (c.(requests := c.requests + todo), 0)
    decreases |todo|
  {
    if todo == [] {
      assert c.requests + todo == c.requests;
    } else {
      assert todo[0] in todo && forall q | q in todo[1..] :: q in todo;
      ReplyOverIgnores(c.(requests := c.requests + [todo[0]]), todo[1..], at, data, from);
      assert c.requests + [todo[0]] + todo[1..] == c.requests + todo;
    }
  }

  // No two outstanding requests can be answered by the same bytes.
  lemma AnswersOnce(s: Space, requests: seq<Request>, i: nat, j: nat, at: nat, len: nat, from: Peer)
    requires RequestsOk(s, requests) && i < j < |requests| && len > 0
    requires requests[i].Answers(at, len, from)
    ensures !requests[j].Answers(at, len, from)
  {
    assert Block(at, len).Contains(at);
    assert at in Bytes(requests[i].AsBlock());
  }

  lemma NoMoreAnswers(s: Space, pre: seq<Request>, r: Request, post: seq<Request>, at: nat, len: nat, from: Peer)
    requires RequestsOk(s, pre + [r] + post) && len > 0 && r.Answers(at, len, from)
    ensures !Expected(post, at, len, from)
  {
    var all := pre + [r] + post;
    forall q | q in post ensures !q.Answers(at, len, from) {
      var j :| 0 <= j < |post| && post[j] == q;
      assert all[|pre|] == r && all[|pre| + j + 1] == q;
      AnswersOnce(s, all, |pre|, |pre| + j + 1, at, len, from);
    }
  }

  lemma ReplyOverHead(c: Chunk, todo: seq<Request>, at: nat, data: seq<Byte>, from: Peer)
    requires ChunkInv(c.(requests := c.requests + todo)) && data != []
    requires todo != [] && todo[0].Answers(at, |data|, from)
    ensures var c' := PutBlock(c, at, data);
            && c'.space.modulus > 0
            && ReplyOver(c, todo, at, data, from) ==
               (c'.(requests := c.requests + todo[1..]), if c'.space.left == 0 then 1 else 0)
  {
    hide Insert;
    var r, post := todo[0], todo[1..];
    assert c.requests + [r] + post == c.requests + todo;
    NoMoreAnswers(c.space, c.requests, r, post, at, |data|, from);
    PutBlockOk(c, r, post, data);
    ReplyOverIgnores(PutBlock(c, at, data), post, at, data, from);
  }

  lemma {:induction false} ReplyOverTakes(c: Chunk, todo: seq<Request>, at: nat, data: seq<Byte>, from: Peer, i: nat)
    requires c.space.modulus > 0 && ChunkInv(c.(requests := c.requests + todo)) && data != []
    requires i < |todo| && todo[i].Answers(at, |data|, from)
               && forall j | 0 <= j < i :: !todo[j].Answers(at, |data|, from)
    ensures ReplyOver(c, todo, at, data, from) ==
            (PutBlock(c, at, data).(requests := c.requests + todo[..i] + todo[i + 1..]),
             if PutBlock(c, at, data).space.left == 0 then 1 else 0)
    decreases |todo|
  {
    hide ChunkInv, Insert;
    if i == 0 {
      ReplyOverHead(c, todo, at, data, from);
      assert c.requests + todo[..0] + todo[1..] == c.requests + todo[1..];
    } else {
      var r, post := todo[0], todo[1..];
      assert c.requests + [r] + post == c.requests + todo;
      ReplyOverTakes(c.(requests := c.requests + [r]), post, at, data, from, i - 1);
      assert [r] + post[..i - 1] == todo[..i] && post[i..] == todo[i + 1..];
      assert c.requests + [r] + post[..i - 1] == c.requests + todo[..i];
    }
  }

  // A reply that answers no request changes nothing.
  lemma ReplyIgnores(c: Chunk, at: nat, data: seq<Byte>, from: Peer)
    requires c.space.modulus > 0 && !Expected(c.requests, at, |data|, from)
    ensures Reply(c, at, data, from) == (c, 0)
  {
    ReplyOverIgnores(c.(requests := []), c.requests, at, data, from);
    assert [] + c.requests == c.requests;
  }

  // One that answers a request with bytes is accepted and written, removes exactly that request,
  // and signals completion exactly if no byte is missing any more.
  lemma ReplyTakes(c: Chunk, at: nat, data: seq<Byte>, from: Peer) returns (i: nat)
    requires c.space.modulus > 0 && ChunkInv(c) && Expected(c.requests, at, |data|, from) && data != []
    ensures i < |c.requests| && c.requests[i].Answers(at, |data|, from)
    ensures var (c', n) := Reply(c, at, data, from);
            && ChunkInv(c')
            && c'.requests == c.requests[..i] + c.requests[i + 1..]
            && c'.file == Overwrite(c.file, at, data) && c'.accepted == c.accepted + |data|
            && FreeBytes(c'.space) == FreeBytes(c.space) - Bytes(Block(at, |data|))
            && c'.space.left == c.space.left - |data|
            && n == if c'.space.left == 0 then 1 else 0
  {
    hide ChunkInv, Insert, ReplyOver, Overwrite, PutBlock;
    assert [] + c.requests == c.requests;
    i := FirstAnswered(c.requests, at, |data|, from);
    ReplyOverTakes(c.(requests := []), c.requests, at, data, from, i);
    assert [] + c.requests[..i] == c.requests[..i];
    TakeOk(c, i, at, data, from);
  }

  lemma TakeOk(c: Chunk, i: nat, at: nat, data: seq<Byte>, from: Peer)
    requires c.space.modulus > 0 && ChunkInv(c) && data != []
    requires i < |c.requests| && c.requests[i].Answers(at, |data|, from)
    ensures var c' := PutBlock(c.(requests := []), at, data).(requests := c.requests[..i] + c.requests[i + 1..]);
            && ChunkInv(c')
            && c'.file == Overwrite(c.file, at, data) && c'.accepted == c.accepted + |data|
            && FreeBytes(c'.space) == FreeBytes(c.space) - Bytes(Block(at, |data|))
            && c'.space.left == c.space.left - |data|
  {
    hide ChunkInv, Insert, Overwrite;
    var pre, r, post := c.requests[..i], c.requests[i], c.requests[i + 1..];
    assert c.requests == pre + [r] + post;
    assert PutBlock(c.(requests := pre), at, data) == PutBlock(c.(requests := []), at, data).(requests := pre);
    PutBlockOk(c.(requests := pre), r, post, data);
  }

  lemma {:induction false} FirstAnswered(requests: seq<Request>, at: nat, len: nat, from: Peer) returns (i: nat)
    requires Expected(requests, at, len, from)
    ensures i < |requests| && requests[i].Answers(at, len, from)
    ensures forall j | 0 <= j < i :: !requests[j].Answers(at, len, from)
    decreases |requests|
  {
    if requests[0].Answers(at, len, from) {
      i := 0;
    } else {
      var r :| r in requests && r.Answers(at, len, from);
      assert r in requests[1..];
      i := FirstAnswered(requests[1..], at, len, from);
      i := i + 1;
      assert forall j | 0 < j < i :: requests[j] == requests[1..][j - 1];
    }
  }

  // Exactly the requests to be kept are kept, each as often as it was there.
  lemma {:induction false} KeepCounts(requests: seq<Request>, keep: Request -> bool, r: Request)
    ensures multiset(Keep(requests, keep))[r] == if keep(r) then multiset(requests)[r] else 0
    decreases |requests|
  {
    if requests != [] {
      KeepCounts(requests[1..], keep, r);
      assert requests == [requests[0]] + requests[1..];
    }
  }

  // And they keep their order.
  lemma {:induction false} KeepAppend(a: seq<Request>, b: seq<Request>, keep: Request -> bool)
    ensures Keep(a + b, keep) == Keep(a, keep) + Keep(b, keep)
    decreases |a|
  {
    if a == [] {
      assert a + b == b;
    } else {
      KeepFirst(a + b, keep);
      KeepFirst(a, keep);
      assert (a + b)[1..] == a[1..] + b && (a + b)[0] == a[0];
      KeepAppend(a[1..], b, keep);
      var first := if keep(a[0]) then [a[0]] else [];
      hide Keep;
      Associative(first, Keep(a[1..], keep), Keep(b, keep));
    }
  }

  lemma KeepFirst(requests: seq<Request>, keep: Request -> bool)
    requires requests != []
    ensures Keep(requests, keep) == (if keep(requests[0]) then [requests[0]] else []) + Keep(requests[1..], keep)
  {
  }

  lemma Associative(a: seq<Request>, b: seq<Request>, c: seq<Request>)
    ensures a + (b + c) == a + b + c
  {
  }

  lemma KeepOne(r: Request, keep: Request -> bool)
    ensures Keep([r], keep) == if keep(r) then [r] else []
  {
    assert [r][1..] == [];
  }

  // A reply removes exactly the requests that it answers.
  lemma {:induction false} ReplyOverKeep(c: Chunk, todo: seq<Request>, at: nat, data: seq<Byte>, from: Peer)
    requires c.space.modulus > 0
    ensures ReplyOver(c, todo, at, data, from).0.requests ==
            c.requests + Keep(todo, (r: Request) => !(r.offset == at && r.size == |data| && r.remote == from))
    decreases |todo|
  {
    hide Insert;
    if todo == [] {
      assert c.requests + [] == c.requests;
    } else {
      var keep := (r: Request) => !(r.offset == at && r.size == |data| && r.remote == from);
      ReplyOverStep(c, todo, at, data, from);
      var rest := Keep(todo[1..], keep);
      if keep(todo[0]) {
        ReplyOverKeep(c.(requests := c.requests + [todo[0]]), todo[1..], at, data, from);
        assert c.requests + [todo[0]] + rest == c.requests + ([todo[0]] + rest);
      } else {
        InsertKeepsSize(c.space, Block(at, |data|));
        ReplyOverKeep(PutBlock(c, at, data), todo[1..], at, data, from);
        assert [] + rest == rest;
      }
    }
  }

  lemma ReplyKeeps(c: Chunk, at: nat, data: seq<Byte>, from: Peer, r: Request)
    requires c.space.modulus > 0
    ensures multiset(Reply(c, at, data, from).0.requests)[r] ==
            if r.offset == at && r.size == |data| && r.remote == from then 0 else multiset(c.requests)[r]
  {
    var keep := (q: Request) => !(q.offset == at && q.size == |data| && q.remote == from);
    ReplyOverKeep(c.(requests := []), c.requests, at, data, from);
    assert [] + Keep(c.requests, keep) == Keep(c.requests, keep);
    KeepCounts(c.requests, keep, r);
  }

  lemma {:induction false} KeepOk(s: Space, requests: seq<Request>, keep: Request -> bool)
    requires RequestsOk(s, requests)
    ensures RequestsOk(s, Keep(requests, keep))
    ensures forall r | r in Keep(requests, keep) :: r in requests && keep(r)
    decreases |requests|
  {
    if requests != [] {
      var r, rest := requests[0], requests[1..];
      assert forall i | 0 <= i < |rest| :: rest[i] == requests[i + 1];
      KeepOk(s, rest, keep);
      if keep(r) {
        KeepHead(s, r, Keep(rest, keep), requests);
      } else {
        assert [] + Keep(rest, keep) == Keep(rest, keep);
      }
    }
  }

  lemma KeepHead(s: Space, r: Request, kept: seq<Request>, requests: seq<Request>)
    requires RequestsOk(s, requests) && requests != [] && r == requests[0] && RequestsOk(s, kept)
    requires forall q | q in kept :: q in requests[1..]
    ensures RequestsOk(s, [r] + kept)
  {
    var all := [r] + kept;
    forall i, j | 0 <= i < j < |all| ensures Bytes(all[i].AsBlock()) !! Bytes(all[j].AsBlock()) {
      assert all[j] == kept[j - 1];
      if i == 0 {
        assert kept[j - 1] in requests[1..];
        var k :| 0 <= k < |requests[1..]| && requests[1..][k] == kept[j - 1];
        assert requests[k + 1] == all[j];
      } else {
        assert all[i] == kept[i - 1];
      }
    }
  }

  // ---------------------------------------------------------------- what a reply does

  lemma EmptyRefused(s: Space, at: nat)
    requires s.modulus > 0
    ensures Insert(s, Block(at, 0)) == (s, false)
  {
  }

  // An empty reply writes nothing; it signals completion for each request it answers if the chunk is complete.
  lemma {:induction false} ReplyOverEmpty(c: Chunk, todo: seq<Request>, at: nat, from: Peer)
    requires c.space.modulus > 0
    ensures var (c', n) := ReplyOver(c, todo, at, [], from);
            && c' == c.(requests := c'.requests)
            && (n > 0 <==> c.space.left == 0 && Expected(todo, at, 0, from))
    decreases |todo|
  {
    hide Insert;
    if todo != [] {
      EmptyRefused(c.space, at);
      assert forall r | r in todo :: r == todo[0] || r in todo[1..];
      assert todo[0] in todo && forall r | r in todo[1..] :: r in todo;
      if todo[0].Answers(at, 0, from) {
        assert PutBlock(c, at, []) == c && Expected(todo, at, 0, from);
        ReplyOverStep(c, todo, at, [], from);
        ReplyOverEmpty(c, todo[1..], at, from);
        var n, rest := ReplyOver(c, todo, at, [], from).1, ReplyOver(c, todo[1..], at, [], from).1;
        assert n == rest + if c.space.left == 0 then 1 else 0;
      } else {
        ReplyOverEmpty(c.(requests := c.requests + [todo[0]]), todo[1..], at, from);
      }
    }
  }

  // A reply with bytes to an outstanding request: to its remote's, at its offset, and of its size.
  predicate Fills(c: Chunk, at: nat, data: seq<Byte>, from: Peer) {
    data != [] && exists r | r in c.requests :: r.remote == from && r.offset == at && r.size == |data|
  }

  // All that a reply does: its bytes are written where they were missing, or nothing but requests changes.
  // Completion is signalled if it becomes complete, and again for empty replies once it is.
  lemma ReplyEffect(c: Chunk, at: nat, data: seq<Byte>, from: Peer)
    requires ChunkInv(c) && c.space.modulus > 0
    ensures var (c', n) := Reply(c, at, data, from);
            && ChunkInv(c') && c'.space.original == c.space.original && c'.space.modulus == c.space.modulus
            && (if Fills(c, at, data, from) then
                  && at + |data| <= c.space.original && Bytes(Block(at, |data|)) <= FreeBytes(c.space)
                  && c'.file == Overwrite(c.file, at, data)
                  && FreeBytes(c'.space) == FreeBytes(c.space) - Bytes(Block(at, |data|))
                  && c'.space.left == c.space.left - |data|
                  && n == (if c'.space.left == 0 then 1 else 0)
                else
                  && c' == c.(requests := c'.requests)
                  && (n > 0 <==> c.space.left == 0 && Expected(c.requests, at, |data|, from)))
  {
    assert [] + c.requests == c.requests;
    assert Fills(c, at, data, from) <==> data != [] && Expected(c.requests, at, |data|, from);
    ReplyOverOk(c.(requests := []), c.requests, at, data, from);
    hide ReplyOver, Overwrite;
    if Fills(c, at, data, from) {
      var i := ReplyTakes(c, at, data, from);
      RequestInRange(c, i);
    } else if data == [] {
      ReplyOverEmpty(c.(requests := []), c.requests, at, from);
    } else {
      ReplyIgnores(c, at, data, from);
    }
  }

  lemma RequestInRange(c: Chunk, i: nat)
    requires ChunkInv(c) && i < |c.requests|
    ensures var b := c.requests[i].AsBlock();
            b.start + b.len <= c.space.original < c.space.modulus && Bytes(b) <= FreeBytes(c.space)
  {
  }
}
