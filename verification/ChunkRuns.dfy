/**
  All runs of the download of one chunk: any mix of requests, replies, chokes, departures and timeouts.
 */
module ChunkRuns {
  import opened ByteSpace
  import opened ChunkDownload

  datatype Event =
    | DoAsk(remote: Peer, blockSize: nat, now: int)
    | DoReply(at: nat, data: seq<Byte>, from: Peer)
    | DoKeep(keep: Request -> bool)

  function ChunkNext(c: Chunk, e: Event): Chunk
    requires c.space.modulus > 0
  {
    match e
    case DoAsk(remote, blockSize, now) => Ask(c, remote, blockSize, now)
    case DoReply(at, data, from) => Reply(c, at, data, from).0
    case DoKeep(keep) => c.(requests := Keep(c.requests, keep))
  }

  // How often the chunk is signalled to be downloaded.
  function Completions(c: Chunk, e: Event): nat
    requires c.space.modulus > 0
  {
    if e.DoReply? then Reply(c, e.at, e.data, e.from).1 else 0
  }

  // The states of a run, from a new chunk.
  ghost predicate IsRun(run: seq<Chunk>, events: seq<Event>, modulus: nat, size: nat) {
    && |run| == |events| + 1 && size < modulus && run[0] == NewChunk(modulus, size)
    && forall i | 0 <= i < |events| :: run[i].space.modulus > 0 && run[i + 1] == ChunkNext(run[i], events[i])
  }

  // What an event does to the bytes: those of a reply that fills are written, or nothing is.
  predicate Writes(c: Chunk, e: Event) {
    e.DoReply? && Fills(c, e.at, e.data, e.from)
  }

  lemma NextEffect(c: Chunk, e: Event)
    requires ChunkInv(c) && c.space.modulus > 0
    ensures var c' := ChunkNext(c, e);
            && ChunkInv(c') && c'.space.original == c.space.original && c'.space.modulus == c.space.modulus
            && (if Writes(c, e) then
                  && e.at + |e.data| <= c.space.original && Bytes(Block(e.at, |e.data|)) <= FreeBytes(c.space)
                  && c'.file == Overwrite(c.file, e.at, e.data)
                  && FreeBytes(c'.space) == FreeBytes(c.space) - Bytes(Block(e.at, |e.data|))
                  && c'.space.left == c.space.left - |e.data|
                else c' == c.(requests := c'.requests))
  {
    match e
    case DoAsk(remote, blockSize, now) =>
      AskIsNew(c, remote, blockSize, now);
    case DoReply(at, data, from) =>
      hide ChunkInv, Reply, FreeBytes, Overwrite;
      ReplyEffect(c, at, data, from);
    case DoKeep(keep) =>
      KeepOk(c.space, c.requests, keep);
  }

  // What is left of the requests: exactly those to be kept, and exactly those a reply does not answer.
  lemma LeftRequests(c: Chunk, keep: Request -> bool, at: nat, data: seq<Byte>, from: Peer, r: Request)
    requires c.space.modulus > 0
    ensures multiset(ChunkNext(c, DoKeep(keep)).requests)[r] == if keep(r) then multiset(c.requests)[r] else 0
    ensures multiset(ChunkNext(c, DoReply(at, data, from)).requests)[r] ==
            if r.offset == at && r.size == |data| && r.remote == from then 0 else multiset(c.requests)[r]
  {
    KeepCounts(c.requests, keep, r);
    ReplyKeeps(c, at, data, from, r);
  }

  // A request that is kept can still be answered: its reply is written.
  lemma KeptIsAnswered(c: Chunk, keep: Request -> bool, r: Request, data: seq<Byte>)
    requires ChunkInv(c) && c.space.modulus > 0 && r in c.requests && keep(r) && |data| == r.size > 0
    ensures var c' := ChunkNext(c, DoKeep(keep));
            Writes(c', DoReply(r.offset, data, r.remote)) && c'.file == c.file && c'.space == c.space
  {
    KeepCounts(c.requests, keep, r);
    assert multiset(c.requests)[r] > 0;
    assert r in multiset(Keep(c.requests, keep));
  }

  // What is asked for: the first missing bytes that nobody was asked for, if there are any.
  lemma AskedIsNew(c: Chunk, remote: Peer, blockSize: nat, now: int)
    requires ChunkInv(c) && c.space.modulus > 0
    ensures var c' := ChunkNext(c, DoAsk(remote, blockSize, now));
            var unasked := FreeBytes(c.space) - Union(Blocks(c.requests));
            if unasked == {} then c' == c
            else
              var r := c'.requests[0];
              && c' == c.(requests := [r] + c.requests) && r.remote == remote && r.started == now
              && r.offset in unasked && (forall x | x in unasked :: r.offset <= x) && Bytes(r.AsBlock()) <= unasked
              && r.size <= blockSize && (r.size == blockSize || r.offset + r.size !in unasked)
  {
    AskIsNew(c, remote, blockSize, now);
  }

  lemma NewChunkOk(modulus: nat, size: nat)
    requires size < modulus
    ensures ChunkInv(NewChunk(modulus, size)) && FreeBytes(NewChunk(modulus, size).space) == Bytes(Block(0, size))
  {
    NewIsValid(modulus, size);
  }

  lemma {:induction false} RunOk(run: seq<Chunk>, events: seq<Event>, modulus: nat, size: nat, i: nat)
    requires IsRun(run, events, modulus, size) && i < |run|
    ensures ChunkInv(run[i]) && run[i].space.original == size && run[i].space.modulus == modulus
    decreases i
  {
    if i == 0 {
      NewChunkOk(modulus, size);
    } else {
      hide ChunkInv, ChunkNext;
      RunOk(run, events, modulus, size, i - 1);
      NextEffect(run[i - 1], events[i - 1]);
    }
  }

  // In every run each byte of the chunk is present, asked for once, or not asked for; and the bytes written
  // plus those missing are the size, so none is written twice.
  lemma EveryRun(run: seq<Chunk>, events: seq<Event>, modulus: nat, size: nat, i: nat)
    requires IsRun(run, events, modulus, size) && i < |run|
    ensures Disjoint(Blocks(run[i].requests)) && Union(Blocks(run[i].requests)) <= FreeBytes(run[i].space)
    ensures run[i].accepted + |FreeBytes(run[i].space)| == size
  {
    RunOk(run, events, modulus, size, i);
    var c := run[i];
    forall x | x in Union(Blocks(c.requests)) ensures x in FreeBytes(c.space) {
      var b :| b in Blocks(c.requests) && x in Bytes(b);
    }
  }

  // ---------------------------------------------------------------- the bytes

  // Every byte that is present is the one of `truth`.
  ghost predicate Faithful(c: Chunk, truth: seq<Byte>) {
    |truth| == |c.file| && forall x | 0 <= x < |c.file| && x !in FreeBytes(c.space) :: c.file[x] == truth[x]
  }

  // A reply that is written carries the bytes of `truth`.
  predicate Truthful(c: Chunk, e: Event, truth: seq<Byte>) {
    Writes(c, e) ==> e.at + |e.data| <= |truth| && e.data == truth[e.at..e.at + |e.data|]
  }

  predicate Equals(data: seq<Byte>, truth: seq<Byte>, at: nat)
    requires at + |data| <= |truth|
  {
    data == truth[at..at + |data|]
  }

  lemma TruthfulMeans(c: Chunk, e: Event, truth: seq<Byte>)
    ensures !Writes(c, e) ==> Truthful(c, e, truth)
    ensures Writes(c, e) && e.at + |e.data| <= |truth| ==> (Truthful(c, e, truth) <==> Equals(e.data, truth, e.at))
  {
  }

  lemma WriteFaithfulIff(c: Chunk, c': Chunk, at: nat, data: seq<Byte>, truth: seq<Byte>)
    requires |truth| == |c.file| && at + |data| <= |truth| && Bytes(Block(at, |data|)) <= FreeBytes(c.space)
    requires c'.file == Overwrite(c.file, at, data)
    requires FreeBytes(c'.space) == FreeBytes(c.space) - Bytes(Block(at, |data|))
    ensures Faithful(c', truth) <==> Faithful(c, truth) && Equals(data, truth, at)
  {
    hide FreeBytes;
    var b := Block(at, |data|);
    assert forall x: int :: x in Bytes(b) <==> b.Contains(x);
    if Faithful(c', truth) {
      forall x | 0 <= x < |c.file| && x !in FreeBytes(c.space) ensures c.file[x] == truth[x] {
        assert c'.file[x] == truth[x];
      }
      forall j | 0 <= j < |data| ensures data[j] == truth[at..at + |data|][j] {
        assert c'.file[at + j] == truth[at + j];
      }
    }
  }

  lemma NextFaithfulIff(c: Chunk, e: Event, truth: seq<Byte>)
    requires ChunkInv(c) && c.space.modulus > 0 && |truth| == c.space.original
    ensures Faithful(ChunkNext(c, e), truth) <==> Faithful(c, truth) && Truthful(c, e, truth)
  {
    assert |c.file| == |truth|;
    var c' := ChunkNext(c, e);
    hide ChunkNext, ChunkInv, FreeBytes, Overwrite, Writes, Fills, Bytes, Faithful, Truthful;
    NextEffect(c, e);
    TruthfulMeans(c, e, truth);
    if Writes(c, e) {
      WriteFaithfulIff(c, c', e.at, e.data, truth);
    } else {
      SameBytes(c, c', truth);
    }
  }

  lemma SameBytes(c: Chunk, c': Chunk, truth: seq<Byte>)
    requires c' == c.(requests := c'.requests)
    ensures Faithful(c', truth) <==> Faithful(c, truth)
  {
  }

  lemma {:induction false} RunFaithfulIff(run: seq<Chunk>, events: seq<Event>, modulus: nat, truth: seq<Byte>, i: nat)
    requires IsRun(run, events, modulus, |truth|) && i < |run|
    ensures Faithful(run[i], truth) <==> forall j | 0 <= j < i :: Truthful(run[j], events[j], truth)
    decreases i
  {
    hide Truthful, ChunkNext;
    if i == 0 {
      NewChunkOk(modulus, |truth|);
      assert forall x | 0 <= x < |truth| :: x in Bytes(Block(0, |truth|)) by {
        assert forall x | 0 <= x < |truth| :: Block(0, |truth|).Contains(x);
      }
    } else {
      hide Faithful;
      RunFaithfulIff(run, events, modulus, truth, i - 1);
      RunOk(run, events, modulus, |truth|, i - 1);
      NextFaithfulIff(run[i - 1], events[i - 1], truth);
    }
  }

  // In every run a complete file is the chunk if and only if every reply that was written carried the
  // chunk's bytes.
  lemma CompleteIffTruthful(run: seq<Chunk>, events: seq<Event>, modulus: nat, truth: seq<Byte>, i: nat)
    requires IsRun(run, events, modulus, |truth|) && i < |run| && run[i].space.left == 0
    ensures run[i].file == truth <==> forall j | 0 <= j < i :: Truthful(run[j], events[j], truth)
  {
    hide Truthful, ChunkNext;
    RunFaithfulIff(run, events, modulus, truth, i);
    RunOk(run, events, modulus, |truth|, i);
    assert FreeBytes(run[i].space) == {};
  }

  // ---------------------------------------------------------------- the completion signal

  // A complete chunk gets an answer to a request for no bytes.
  predicate Again(c: Chunk, e: Event) {
    c.space.left == 0 && e.DoReply? && Expected(c.requests, e.at, |e.data|, e.from)
  }

  function Done(c: Chunk): nat {
    if c.space.left == 0 && c.space.original > 0 then 1 else 0
  }

  // An event signals once if it completes the chunk, and besides only in that case.
  lemma NextSignals(c: Chunk, e: Event)
    requires ChunkInv(c) && c.space.modulus > 0
    ensures Completions(c, e) >= Done(ChunkNext(c, e)) - Done(c) >= 0
    ensures Completions(c, e) == Done(ChunkNext(c, e)) - Done(c) <==> !Again(c, e)
  {
    NextEffect(c, e);
    LeftIsFree(c);
    if e.DoReply? {
      ReplyEffect(c, e.at, e.data, e.from);
      hide Reply, ChunkInv, FreeBytes, Overwrite;
      if Fills(c, e.at, e.data, e.from) {
        assert c.space.left >= |e.data| > 0;
      }
    }
  }

  lemma LeftIsFree(c: Chunk)
    requires ChunkInv(c)
    ensures c.space.left <= c.space.original
  {
  }

  function Signals(run: seq<Chunk>, events: seq<Event>, i: nat): nat
    requires i <= |events| <= |run| && forall j | 0 <= j < i :: run[j].space.modulus > 0
  {
    if i == 0 then 0 else Signals(run, events, i - 1) + Completions(run[i - 1], events[i - 1])
  }

  lemma {:induction false} RunSignals(run: seq<Chunk>, events: seq<Event>, modulus: nat, size: nat, i: nat)
    requires IsRun(run, events, modulus, size) && i < |run|
    ensures Signals(run, events, i) >= Done(run[i])
    ensures Signals(run, events, i) == Done(run[i]) <==> forall j | 0 <= j < i :: !Again(run[j], events[j])
    decreases i
  {
    hide Again, ChunkNext, Completions;
    if i > 0 {
      RunSignals(run, events, modulus, size, i - 1);
      RunOk(run, events, modulus, size, i - 1);
      NextSignals(run[i - 1], events[i - 1]);
    }
  }

  // Of a chunk that is kept: the download of one that is not empty has been signalled exactly once if it is
  // complete and never if it is not, if and only if no request for no bytes was answered after completion.
  lemma SignalledOnceIff(run: seq<Chunk>, events: seq<Event>, modulus: nat, size: nat, i: nat)
    requires IsRun(run, events, modulus, size) && i < |run| && size > 0
    ensures Signals(run, events, i) == (if run[i].space.left == 0 then 1 else 0) <==>
              forall j | 0 <= j < i :: !Again(run[j], events[j])
  {
    RunSignals(run, events, modulus, size, i);
    RunOk(run, events, modulus, size, i);
  }

  // Blocks of at least one byte are asked for.
  predicate Positive(events: seq<Event>) {
    forall i | 0 <= i < |events| && events[i].DoAsk? :: events[i].blockSize > 0
  }

  predicate Sized(requests: seq<Request>) {
    forall r | r in requests :: r.size > 0
  }

  lemma NextSized(c: Chunk, e: Event)
    requires ChunkInv(c) && c.space.modulus > 0 && Sized(c.requests) && (e.DoAsk? ==> e.blockSize > 0)
    ensures Sized(ChunkNext(c, e).requests)
  {
    match e
    case DoAsk(remote, blockSize, now) =>
      AskIsNew(c, remote, blockSize, now);
      hide ChunkInv, Ask, FreeBytes, Union;
    case DoReply(at, data, from) => ReplyOverKeeps(c.(requests := []), c.requests, at, data, from);
    case DoKeep(keep) => KeepOk(c.space, c.requests, keep);
  }

  lemma {:induction false} ReplyOverKeeps(c: Chunk, todo: seq<Request>, at: nat, data: seq<Byte>, from: Peer)
    requires c.space.modulus > 0 && Sized(c.requests) && Sized(todo)
    ensures Sized(ReplyOver(c, todo, at, data, from).0.requests)
    decreases |todo|
  {
    hide Insert;
    if todo != [] {
      assert todo[0] in todo && forall r | r in todo[1..] :: r in todo;
      InsertKeepsSize(c.space, Block(at, |data|));
      if todo[0].Answers(at, |data|, from) {
        ReplyOverKeeps(PutBlock(c, at, data), todo[1..], at, data, from);
      } else {
        ReplyOverKeeps(c.(requests := c.requests + [todo[0]]), todo[1..], at, data, from);
      }
    }
  }

  lemma RequestHasFreeByte(c: Chunk, i: nat)
    requires ChunkInv(c) && i < |c.requests| && c.requests[i].size > 0
    ensures c.space.left > 0
  {
    var b := c.requests[i].AsBlock();
    RequestInRange(c, i);
    assert b.Contains(b.start) && b.start in Bytes(b) && b.start in FreeBytes(c.space);
  }

  // A complete chunk has no request for bytes left.
  lemma CompleteHasNoRequest(c: Chunk)
    requires ChunkInv(c) && c.space.left == 0 && Sized(c.requests)
    ensures c.requests == []
  {
    if c.requests != [] {
      RequestHasFreeByte(c, 0);
    }
  }

  lemma {:induction false} RunSized(run: seq<Chunk>, events: seq<Event>, modulus: nat, size: nat, i: nat)
    requires IsRun(run, events, modulus, size) && Positive(events) && i < |run|
    ensures Sized(run[i].requests)
    decreases i
  {
    hide ChunkNext, ChunkInv;
    if i > 0 {
      RunSized(run, events, modulus, size, i - 1);
      RunOk(run, events, modulus, size, i - 1);
      NextSized(run[i - 1], events[i - 1]);
    }
  }

  // With a block size of at least one byte the download is signalled exactly once.
  lemma PositiveSignalsOnce(run: seq<Chunk>, events: seq<Event>, modulus: nat, size: nat, i: nat)
    requires IsRun(run, events, modulus, size) && Positive(events) && i < |run| && size > 0
    ensures Signals(run, events, i) == if run[i].space.left == 0 then 1 else 0
  {
    hide ChunkNext;
    SignalledOnceIff(run, events, modulus, size, i);
    forall j | 0 <= j < i ensures !Again(run[j], events[j]) {
      RunOk(run, events, modulus, size, j);
      RunSized(run, events, modulus, size, j);
      if run[j].space.left == 0 {
        CompleteHasNoRequest(run[j]);
      }
    }
  }

  // An empty chunk has nothing to ask for.
  lemma {:induction false} EmptyNeverAsks(run: seq<Chunk>, events: seq<Event>, modulus: nat, i: nat)
    requires IsRun(run, events, modulus, 0) && i < |run|
    ensures run[i].requests == []
    decreases i
  {
    if i > 0 {
      EmptyNeverAsks(run, events, modulus, i - 1);
      RunOk(run, events, modulus, 0, i - 1);
      var c := run[i - 1];
      assert FreeBytes(c.space) == {};
      if events[i - 1].DoAsk? {
        AskIsNew(c, events[i - 1].remote, events[i - 1].blockSize, events[i - 1].now);
      }
    }
  }

  // The daemon drops the chunk as soon as it is signalled. Until then, in every run and with every block
  // size: an event signals exactly once if it completes a chunk that is not empty, and else never.
  lemma FirstSignal(run: seq<Chunk>, events: seq<Event>, modulus: nat, size: nat, i: nat)
    requires IsRun(run, events, modulus, size) && i < |events| && Signals(run, events, i) == 0
    ensures Completions(run[i], events[i]) == if size > 0 && run[i + 1].space.left == 0 then 1 else 0
  {
    RunSignals(run, events, modulus, size, i);
    RunOk(run, events, modulus, size, i);
    NextEffect(run[i], events[i]);
    NextSignals(run[i], events[i]);
    hide ChunkInv, ChunkNext, Completions, Signals, Writes;
    if size == 0 {
      EmptyNeverAsks(run, events, modulus, i);
    }
  }
}
