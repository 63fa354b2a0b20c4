/**
  The object `DownloadChunk` with its `ChunkFileBuilder`: the requests, the map of missing bytes and
  the chunk file, updated in place. Every method is tied to a function of ChunkDownload.
 */
module DownloadChunks {
  import opened ByteSpace
  import opened AvailabilityMaps
  import opened ChunkDownload

  class DownloadChunk {
    const fileMap: AvailabilityMap
    const file: array<Byte>
    var requests: seq<Request>
    ghost var accepted: nat

    constructor (modulus: nat, size: nat)
      requires size < modulus
      ensures View() == NewChunk(modulus, size) && Valid()
      ensures fresh(fileMap) && fresh(file)
    {
      fileMap := new AvailabilityMap(modulus, size);
      file := new Byte[size](_ => 0);
      requests := [];
      accepted := 0;
      new;
      NewIsValid(modulus, size);
      assert file[..] == seq(size, _ => 0);
    }

    ghost function View(): Chunk
      reads this, fileMap, file
    {
      Chunk(fileMap.View(), requests, file[..], accepted)
    }

    ghost predicate Valid()
      reads this, fileMap, file
    {
      ChunkInv(View())
    }

    // The map of bytes that are missing and not asked for, built on a copy of the file map.
    method BuildRequestMap() returns (m: AvailabilityMap)
      requires Valid()
      ensures fresh(m) && m.View() == RequestMap(View())
    {
      m := new AvailabilityMap.Copy(fileMap);
      ghost var blocks := Blocks(requests);
      RequestMapExact(View());
      for i := 0 to |requests|
        invariant m.View().modulus == fileMap.View().modulus && m.View().original == fileMap.View().original
        invariant InsertAll(m.View(), blocks[i..]) == InsertAll(fileMap.View(), blocks)
      {
        assert blocks[i..][1..] == blocks[i + 1..];
        var _, _ := m.Insert(requests[i].AsBlock());
      }
    }

    // Ask `remote` for the first bytes that nobody was asked for.
    method RequestBlock(remote: Peer, blockSize: nat, now: int) returns (asked: bool)
      requires Valid()
      modifies this
      ensures Valid()
      ensures View() == Ask(old(View()), remote, blockSize, now)
      ensures asked <==> FreeBytes(old(View()).space) - Union(Blocks(old(requests))) != {}
      ensures !asked ==> requests == old(requests)
      ensures asked ==>
                var r, unasked := requests[0], FreeBytes(old(View()).space) - Union(Blocks(old(requests)));
                && requests == [r] + old(requests) && r.remote == remote && r.started == now
                && r.offset in unasked && (forall x | x in unasked :: r.offset <= x)
                && (forall x | r.offset <= x < r.offset + r.size :: x in unasked)
                && r.size <= blockSize && (r.size == blockSize || r.offset + r.size !in unasked)
    {
      hide ByteSpace.Valid, FreeBytes, Union, Bytes, RequestsOk, FirstOf, Ask, RequestMap, First, Blocks;
      ghost var c := View();
      AskIsNew(c, remote, blockSize, now);
      AskShape(c, remote, blockSize, now);
      RequestMapExact(c);
      var m := BuildRequestMap();
      if m.Full() {
        return false;
      }
      var first := First(m.View());
      requests := [Request(remote, first.value, Min(m.available[first.value], blockSize), now)] + requests;
      FirstOfMeans(requests[0], FreeBytes(c.space) - Union(Blocks(c.requests)), blockSize);
      return true;
    }

    method PutBlock(at: nat, data: seq<Byte>)
      requires ByteSpace.Valid(fileMap.View()) && file.Length == fileMap.sizeOriginal
      requires IsBlock(fileMap.View(), Block(at, |data|)) && !WrapsOntoFree(fileMap.View(), Block(at, |data|))
      modifies fileMap, file, `accepted
      ensures View() == ChunkDownload.PutBlock(old(View()), at, data)
    {
      AcceptedInRange(fileMap.View(), Block(at, |data|));
      hide Insert, ByteSpace.Valid, WrapsOntoFree, Fits, Overwrite, FreeBytes, Bytes;
      var _, inserted := fileMap.Insert(Block(at, |data|));
      if inserted {
        WriteBlock(at, data);
        accepted := accepted + |data|;
      }
    }

    method WriteBlock(at: nat, data: seq<Byte>)
      requires at + |data| <= file.Length
      modifies file
      ensures file[..] == Overwrite(old(file[..]), at, data)
    {
      forall i | at <= i < at + |data| {
        file[i] := data[i - at];
      }
    }

    // The block of the first request still to look at.
    method TakeBlock(ghost todo: seq<Request>, at: nat, data: seq<Byte>) returns (full: bool)
      requires OverInv(View(), todo) && todo != [] && todo[0].offset == at && todo[0].size == |data|
      modifies fileMap, file, `accepted
      ensures View() == ChunkDownload.PutBlock(old(View()), at, data)
      ensures OverInv(View(), todo[1..]) && full == (View().space.left == 0)
    {
      hide Insert;
      ghost var r, post := todo[0], todo[1..];
      assert requests + todo == requests + [r] + post;
      PutBlockOk(View(), r, post, data);
      RequestInRange(View().(requests := requests + [r] + post), |requests|);
      hide ChunkDownload.PutBlock;
      PutBlock(at, data);
      full := fileMap.Full();
    }

    // Goes over the requests; each one that the reply answers is removed and its block is put.
    method HandleReply(at: nat, data: seq<Byte>, from: Peer) returns (completions: nat)
      requires Valid()
      modifies this, fileMap, file
      ensures Valid()
      ensures (View(), completions) == Reply(old(View()), at, data, from)
      ensures forall r :: multiset(requests)[r] ==
                if r.remote == from && r.offset == at && r.size == |data| then 0 else multiset(old(requests))[r]
      ensures var fills := data != [] && exists r | r in old(requests) ::
                r.remote == from && r.offset == at && r.size == |data|;
              file[..] == if fills then Overwrite(old(file[..]), at, data) else old(file[..])
    {
      ghost var c := View();
      assert c.space.modulus > 0;
      hide ChunkInv, Reply, Overwrite;
      ReplyEffect(c, at, data, from);
      completions := GoOver(at, data, from);
      forall r ensures multiset(requests)[r] ==
                       if r.remote == from && r.offset == at && r.size == |data| then 0 else multiset(c.requests)[r]
      {
        ReplyKeeps(c, at, data, from, r);
      }
    }

    method GoOver(at: nat, data: seq<Byte>, from: Peer) returns (completions: nat)
      requires Valid()
      modifies this, fileMap, file
      ensures Valid()
      ensures (View(), completions) == Reply(old(View()), at, data, from)
    {
      OverInvEnds(View());
      hide OverInv, ChunkInv, ChunkDownload.PutBlock, ReplyOver;
      ghost var all := Reply(View(), at, data, from);
      var todo := requests;
      requests := [];
      completions := 0;
      while todo != []
        invariant OverInv(View(), todo) && View().space.modulus > 0
        invariant var (c, n) := ReplyOver(View(), todo, at, data, from); all == (c, n + completions)
        decreases |todo|
      {
        ReplyOverStep(View(), todo, at, data, from);
        if todo[0].Answers(at, |data|, from) {
          var full := TakeBlock(todo, at, data);
          if full {
            completions := completions + 1;
          }
        } else {
          SkipKeepsOverInv(View(), todo);
          requests := requests + [todo[0]];
        }
        todo := todo[1..];
      }
      ReplyOverDone(View(), at, data, from);
      OverInvEnds(View());
    }

    // The requests to `remote` are forgotten when it chokes us or leaves; all others stay.
    method ForgetRemote(remote: Peer)
      requires Valid()
      modifies `requests
      ensures Valid() && View() == old(View()).(requests := Keep(old(requests), (r: Request) => r.remote != remote))
      ensures forall r :: multiset(requests)[r] == if r.remote == remote then 0 else multiset(old(requests))[r]
    {
      var keep := (r: Request) => r.remote != remote;
      KeepOk(fileMap.View(), requests, keep);
      forall r ensures multiset(Keep(requests, keep))[r] == if r.remote == remote then 0 else multiset(requests)[r] {
        KeepCounts(requests, keep, r);
      }
      requests := Keep(requests, keep);
    }

    // The requests that were started too long ago are forgotten; all others stay.
    method PruneRequests(now: int, timeout: int)
      requires Valid()
      modifies `requests
      ensures Valid()
      ensures View() == old(View()).(requests := Keep(old(requests), (r: Request) => !(r.started + timeout < now)))
      ensures forall r :: multiset(requests)[r] ==
                if r.started + timeout < now then 0 else multiset(old(requests))[r]
    {
      KeepOk(fileMap.View(), requests, (r: Request) => !(r.started + timeout < now));
      hide RequestsOk, ByteSpace.Valid;
      KeepRecent(requests, now, timeout);
      requests := Recent(requests, now, timeout);
    }

    static method Recent(all: seq<Request>, now: int, timeout: int) returns (kept: seq<Request>)
      ensures kept == Keep(all, (r: Request) => !(r.started + timeout < now))
    {
      ghost var keep := (r: Request) => !(r.started + timeout < now);
      kept := [];
      for i := 0 to |all|
        invariant kept == Keep(all[..i], keep)
      {
        KeepAppend(all[..i], [all[i]], keep);
        KeepOne(all[i], keep);
        assert all[..i + 1] == all[..i] + [all[i]];
        if !(all[i].started + timeout < now) {
          kept := kept + [all[i]];
        }
      }
      assert all[..|all|] == all;
    }
  }

  lemma FirstOfMeans(r: Request, unasked: set<int>, blockSize: nat)
    requires FirstOf(r, unasked, blockSize)
    ensures r.offset in unasked && (forall x | x in unasked :: r.offset <= x)
    ensures forall x | r.offset <= x < r.offset + r.size :: x in unasked
    ensures r.size <= blockSize && (r.size == blockSize || r.offset + r.size !in unasked)
  {
    var b := r.AsBlock();
    assert forall x: int | b.start <= x < b.start + b.len :: b.Contains(x) && x in Bytes(b);
  }

  lemma KeepRecent(requests: seq<Request>, now: int, timeout: int)
    ensures var kept := Keep(requests, (r: Request) => !(r.started + timeout < now));
            forall r :: multiset(kept)[r] == if r.started + timeout < now then 0 else multiset(requests)[r]
  {
    var keep := (r: Request) => !(r.started + timeout < now);
    forall r ensures multiset(Keep(requests, keep))[r] == if keep(r) then multiset(requests)[r] else 0 {
      KeepCounts(requests, keep, r);
    }
  }

  lemma AcceptedInRange(s: Space, b: Block)
    requires ByteSpace.Valid(s) && IsBlock(s, b) && !WrapsOntoFree(s, b)
    ensures Insert(s, b).1 ==> b.start + b.len <= s.original
  {
    InsertMeetsSpecIff(s, b);
    hide Insert, ByteSpace.Valid, WrapsOntoFree;
  }
}
