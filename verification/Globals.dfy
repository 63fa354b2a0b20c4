/**
  The global settings: user values over defaults, the change signals, and the mirrors that fold the
  signals into maps of their own.

  A setting that is absent and one that is null read the same. The functions are the specification
  of the methods of `Config` and `RemoteConfig`.
 */
module Globals {
  import opened KeyLists

  datatype Value = Null | Bool(b: bool) | Number(n: int) | Text(s: string) | Array(items: seq<Value>)

  type Object = map<string, Value>

  function Lookup(o: Object, k: string): (v: Value)
    ensures k in o ==> v == o[k]
    ensures k !in o ==> v == Null
  {
    if k in o then o[k] else Null
  }

  // Every key of either, the custom value first.
  function Merged(custom: Object, defaults: Object): Object {
    map k | k in custom.Keys + defaults.Keys :: if k in custom then custom[k] else defaults[k]
  }

  lemma MergedIs(custom: Object, defaults: Object, k: string)
    ensures k in Merged(custom, defaults) <==> k in custom || k in defaults
    ensures Lookup(Merged(custom, defaults), k) == if k in custom then custom[k] else Lookup(defaults, k)
  {
  }

  datatype Settings = Settings(custom: Object, defaults: Object) {
    function Get(k: string): Value {
      if k in custom then custom[k] else Lookup(defaults, k)
    }
  }

  datatype Signal = Changed(key: string, value: Value)

  // What is set or what a document sets; `keys` lists the keys of the old and of the new document,
  // in whatever order and with whatever repetitions the listing has.
  datatype Op = Set(k: string, v: Value) | Remove(k: string) | Import(doc: Object, keys: seq<string>)

  predicate Lists(keys: seq<string>, a: Object, b: Object) {
    && (forall k | k in keys :: k in a || k in b)
    && (forall k | k in a :: k in keys)
    && (forall k | k in b :: k in keys)
  }

  predicate Enabled(s: Settings, op: Op) {
    op.Import? ==> Lists(op.keys, s.custom, op.doc)
  }

  function Apply(s: Settings, op: Op): Settings {
    match op
    case Set(k, v) => s.(custom := s.custom[k := v])
    case Remove(k) => s.(custom := s.custom - {k})
    case Import(doc, _) => s.(custom := doc)
  }

  // One signal per listed key, with the value it has now.
  function Announce(s: Settings, keys: seq<string>): (r: seq<Signal>)
    ensures |r| == |keys| && forall i | 0 <= i < |r| :: r[i] == Changed(keys[i], s.Get(keys[i]))
  {
    seq(|keys|, i requires 0 <= i < |keys| => Changed(keys[i], s.Get(keys[i])))
  }

  function Signals(s: Settings, op: Op): seq<Signal> {
    match op
    case Set(k, v) => [Changed(k, v)]
    case Remove(k) => [Changed(k, Apply(s, op).Get(k))]
    case Import(_, keys) => Announce(Apply(s, op), keys)
  }

  // What reads differently after an operation.
  lemma GetAfter(s: Settings, op: Op, k: string)
    ensures var default := Lookup(s.defaults, k);
            && Apply(s, op).defaults == s.defaults
            && match op
               case Set(j, v) => Apply(s, op).Get(k) == if k == j then v else s.Get(k)
               case Remove(j) => Apply(s, op).Get(k) == if k == j then default else s.Get(k)
               case Import(doc, _) => Apply(s, op).Get(k) == if k in doc then doc[k] else default
  {
  }

  // What is told of an operation: the keys it names, in order, each with its new value.
  lemma SignalsAre(s: Settings, op: Op, i: nat)
    requires i < |Signals(s, op)|
    ensures match op
            case Set(k, v) => Signals(s, op) == [Changed(k, v)]
            case Remove(k) => Signals(s, op) == [Changed(k, Lookup(s.defaults, k))]
            case Import(doc, keys) =>
              |Signals(s, op)| == |keys| &&
              var k := keys[i];
              Signals(s, op)[i] == Changed(k, if k in doc then doc[k] else Lookup(s.defaults, k))
  {
  }

  function Fold(m: Object, signals: seq<Signal>): Object
    decreases |signals|
  {
    if signals == [] then m else Fold(m[signals[0].key := signals[0].value], signals[1..])
  }

  // The map reads the same as the settings at every key.
  ghost predicate Agrees(m: Object, s: Settings) {
    forall k: string :: Lookup(m, k) == s.Get(k)
  }

  // ---------------------------------------------------------------- folding signals

  // After signals that all tell the current value: the told keys are up to date, the others as before.
  lemma {:induction false} FoldTells(m: Object, signals: seq<Signal>, s: Settings, k: string)
    requires forall x | x in signals :: x.value == s.Get(x.key)
    ensures Lookup(Fold(m, signals), k) == if exists x | x in signals :: x.key == k then s.Get(k) else Lookup(m, k)
    decreases |signals|
  {
    if signals != [] {
      var x, rest := signals[0], signals[1..];
      assert x in signals && forall y | y in rest :: y in signals;
      assert forall y | y in signals :: y == x || y in rest;
      FoldTells(m[x.key := x.value], rest, s, k);
    }
  }

  lemma {:induction false} FoldAppend(m: Object, a: seq<Signal>, b: seq<Signal>)
    ensures Fold(m, a + b) == Fold(Fold(m, a), b)
    decreases |a|
  {
    if a == [] {
      assert a + b == b;
    } else {
      assert (a + b)[1..] == a[1..] + b;
      FoldAppend(m[a[0].key := a[0].value], a[1..], b);
    }
  }

  // The signals of one operation bring a map that agreed before up to date.
  lemma OpKeepsAgreement(m: Object, s: Settings, op: Op)
    requires Agrees(m, s) && Enabled(s, op)
    ensures Agrees(Fold(m, Signals(s, op)), Apply(s, op))
  {
    var s', signals := Apply(s, op), Signals(s, op);
    forall k: string ensures Lookup(Fold(m, signals), k) == s'.Get(k) {
      FoldTells(m, signals, s', k);
      if op.Import? {
        if k in op.keys {
          var i :| 0 <= i < |op.keys| && op.keys[i] == k;
          assert signals[i] in signals && signals[i].key == k;
        }
      } else {
        assert signals[0] in signals;
      }
    }
  }

  // ---------------------------------------------------------------- the daemon and a remote cache

  // The remote cache of handleEvent: a signal that tells nothing new is dropped.
  function Receive(cache: Object, x: Signal): Object {
    if Lookup(cache, x.key) != x.value then cache[x.key := x.value] else cache
  }

  // The keys of either document at which they differ, in the order of `keys`.
  function Differing(before: Object, after: Object, keys: seq<string>): seq<string> {
    if keys == [] then []
    else
      var rest := Differing(before, after, keys[1..]);
      if Lookup(after, keys[0]) == Lookup(before, keys[0]) then rest else [keys[0]] + rest
  }

  // How the list goes on from position `i`.
  lemma DifferingFrom(before: Object, after: Object, keys: seq<string>, i: nat)
    requires i <= |keys|
    ensures i == |keys| ==> Differing(before, after, keys[i..]) == []
    ensures i < |keys| ==>
              var rest := Differing(before, after, keys[i + 1..]);
              Differing(before, after, keys[i..]) ==
                if Lookup(after, keys[i]) == Lookup(before, keys[i]) then rest else [keys[i]] + rest
  {
    assert i < |keys| ==> keys[i..][1..] == keys[i + 1..];
  }

  function Notify(cache: Object, keys: seq<string>): (r: seq<Signal>)
    ensures |r| == |keys| && forall i | 0 <= i < |r| :: r[i] == Changed(keys[i], Lookup(cache, keys[i]))
  {
    seq(|keys|, i requires 0 <= i < |keys| => Changed(keys[i], Lookup(cache, keys[i])))
  }

  // Exactly the differing keys are notified, each once, and folding the notifications over the old
  // cache rebuilds the new one.
  lemma {:induction false} DifferingIsExact(before: Object, after: Object, keys: seq<string>)
    requires Once(keys)
    ensures Once(Differing(before, after, keys))
    ensures forall k :: k in Differing(before, after, keys) <==> k in keys && Lookup(after, k) != Lookup(before, k)
    decreases |keys|
  {
    if keys != [] {
      var rest := keys[1..];
      assert forall i | 0 <= i < |rest| :: rest[i] == keys[i + 1];
      DifferingIsExact(before, after, rest);
      assert keys[0] !in rest;
      assert forall k :: k in keys <==> k == keys[0] || k in rest;
    }
  }

  lemma NotificationsRebuild(before: Object, after: Object, keys: seq<string>)
    requires Once(keys) && Lists(keys, after, before)
    ensures var notes := Notify(after, Differing(before, after, keys));
            && (forall i, j | 0 <= i < j < |notes| :: notes[i].key != notes[j].key)
            && (forall k: string :: (exists x | x in notes :: x.key == k) <==> Lookup(after, k) != Lookup(before, k))
            && (forall k: string :: Lookup(Fold(before, notes), k) == Lookup(after, k))
  {
    DifferingIsExact(before, after, keys);
    var diff := Differing(before, after, keys);
    var notes := Notify(after, diff);
    forall k: string
      ensures (exists x | x in notes :: x.key == k) <==> Lookup(after, k) != Lookup(before, k)
      ensures Lookup(Fold(before, notes), k) == Lookup(after, k)
    {
      if k in diff {
        var i :| 0 <= i < |diff| && diff[i] == k;
        assert notes[i] in notes && notes[i].key == k;
      }
      FoldTells(before, notes, Settings(after, map[]), k);
    }
  }

  // ---------------------------------------------------------------- maps that read the same

  ghost predicate SameReading(a: Object, b: Object) {
    forall k: string :: Lookup(a, k) == Lookup(b, k)
  }

  lemma UpdateReadsSame(a: Object, b: Object, k: string, v: Value)
    requires SameReading(a, b)
    ensures SameReading(a[k := v], b[k := v])
  {
    var a', b' := a[k := v], b[k := v];
    forall j: string ensures Lookup(a', j) == Lookup(b', j) {
      assert Lookup(a, j) == Lookup(b, j);
    }
  }

  lemma {:induction false} FoldReadsSame(a: Object, b: Object, signals: seq<Signal>)
    requires SameReading(a, b)
    ensures SameReading(Fold(a, signals), Fold(b, signals))
    decreases |signals|
  {
    if signals != [] {
      var x := signals[0];
      UpdateReadsSame(a, b, x.key, x.value);
      FoldReadsSame(a[x.key := x.value], b[x.key := x.value], signals[1..]);
    }
  }

  function Told(signals: seq<Signal>): set<string> {
    set x | x in signals :: x.key
  }

  // What was told is read whatever the map was before, and what was not is read as before.
  lemma {:induction false} FoldReads(m: Object, signals: seq<Signal>, k: string)
    ensures Lookup(Fold(m, signals), k) == Lookup(if k in Told(signals) then Fold(map[], signals) else m, k)
    decreases |signals|
  {
    if signals != [] {
      var x, rest := signals[0], signals[1..];
      ToldHead(signals);
      FoldReads(m[x.key := x.value], rest, k);
      FoldReads(map[][x.key := x.value], rest, k);
    }
  }

  lemma ToldHead(signals: seq<Signal>)
    requires signals != []
    ensures Told(signals) == {signals[0].key} + Told(signals[1..])
  {
    assert signals == [signals[0]] + signals[1..];
  }

  lemma ToldAppend(a: seq<Signal>, b: seq<Signal>)
    ensures Told(a + b) == Told(a) + Told(b)
  {
  }
}
