/**
  `AvailabilityMap`: the free runs of a byte range, kept in a map from the start of a run to its
  length, with a running count of the bytes left. Offsets and lengths are unsigned words: `modulus`
  is 2^32 or 2^64, and every sum and difference below wraps as it does there.

  The functions compute on a value, `Space`; the class in AvailabilityMap.dfy updates its fields in
  place and is tied to them.
 */
module ByteSpace {
  import opened Options

  // Start and length, both words.
  datatype Block = Block(start: nat, len: nat) {
    ghost predicate Contains(x: int) {
      start <= x < start + len
    }
  }

  type Runs = map<nat, nat>

  datatype Space = Space(modulus: nat, original: nat, left: nat, runs: Runs)

  function Plus(modulus: nat, x: nat, y: nat): nat
    requires modulus > 0
  {
    (x + y) % modulus
  }

  function Minus(modulus: nat, x: nat, y: nat): nat
    requires modulus > 0
  {
    (x - y) % modulus
  }

  // ---------------------------------------------------------------- lookups in the sorted map

  // The last key not above `x`: the element before `upper_bound(x)`.
  function LastAtMost(m: Runs, x: nat): (r: Option<nat>)
    ensures r.None? ==> forall k | k in m :: k > x
    ensures r.Some? ==> r.value in m && r.value <= x && forall k | k in m && k <= x :: k <= r.value
  {
    if x in m then Some(x) else if x == 0 then None else LastAtMost(m, x - 1)
  }

  // The first key above `x` and below `bound`.
  function FirstAbove(m: Runs, x: nat, bound: nat): (r: Option<nat>)
    ensures r.None? ==> forall k | k in m && k > x :: k >= bound
    ensures r.Some? ==> r.value in m && x < r.value < bound && forall k | k in m && k > x :: k >= r.value
    decreases bound - x
  {
    if x + 1 >= bound then None
    else if x + 1 in m then Some(x + 1)
    else FirstAbove(m, x + 1, bound)
  }

  // ---------------------------------------------------------------- slicing

  const Nothing := Block(0, 0)

  datatype Slice = Slice(ok: bool, before: Block, after: Block)

  function SliceSuperset(modulus: nat, sub: Block, super: Block): Slice
    requires modulus > 0
  {
    if sub.len == 0 || super.len == 0 then Slice(false, Nothing, Nothing) else
    var subLast := Minus(modulus, Plus(modulus, sub.start, sub.len), 1);
    var superLast := Minus(modulus, Plus(modulus, super.start, super.len), 1);
    if sub.start < super.start || subLast > superLast then Slice(false, Nothing, Nothing) else
    Slice(true,
          if sub.start != super.start then Block(super.start, Minus(modulus, sub.start, super.start)) else Nothing,
          if subLast == superLast then Nothing
          else Block(Plus(modulus, subLast, 1), Minus(modulus, superLast, subLast)))
  }

  // ---------------------------------------------------------------- insertion

  function Without(m: Runs, k: nat): Runs {
    map j | j in m && j != k :: m[j]
  }

  function Add(m: Runs, b: Block): Runs {
    if b == Nothing || b.start in m then m else m[b.start := b.len]
  }

  // The new space and whether the block was accepted.
  function Insert(s: Space, b: Block): (Space, bool)
    requires s.modulus > 0
  {
    if b.start >= s.original || Plus(s.modulus, b.start, b.len) > s.original || s.runs == map[] then (s, false) else
    var at := LastAtMost(s.runs, b.start);
    if at.None? then (s, false) else
    var slice := SliceSuperset(s.modulus, b, Block(at.value, s.runs[at.value]));
    if !slice.ok then (s, false) else
    var runs := Add(Add(Without(s.runs, at.value), slice.before), slice.after);
    (s.(left := Minus(s.modulus, s.left, b.len), runs := runs), true)
  }

  function New(modulus: nat, size: nat): Space {
    Space(modulus, size, size, map[0 := size])
  }

  function InsertAll(s: Space, blocks: seq<Block>): Space
    requires s.modulus > 0
    ensures InsertAll(s, blocks).modulus == s.modulus
    decreases |blocks|
  {
    if blocks == [] then s else InsertAll(Insert(s, blocks[0]).0, blocks[1..])
  }

  // ---------------------------------------------------------------- meaning

  ghost predicate IsFree(m: Runs, x: int) {
    exists k :: k in m && Block(k, m[k]).Contains(x)
  }

  ghost function FreeBytes(s: Space): set<int> {
    set x: int | 0 <= x < s.original && IsFree(s.runs, x)
  }

  ghost function Bytes(b: Block): set<int> {
    set x: int | b.start <= x < b.start + b.len && b.Contains(x)
  }

  // The runs lie inside the range; they are not empty, unless the range is.
  ghost predicate InRange(s: Space) {
    forall k | k in s.runs :: k + s.runs[k] <= s.original && (s.runs[k] > 0 || s.original == 0)
  }

  // Two runs neither overlap nor touch, so each of them is a maximal stretch of free bytes.
  ghost predicate Separated(m: Runs) {
    forall j, k | j in m && k in m && j < k :: j + m[j] < k
  }

  ghost predicate Valid(s: Space) {
    && s.original < s.modulus
    && InRange(s)
    && Separated(s.runs)
    && s.left == |FreeBytes(s)|
    && (s.original == 0 ==> s.runs == map[0 := 0])
  }

  // ---------------------------------------------------------------- cutting a run

  // The runs once `b`, which lies in the run at `k`, is taken.
  ghost function Cut(m: Runs, k: nat, b: Block): Runs
    requires k in m && k <= b.start && b.start + b.len <= k + m[k]
  {
    var e := b.start + b.len;
    var front := if k < b.start then Without(m, k)[k := b.start - k] else Without(m, k);
    if e < k + m[k] then front[e := k + m[k] - e] else front
  }

  lemma CutFreesNothing(m: Runs, k: nat, b: Block, x: int)
    requires k in m && k <= b.start && b.start + b.len <= k + m[k] && b.len > 0 && Separated(m)
    requires IsFree(Cut(m, k, b), x)
    ensures IsFree(m, x) && !b.Contains(x)
  {
  }

  lemma CutTakesNoMore(m: Runs, k: nat, b: Block, x: int)
    requires k in m && k <= b.start && b.start + b.len <= k + m[k] && b.len > 0 && Separated(m)
    requires IsFree(m, x) && !b.Contains(x)
    ensures IsFree(Cut(m, k, b), x)
  {
    var c, e := Cut(m, k, b), b.start + b.len;
    var j :| j in m && Block(j, m[j]).Contains(x);
    if j == k && x < b.start {
      assert Block(k, c[k]).Contains(x);
    } else if j == k {
      assert Block(e, c[e]).Contains(x);
    } else {
      assert j in c && Block(j, c[j]).Contains(x);
    }
  }

  lemma CutSeparated(m: Runs, k: nat, b: Block)
    requires Separated(m) && k in m && k <= b.start && b.start + b.len <= k + m[k] && b.len > 0
    ensures Separated(Cut(m, k, b))
  {
  }

  lemma CutInRange(s: Space, k: nat, b: Block)
    requires InRange(s) && k in s.runs && k <= b.start && b.start + b.len <= k + s.runs[k] && b.len > 0
    ensures InRange(s.(runs := Cut(s.runs, k, b)))
  {
  }

  lemma SmallMod(x: int, modulus: nat)
    requires 0 <= x < modulus
    ensures x % modulus == x
  {
  }

  // In plain arithmetic, slicing tells whether `sub` lies in `super`, and what is left of it on both sides.
  lemma SlicePlain(modulus: nat, sub: Block, super: Block)
    requires sub.start + sub.len < modulus && super.start + super.len < modulus
    ensures var s := SliceSuperset(modulus, sub, super);
            && (s.ok <==> sub.len > 0 && super.start <= sub.start && sub.start + sub.len <= super.start + super.len)
            && (s.ok ==>
                  && s.before == (if super.start == sub.start then Nothing
                                  else Block(super.start, sub.start - super.start))
                  && s.after == (if sub.start + sub.len < super.start + super.len
                                 then Block(sub.start + sub.len, super.start + super.len - sub.start - sub.len)
                                 else Nothing))
  {
    SmallMod(sub.start + sub.len, modulus);
    SmallMod(super.start + super.len, modulus);
    if sub.len > 0 && super.len > 0 {
      var subLast, superLast := sub.start + sub.len - 1, super.start + super.len - 1;
      SmallMod(subLast, modulus);
      SmallMod(superLast, modulus);
      if super.start <= sub.start && subLast <= superLast {
        SmallMod(sub.start - super.start, modulus);
        SmallMod(superLast - subLast, modulus);
        SmallMod(subLast + 1, modulus);
      }
    }
  }

  // The last run that starts at or before `at` reaches every free byte up to there.
  lemma LastRunReaches(m: Runs, x: int, at: nat)
    requires Separated(m) && IsFree(m, x) && x <= at
    ensures LastAtMost(m, at).Some? && x < LastAtMost(m, at).value + m[LastAtMost(m, at).value]
  {
  }

  lemma NotFreeBehindRun(m: Runs, k: nat)
    requires Separated(m) && k in m && m[k] > 0
    ensures !IsFree(m, k + m[k])
  {
  }

  // All bytes of a free block lie in the last run that starts at or before it: runs are maximal.
  lemma FreeBlockInOneRun(m: Runs, b: Block)
    requires Separated(m) && b.len > 0 && forall x: int | b.Contains(x) :: IsFree(m, x)
    ensures var at := LastAtMost(m, b.start);
            at.Some? && b.start + b.len <= at.value + m[at.value]
  {
    assert b.Contains(b.start);
    LastRunReaches(m, b.start, b.start);
    var k := LastAtMost(m, b.start).value;
    NotFreeBehindRun(m, k);
    assert !b.Contains(k + m[k]);
  }

  lemma {:induction false} BytesCount(b: Block)
    ensures |Bytes(b)| == b.len
    decreases b.len
  {
    if b.len > 0 {
      var c := Block(b.start, b.len - 1);
      BytesCount(c);
      var last := b.start + b.len - 1;
      assert Bytes(b) == Bytes(c) + {last} && last !in Bytes(c) by {
        forall x: int ensures x in Bytes(b) <==> x in Bytes(c) || x == last {
          assert b.Contains(x) <==> c.Contains(x) || x == last;
        }
      }
    }
  }

  // ---------------------------------------------------------------- what insertion does

  // The block is not empty, lies in the range, and every byte of it is free.
  ghost predicate Fits(s: Space, b: Block) {
    b.len > 0 && b.start + b.len <= s.original && forall x: int | b.Contains(x) :: IsFree(s.runs, x)
  }

  // The two words of a block passed by a caller.
  predicate IsBlock(s: Space, b: Block) {
    b.start < s.modulus && b.len < s.modulus
  }

  // A block inside the run at `k` is cut out of it.
  lemma AcceptsInside(s: Space, b: Block, k: nat)
    requires s.original < s.modulus && b.start + b.len <= s.original && 0 < b.len <= s.left < s.modulus
    requires LastAtMost(s.runs, b.start) == Some(k) && b.start + b.len <= k + s.runs[k] <= s.original
    requires Separated(s.runs)
    ensures Insert(s, b) == (s.(left := s.left - b.len, runs := Cut(s.runs, k, b)), true)
  {
    SmallMod(b.start + b.len, s.modulus);
    SlicePlain(s.modulus, b, Block(k, s.runs[k]));
    SmallMod(s.left - b.len, s.modulus);
    var slice := SliceSuperset(s.modulus, b, Block(k, s.runs[k]));
    AddIsCut(s.runs, k, b, slice);
  }

  lemma AddIsCut(m: Runs, k: nat, b: Block, slice: Slice)
    requires k in m && k <= b.start && b.start + b.len <= k + m[k] && b.len > 0 && Separated(m)
    requires slice.before == if k < b.start then Block(k, b.start - k) else Nothing
    requires slice.after ==
             if b.start + b.len < k + m[k] then Block(b.start + b.len, k + m[k] - b.start - b.len) else Nothing
    ensures Add(Add(Without(m, k), slice.before), slice.after) == Cut(m, k, b)
  {
  }

  lemma AcceptsFits(s: Space, b: Block) returns (k: nat)
    requires Valid(s) && Fits(s, b)
    ensures k in s.runs && k <= b.start && b.start + b.len <= k + s.runs[k]
    ensures Insert(s, b).1 && Insert(s, b).0.left == s.left - b.len
    ensures Insert(s, b).0 == s.(left := Insert(s, b).0.left, runs := Cut(s.runs, k, b))
  {
    FreeBlockInOneRun(s.runs, b);
    k := LastAtMost(s.runs, b.start).value;
    FreeCount(s, b);
    AcceptsInside(s, b, k);
  }

  // A free block is part of the free bytes, so it is no larger than they are.
  lemma FreeCount(s: Space, b: Block)
    requires Valid(s) && Fits(s, b)
    ensures |FreeBytes(s) - Bytes(b)| == s.left - b.len && s.left < s.modulus
  {
    BytesCount(b);
    assert Bytes(b) <= FreeBytes(s) by {
      forall x | x in Bytes(b) ensures x in FreeBytes(s) {
        assert b.Contains(x);
      }
    }
    var all := Bytes(Block(0, s.original));
    BytesCount(Block(0, s.original));
    assert FreeBytes(s) <= all by {
      forall x | x in FreeBytes(s) ensures x in all {
        assert Block(0, s.original).Contains(x);
      }
    }
    SubsetCount(FreeBytes(s), all);
    assert FreeBytes(s) == (FreeBytes(s) - Bytes(b)) + Bytes(b);
  }

  lemma SubsetCount(a: set<int>, b: set<int>)
    requires a <= b
    ensures |a| <= |b|
  {
    assert b == a + (b - a);
  }

  lemma CutFreeBytes(s: Space, b: Block, k: nat, left: nat)
    requires k in s.runs && k <= b.start && b.start + b.len <= k + s.runs[k] && b.len > 0 && Separated(s.runs)
    ensures FreeBytes(s.(left := left, runs := Cut(s.runs, k, b))) == FreeBytes(s) - Bytes(b)
  {
    var s' := s.(left := left, runs := Cut(s.runs, k, b));
    forall x: int ensures x in FreeBytes(s') <==> x in FreeBytes(s) - Bytes(b) {
      if x in FreeBytes(s') { CutFreesNothing(s.runs, k, b, x); }
      if x in FreeBytes(s) - Bytes(b) { CutTakesNoMore(s.runs, k, b, x); }
    }
  }

  lemma InsertTakesBlock(s: Space, b: Block)
    requires Valid(s) && Fits(s, b)
    ensures var (s', ok) := Insert(s, b);
            ok && Valid(s') && FreeBytes(s') == FreeBytes(s) - Bytes(b)
  {
    var k := AcceptsFits(s, b);
    CutSeparated(s.runs, k, b);
    CutInRange(s, k, b);
    CutFreeBytes(s, b, k, Insert(s, b).0.left);
    FreeCount(s, b);
  }

  lemma InsideRunIsFree(m: Runs, b: Block, k: nat)
    requires k in m && k <= b.start && b.start + b.len <= k + m[k]
    ensures forall x: int | b.Contains(x) :: IsFree(m, x)
  {
  }

  lemma InsertRefuses(s: Space, b: Block)
    requires Valid(s) && b.start + b.len < s.modulus && !Fits(s, b)
    ensures Insert(s, b) == (s, false)
  {
    SmallMod(b.start + b.len, s.modulus);
    var at := LastAtMost(s.runs, b.start);
    if b.start + b.len <= s.original && at.Some? && b.len > 0 {
      var k := at.value;
      SlicePlain(s.modulus, b, Block(k, s.runs[k]));
      if Insert(s, b).1 {
        InsideRunIsFree(s.runs, b, k);
      }
    }
  }

  // Some free byte lies between where the wrapped block ends and where it starts.
  ghost predicate WrapsOntoFree(s: Space, b: Block) {
    b.start < s.original && b.start + b.len > s.modulus &&
    exists x: int :: b.start + b.len - s.modulus - 1 <= x <= b.start && IsFree(s.runs, x)
  }

  lemma ModWraps(x: nat, modulus: nat)
    requires modulus <= x < 2 * modulus
    ensures x % modulus == x - modulus
  {
  }

  lemma ModMinusOne(modulus: nat)
    requires modulus > 0
    ensures -1 % modulus == modulus - 1
  {
  }

  lemma WrappedSlice(modulus: nat, b: Block, run: Block)
    requires b.start < modulus && b.len < modulus <= b.start + b.len
    requires run.len > 0 && run.start <= b.start && run.start + run.len < modulus
    ensures SliceSuperset(modulus, b, run).ok <==> 0 < b.start + b.len - modulus <= run.start + run.len
  {
    var e := b.start + b.len - modulus;
    ModWraps(b.start + b.len, modulus);
    SmallMod(run.start + run.len, modulus);
    SmallMod(run.start + run.len - 1, modulus);
    if e > 0 {
      SmallMod(e - 1, modulus);
    } else {
      ModMinusOne(modulus);
    }
  }

  // The wrapped end does not exceed the end of the last run that starts at or before the block.
  predicate WrapsIntoRun(s: Space, b: Block) {
    var at := LastAtMost(s.runs, b.start);
    at.Some? && 0 < b.start + b.len - s.modulus <= at.value + s.runs[at.value]
  }

  lemma WrapsIntoRunIffFree(s: Space, b: Block)
    requires Separated(s.runs) && InRange(s) && s.original > 0 && IsBlock(s, b)
    ensures WrapsIntoRun(s, b) <==> b.start + b.len > s.modulus &&
                                    exists x: int :: b.start + b.len - s.modulus - 1 <= x <= b.start
                                        && IsFree(s.runs, x)
  {
    var e, at := b.start + b.len - s.modulus, LastAtMost(s.runs, b.start);
    if WrapsIntoRun(s, b) {
      var run := Block(at.value, s.runs[at.value]);
      var x := if run.start < e - 1 then e - 1 else run.start;
      assert run.Contains(x);
      assert IsFree(s.runs, x);
    }
    if x: int :| e - 1 <= x <= b.start && IsFree(s.runs, x) {
      LastRunReaches(s.runs, x, b.start);
    }
  }

  // A block whose end does not fit the word type is accepted, wrongly, exactly in that case.
  lemma AcceptsWrapped(s: Space, b: Block)
    requires Valid(s) && IsBlock(s, b) && b.start + b.len >= s.modulus
    ensures Insert(s, b).1 <==> WrapsOntoFree(s, b)
  {
    ModWraps(b.start + b.len, s.modulus);
    var at := LastAtMost(s.runs, b.start);
    if b.start < s.original {
      if at.Some? {
        WrappedSlice(s.modulus, b, Block(at.value, s.runs[at.value]));
      }
      assert Insert(s, b).1 <==> WrapsIntoRun(s, b);
      WrapsIntoRunIffFree(s, b);
    }
  }

  // Insertion accepts exactly the blocks that fit, except for the blocks described by `WrapsOntoFree`.
  // An accepted block leaves the free bytes outside it, and a refused one changes nothing.
  lemma InsertMeetsSpecIff(s: Space, b: Block)
    requires Valid(s) && IsBlock(s, b)
    ensures (Insert(s, b).1 <==> Fits(s, b)) <==> !WrapsOntoFree(s, b)
    ensures !Insert(s, b).1 ==> Insert(s, b).0 == s
    ensures Insert(s, b).1 && !WrapsOntoFree(s, b) ==>
              Valid(Insert(s, b).0) && FreeBytes(Insert(s, b).0) == FreeBytes(s) - Bytes(b)
  {
    if b.start + b.len >= s.modulus {
      AcceptsWrapped(s, b);
    } else if Fits(s, b) {
      InsertTakesBlock(s, b);
    } else {
      InsertRefuses(s, b);
    }
  }

  // A block that leaves the range of 16 bytes by almost all of the word type, and is accepted.
  lemma WrappedExample()
    ensures var s, b := New(0x1_0000_0000, 16), Block(5, 0xFFFF_FFFC);
            Valid(s) && IsBlock(s, b) && WrapsOntoFree(s, b) && !Fits(s, b) && Insert(s, b).1
  {
    var s, b := New(0x1_0000_0000, 16), Block(5, 0xFFFF_FFFC);
    NewIsValid(0x1_0000_0000, 16);
    assert Block(0, s.runs[0]).Contains(1) && IsFree(s.runs, 1);
    AcceptsWrapped(s, b);
  }

  // ---------------------------------------------------------------- all sequences of insertions

  lemma NewIsValid(modulus: nat, size: nat)
    requires size < modulus
    ensures Valid(New(modulus, size)) && FreeBytes(New(modulus, size)) == Bytes(Block(0, size))
  {
    var s := New(modulus, size);
    forall x: int ensures x in FreeBytes(s) <==> x in Bytes(Block(0, size)) {
      assert 0 in s.runs;
      assert Block(0, size).Contains(x) ==> IsFree(s.runs, x);
    }
    assert FreeBytes(s) == Bytes(Block(0, size));
    BytesCount(Block(0, size));
  }

  // No block, in the state it meets, wraps onto free bytes.
  ghost predicate NoneWraps(s: Space, blocks: seq<Block>)
    requires s.modulus > 0
    decreases |blocks|
  {
    blocks == [] ||
    (IsBlock(s, blocks[0]) && !WrapsOntoFree(s, blocks[0]) && NoneWraps(Insert(s, blocks[0]).0, blocks[1..]))
  }

  // The blocks that are accepted when `blocks` are inserted in turn.
  function Accepted(s: Space, blocks: seq<Block>): (r: seq<Block>)
    requires s.modulus > 0
    ensures forall b | b in r :: b in blocks
    decreases |blocks|
  {
    if blocks == [] then []
    else (if Insert(s, blocks[0]).1 then [blocks[0]] else []) + Accepted(Insert(s, blocks[0]).0, blocks[1..])
  }

  ghost function Union(blocks: seq<Block>): set<int> {
    set b, x | b in blocks && x in Bytes(b) :: x
  }

  ghost predicate Disjoint(blocks: seq<Block>) {
    forall i, j | 0 <= i < j < |blocks| :: Bytes(blocks[i]) !! Bytes(blocks[j])
  }

  lemma StepCovers(s: Space, b: Block)
    requires Valid(s) && IsBlock(s, b) && !WrapsOntoFree(s, b)
    ensures var (s', ok) := Insert(s, b);
            && Valid(s') && s'.original == s.original && s'.modulus == s.modulus
            && FreeBytes(s') == (if ok then FreeBytes(s) - Bytes(b) else FreeBytes(s))
            && (ok ==> Bytes(b) <= FreeBytes(s))
  {
    InsertMeetsSpecIff(s, b);
    InsertKeepsSize(s, b);
    hide Insert, Valid, WrapsOntoFree;
    if Fits(s, b) {
      forall x | x in Bytes(b) ensures x in FreeBytes(s) {
        assert b.Contains(x);
      }
    }
  }

  lemma InsertKeepsSize(s: Space, b: Block)
    requires s.modulus > 0
    ensures Insert(s, b).0.original == s.original && Insert(s, b).0.modulus == s.modulus
  {
  }

  // After any sequence of insertions the map is valid, the accepted blocks are disjoint, and what is
  // free is what was free at the start minus exactly those blocks.
  lemma {:induction false} InsertAllCovers(s: Space, blocks: seq<Block>)
    requires Valid(s) && NoneWraps(s, blocks)
    ensures Valid(InsertAll(s, blocks))
    ensures InsertAll(s, blocks).original == s.original
    ensures Union(Accepted(s, blocks)) <= FreeBytes(s)
    ensures FreeBytes(InsertAll(s, blocks)) == FreeBytes(s) - Union(Accepted(s, blocks))
    ensures Disjoint(Accepted(s, blocks))
    decreases |blocks|
  {
    if blocks == [] {
      assert Union([]) == {};
    } else {
      hide Insert, Valid, FreeBytes, WrapsOntoFree, Union, Disjoint, Bytes;
      var s' := Insert(s, blocks[0]).0;
      StepCovers(s, blocks[0]);
      InsertAllCovers(s', blocks[1..]);
      AcceptedCons(s, blocks);
    }
  }

  // The first block, if it is accepted, joins the others.
  lemma AcceptedCons(s: Space, blocks: seq<Block>)
    requires blocks != [] && s.modulus > 0 && Insert(s, blocks[0]).0.modulus > 0
    requires var acc := Accepted(Insert(s, blocks[0]).0, blocks[1..]);
             Disjoint(acc) && (Insert(s, blocks[0]).1 ==> Bytes(blocks[0]) !! Union(acc))
    ensures var acc := Accepted(Insert(s, blocks[0]).0, blocks[1..]);
            && Disjoint(Accepted(s, blocks))
            && Union(Accepted(s, blocks)) ==
                 if Insert(s, blocks[0]).1 then Bytes(blocks[0]) + Union(acc) else Union(acc)
  {
    hide Insert, Union, Disjoint, Bytes;
    var acc := Accepted(Insert(s, blocks[0]).0, blocks[1..]);
    if Insert(s, blocks[0]).1 {
      UnionCons(blocks[0], acc);
      DisjointCons(blocks[0], acc);
    } else {
      assert [] + acc == acc;
    }
  }

  lemma UnionCons(b: Block, blocks: seq<Block>)
    ensures Union([b] + blocks) == Bytes(b) + Union(blocks)
  {
  }

  lemma DisjointCons(b: Block, blocks: seq<Block>)
    requires Disjoint(blocks) && Bytes(b) !! Union(blocks)
    ensures Disjoint([b] + blocks)
  {
  }

  // ---------------------------------------------------------------- one map per set of free bytes

  // A run starts where a free byte follows one that is not, and ends where the next byte is not free.
  lemma RunIsMaximal(s: Space, k: nat)
    requires Valid(s) && s.original > 0 && k in s.runs
    ensures s.runs[k] > 0 && IsFree(s.runs, k) && !IsFree(s.runs, k - 1) && !IsFree(s.runs, k + s.runs[k])
    ensures forall x | k <= x < k + s.runs[k] :: IsFree(s.runs, x)
  {
  }

  lemma SameFree(s: Space, t: Space, x: int)
    requires Valid(s) && Valid(t) && s.original == t.original && FreeBytes(s) == FreeBytes(t)
    ensures IsFree(s.runs, x) <==> IsFree(t.runs, x)
  {
    assert IsFree(s.runs, x) ==> 0 <= x < s.original;
    assert IsFree(t.runs, x) ==> 0 <= x < t.original;
    assert x in FreeBytes(s) <==> x in FreeBytes(t);
  }

  lemma RunsInclude(s: Space, t: Space, k: nat)
    requires Valid(s) && Valid(t) && s.original == t.original > 0 && FreeBytes(s) == FreeBytes(t) && k in s.runs
    ensures k in t.runs && t.runs[k] == s.runs[k]
  {
    RunIsMaximal(s, k);
    SameFree(s, t, k);
    SameFree(s, t, k - 1);
    var j :| j in t.runs && Block(j, t.runs[j]).Contains(k);
    assert j < k ==> Block(j, t.runs[j]).Contains(k - 1);
    assert j == k;
    RunIsMaximal(t, k);
    SameFree(s, t, k + s.runs[k]);
    SameFree(s, t, k + t.runs[k]);
  }

  // The map is canonical: it is determined by the bytes that are free.
  lemma Canonical(s: Space, t: Space)
    requires Valid(s) && Valid(t) && s.original == t.original && s.modulus == t.modulus && FreeBytes(s) == FreeBytes(t)
    ensures s == t
  {
    if s.original > 0 {
      forall k | k in s.runs ensures k in t.runs && t.runs[k] == s.runs[k] {
        RunsInclude(s, t, k);
      }
      forall k | k in t.runs ensures k in s.runs {
        RunsInclude(t, s, k);
      }
      assert s.runs == t.runs;
    }
  }

  // Blocks that are not empty, lie in the range and do not overlap are all accepted.
  ghost predicate Tiles(size: nat, blocks: seq<Block>) {
    Disjoint(blocks) && forall b | b in blocks :: b.len > 0 && b.start + b.len <= size
  }

  lemma FreeBytesFit(s: Space, b: Block)
    requires b.len > 0 && b.start + b.len <= s.original && Bytes(b) <= FreeBytes(s)
    ensures Fits(s, b)
  {
    forall x: int | b.Contains(x) ensures IsFree(s.runs, x) {
      assert x in Bytes(b) && x in FreeBytes(s);
    }
  }

  // A block of free bytes is taken, unless it is empty.
  lemma TakeFree(s: Space, b: Block)
    requires Valid(s) && b.start + b.len <= s.original && Bytes(b) <= FreeBytes(s)
    ensures var (s', ok) := Insert(s, b);
            && (ok <==> b.len > 0)
            && Valid(s') && s'.original == s.original && s'.modulus == s.modulus
            && FreeBytes(s') == FreeBytes(s) - Bytes(b)
            && s'.left == s.left - b.len
  {
    if b.len > 0 {
      FreeBytesFit(s, b);
      InsertTakesBlock(s, b);
      FreeCount(s, b);
    } else {
      InsertRefuses(s, b);
      assert Bytes(b) == {};
    }
  }

  // Taking the first of some disjoint blocks leaves the others free.
  lemma TakeFirst(blocks: seq<Block>, free: set<int>)
    requires Disjoint(blocks) && blocks != [] && Union(blocks) <= free
    ensures blocks[0] in blocks && Bytes(blocks[0]) <= free
    ensures Disjoint(blocks[1..]) && Union(blocks[1..]) <= free - Bytes(blocks[0])
    ensures free - Bytes(blocks[0]) - Union(blocks[1..]) == free - Union(blocks)
  {
  }

  lemma {:induction false} AcceptsTiles(s: Space, blocks: seq<Block>)
    requires Valid(s) && Tiles(s.original, blocks) && Union(blocks) <= FreeBytes(s)
    ensures Accepted(s, blocks) == blocks
    decreases |blocks|
  {
    hide Insert, Valid, FreeBytes, Union, Disjoint, Bytes;
    if blocks != [] {
      TakeFirst(blocks, FreeBytes(s));
      TakeFree(s, blocks[0]);
      AcceptsTiles(Insert(s, blocks[0]).0, blocks[1..]);
    }
  }

  // Disjoint blocks of free bytes, empty ones among them, are taken out exactly.
  lemma {:induction false} DisjointCover(s: Space, blocks: seq<Block>)
    requires Valid(s) && Disjoint(blocks) && Union(blocks) <= FreeBytes(s)
    requires forall b | b in blocks :: b.start + b.len <= s.original
    ensures var t := InsertAll(s, blocks);
            Valid(t) && t.original == s.original && FreeBytes(t) == FreeBytes(s) - Union(blocks)
    decreases |blocks|
  {
    if blocks == [] {
      assert Union(blocks) == {};
    } else {
      hide Insert, Valid, FreeBytes, Union, Disjoint, Bytes;
      TakeFirst(blocks, FreeBytes(s));
      TakeFree(s, blocks[0]);
      DisjointCover(Insert(s, blocks[0]).0, blocks[1..]);
    }
  }

  lemma TilesCover(modulus: nat, size: nat, blocks: seq<Block>)
    requires size < modulus && Tiles(size, blocks)
    ensures var s := InsertAll(New(modulus, size), blocks);
            && Accepted(New(modulus, size), blocks) == blocks
            && Valid(s) && s.original == size && FreeBytes(s) == Bytes(Block(0, size)) - Union(blocks)
  {
    NewIsValid(modulus, size);
    TilesAreFree(size, blocks);
    AcceptsTiles(New(modulus, size), blocks);
    DisjointCover(New(modulus, size), blocks);
  }

  // The same disjoint blocks, in any order, are all accepted and end in the identical map.
  lemma OrderDoesNotMatter(modulus: nat, size: nat, a: seq<Block>, b: seq<Block>)
    requires size < modulus && Tiles(size, a) && Tiles(size, b) && multiset(a) == multiset(b)
    ensures InsertAll(New(modulus, size), a) == InsertAll(New(modulus, size), b)
    ensures Accepted(New(modulus, size), a) == a && Accepted(New(modulus, size), b) == b
  {
    TilesCover(modulus, size, a);
    TilesCover(modulus, size, b);
    SameUnion(a, b);
    Canonical(InsertAll(New(modulus, size), a), InsertAll(New(modulus, size), b));
  }

  lemma SameUnion(a: seq<Block>, b: seq<Block>)
    requires multiset(a) == multiset(b)
    ensures Union(a) == Union(b)
  {
    assert forall c :: c in a <==> c in multiset(a);
    assert forall c :: c in b <==> c in multiset(b);
  }

  lemma TilesAreFree(size: nat, blocks: seq<Block>)
    requires Tiles(size, blocks)
    ensures Union(blocks) <= Bytes(Block(0, size))
  {
  }

  // The map is full exactly when the accepted blocks tile the whole range.
  lemma FullIffTiled(modulus: nat, size: nat, blocks: seq<Block>)
    requires size < modulus && NoneWraps(New(modulus, size), blocks)
    ensures var s := InsertAll(New(modulus, size), blocks);
            var acc := Accepted(New(modulus, size), blocks);
            Disjoint(acc) && (s.left == 0 <==> Union(acc) == Bytes(Block(0, size)))
  {
    NewIsValid(modulus, size);
    InsertAllCovers(New(modulus, size), blocks);
    var free := FreeBytes(InsertAll(New(modulus, size), blocks));
    assert |free| == 0 <==> free == {};
  }

  // ---------------------------------------------------------------- the running counter

  // The sum of the lengths of the runs.
  ghost function Total(m: Runs): nat
    decreases |m|
  {
    if m == map[] then 0
    else
      var k :| k in m;
      assert Without(m, k).Keys == m.Keys - {k};
      m[k] + Total(Without(m, k))
  }

  lemma {:induction false} TotalIsCount(s: Space)
    requires Separated(s.runs) && InRange(s)
    ensures Total(s.runs) == |FreeBytes(s)|
    decreases |s.runs|
  {
    if s.runs == map[] {
      assert FreeBytes(s) == {};
    } else {
      forall k | k in s.runs ensures s.runs[k] + Total(Without(s.runs, k)) == |FreeBytes(s)| {
        var t := s.(runs := Without(s.runs, k));
        assert t.runs.Keys == s.runs.Keys - {k};
        TotalIsCount(t);
        BytesCount(Block(k, s.runs[k]));
        RunSplits(s, k);
      }
    }
  }

  lemma RunSplits(s: Space, k: nat)
    requires Separated(s.runs) && InRange(s) && k in s.runs
    ensures var t := s.(runs := Without(s.runs, k));
            FreeBytes(s) == FreeBytes(t) + Bytes(Block(k, s.runs[k])) && FreeBytes(t) !! Bytes(Block(k, s.runs[k]))
  {
    var t, run := s.(runs := Without(s.runs, k)), Block(k, s.runs[k]);
    forall x: int ensures x in FreeBytes(s) <==> x in FreeBytes(t) + Bytes(run) {
      if x in FreeBytes(s) {
        var j :| j in s.runs && Block(j, s.runs[j]).Contains(x);
        assert j == k || (j in t.runs && Block(j, t.runs[j]).Contains(x));
      }
      if x in FreeBytes(t) {
        var j :| j in t.runs && Block(j, t.runs[j]).Contains(x);
        assert Block(j, s.runs[j]).Contains(x);
      }
      if x in Bytes(run) {
        assert run.Contains(x);
      }
    }
    forall x | x in FreeBytes(t) ensures x !in Bytes(run) {
      var j :| j in t.runs && Block(j, t.runs[j]).Contains(x);
      assert j in s.runs && j != k;
    }
  }

  // After any sequence of insertions the lengths of the runs sum to `size_left`.
  lemma LeftIsTotal(modulus: nat, size: nat, blocks: seq<Block>)
    requires size < modulus && NoneWraps(New(modulus, size), blocks)
    ensures InsertAll(New(modulus, size), blocks).left == Total(InsertAll(New(modulus, size), blocks).runs)
  {
    NewIsValid(modulus, size);
    InsertAllCovers(New(modulus, size), blocks);
    TotalIsCount(InsertAll(New(modulus, size), blocks));
  }

  lemma FirstRunBehind(s: Space, b: Block, k: nat, it: Option<nat>, after: Block)
    requires Valid(s) && Fits(s, b) && LastAtMost(s.runs, b.start) == Some(k)
    requires after == SliceSuperset(s.modulus, b, Block(k, s.runs[k])).after
    requires it == if after != Nothing then Some(after.start) else FirstAbove(Insert(s, b).0.runs, b.start, s.original)
    ensures var runs := Insert(s, b).0.runs;
            if it.None? then forall j | j in runs :: j < b.start + b.len
            else it.value in runs && b.start + b.len <= it.value && forall j | j in runs && b.start < j :: it.value <= j
  {
    FreeBlockInOneRun(s.runs, b);
    FreeCount(s, b);
    AcceptsInside(s, b, k);
    SlicePlain(s.modulus, b, Block(k, s.runs[k]));
    InsertTakesBlock(s, b);
    CutBehind(s.runs, k, b);
  }

  // Behind the block comes the rest of the run it was cut from, if any, and then the next run.
  lemma CutBehind(m: Runs, k: nat, b: Block)
    requires k in m && k <= b.start && b.start + b.len <= k + m[k] && b.len > 0 && Separated(m)
    ensures forall j | j in Cut(m, k, b) && j > b.start :: j >= b.start + b.len
    ensures b.start + b.len in Cut(m, k, b) <==> b.start + b.len < k + m[k]
  {
  }
}
