/**
  The class `AvailabilityMap`: free runs and a running count, updated in place.
 */
module AvailabilityMaps {
  import opened Options
  import opened ByteSpace

  // `None` stands for the end iterator, `Some(k)` for the iterator at the run that starts at `k`.
  class AvailabilityMap {
    const modulus: nat
    const sizeOriginal: nat
    var sizeLeft: nat
    var available: Runs

    constructor (modulus: nat, size: nat)
      requires size < modulus
      ensures View() == New(modulus, size) && Valid(View())
      ensures sizeOriginal == size && sizeLeft == size && available == map[0 := size]
    {
      this.modulus, sizeOriginal := modulus, size;
      sizeLeft := size;
      available := map[0 := size];
      NewIsValid(modulus, size);
    }

    constructor Copy(other: AvailabilityMap)
      ensures View() == other.View()
    {
      modulus, sizeOriginal := other.modulus, other.sizeOriginal;
      sizeLeft, available := other.sizeLeft, other.available;
    }

    function View(): Space
      reads this
    {
      Space(modulus, sizeOriginal, sizeLeft, available)
    }

    static method SliceOff(modulus: nat, sub: Block, super: Block) returns (ok: bool, before: Block, after: Block)
      requires modulus > 0
      ensures Slice(ok, before, after) == SliceSuperset(modulus, sub, super)
    {
      before, after := Nothing, Nothing;
      if sub.len == 0 || super.len == 0 {
        return false, before, after;
      }
      var subLast := Minus(modulus, Plus(modulus, sub.start, sub.len), 1);
      var superLast := Minus(modulus, Plus(modulus, super.start, super.len), 1);
      if sub.start < super.start || subLast > superLast {
        return false, before, after;
      }
      if sub.start != super.start {
        before := Block(super.start, Minus(modulus, sub.start, super.start));
      }
      if subLast != superLast {
        after := Block(Plus(modulus, subLast, 1), Minus(modulus, superLast, subLast));
      }
      return true, before, after;
    }

    // The iterator returned with an accepted block is at the first run behind it.
    method Insert(block: Block) returns (it: Option<nat>, ok: bool)
      requires IsBlock(View(), block)
      modifies this
      ensures (View(), ok) == ByteSpace.Insert(old(View()), block)
      ensures !ok ==> it.None?
      ensures ok && Valid(old(View())) && Fits(old(View()), block) ==>
                if it.None? then forall k | k in available :: k < block.start + block.len
                else it.value in available && block.start + block.len <= it.value &&
                     forall k | k in available && block.start < k :: it.value <= k
    {
      ghost var s := View();
      if block.start >= sizeOriginal || Plus(modulus, block.start, block.len) > sizeOriginal || available == map[] {
        return None, false;
      }
      var at := LastAtMost(available, block.start);
      if at.None? {
        return None, false;
      }
      var sliced, before, after := SliceOff(modulus, block, Block(at.value, available[at.value]));
      if !sliced {
        return None, false;
      }
      available := Without(available, at.value);
      sizeLeft := Minus(modulus, sizeLeft, block.len);
      available := Add(available, before);
      available := Add(available, after);
      if after != Nothing {
        it := Some(after.start);
      } else {
        it := FirstAbove(available, block.start, sizeOriginal);
      }
      ok := true;
      if Valid(s) && Fits(s, block) {
        FirstRunBehind(s, block, at.value, it, after);
      }
    }

    predicate Full()
      reads this
    {
      sizeLeft == 0
    }
  }
}
