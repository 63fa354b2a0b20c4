/**
  The keys of a dictionary as a list, each once.
 */
module KeyLists {

  predicate Once<T(==)>(list: seq<T>) {
    forall i, j | 0 <= i < j < |list| :: list[i] != list[j]
  }

  ghost function Members<T(!new)>(list: seq<T>): set<T> {
    set x | x in list
  }

  lemma MembersFirst<T(!new)>(list: seq<T>)
    requires list != []
    ensures Members(list) == {list[0]} + Members(list[1..])
  {
    assert list == [list[0]] + list[1..];
  }

  method ListOf<T(==)>(keys: set<T>) returns (list: seq<T>)
    ensures forall k :: k in list <==> k in keys
    ensures Once(list)
  {
    list := [];
    var left := keys;
    while left != {}
      invariant left <= keys && forall k :: k in list <==> k in keys - left
      invariant Once(list)
      decreases |left|
    {
      var k :| k in left;
      assert k !in list;
      left := left - {k};
      list := list + [k];
    }
  }
}
