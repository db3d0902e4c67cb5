/** Optional values, and the orders in which a collection of distinct keys may be visited. */
module Wrappers {

  datatype Option<+T> = None | Some(value: T)

  /** A sequence without repetitions. */
  predicate NoDuplicates<T(==)>(s: seq<T>) {
    forall i, j :: 0 <= i < j < |s| ==> s[i] != s[j]
  }

  /** `order` lists every element of `keys` exactly once: one way to iterate over a map. */
  predicate Enumerates<T(==)>(order: seq<T>, keys: set<T>) {
    NoDuplicates(order) && (set x | x in order) == keys
  }

  /** Some order of the keys, the same one every time. */
  ghost function Order<T(!new)>(keys: set<T>): (order: seq<T>)
    ensures Enumerates(order, keys)
    decreases |keys|
  {
    if keys == {} then []
    else
      var k :| k in keys;
      OneMoreInOrder(Order(keys - {k}), keys - {k}, k);
      Order(keys - {k}) + [k]
  }

  lemma {:induction false} OneMoreInOrder<T>(order: seq<T>, keys: set<T>, k: T)
    requires Enumerates(order, keys) && k !in keys
    ensures Enumerates(order + [k], keys + {k})
  {
    assert forall i :: 0 <= i < |order| ==> order[i] in (set x | x in order);
    assert (set x | x in order + [k]) == (set x | x in order) + {k};
  }
}
