/** Slices over a backing array: appending, shortening, and filtering in place over the elements' own storage. */
module Slices {
  import opened Retention

  /** A slice that its owner grows, cuts back and filters: the first `count` elements of the array, which may have
      room for more. */
  class List<T> {
    var data: array<T>
    var count: nat
    ghost var items: seq<T>

    ghost predicate Valid()
      reads this, data
    {
      count == |items| <= data.Length && data[..count] == items
    }

    constructor (items: seq<T>)
      ensures Valid() && fresh(data) && data.Length == |items| && this.items == items
    {
      data := new T[|items|](i requires 0 <= i < |items| => items[i]);
      count := |items|;
      this.items := items;
    }

    function Get(i: nat): (x: T)
      requires Valid() && i < count
      reads this, data
      ensures x == items[i]
    {
      assert data[i] == data[..count][i];
      data[i]
    }

    function Elements(): (all: seq<T>)
      requires Valid()
      reads this, data
      ensures all == items
    {
      data[..count]
    }

    /** Append into the room that is left, or into a larger copy. */
    method Append(x: T)
      requires Valid()
      modifies this, data
      ensures Valid() && items == old(items) + [x]
      ensures data == old(data) || fresh(data)
    {
      if count == data.Length {
        var all := data[..];
        data := new T[2 * |all| + 1](i => if 0 <= i < |all| then all[i] else x);
        assert data[..count] == all[..count];
      }
      data[count] := x;
      count := count + 1;
      items := items + [x];
    }

    method Set(i: nat, x: T)
      requires Valid() && i < count
      modifies this`items, data
      ensures Valid() && items == old(items)[i := x]
    {
      data[i] := x;
      items := items[i := x];
    }

    method Truncate(n: nat)
      requires Valid() && n <= count
      modifies this`count, this`items
      ensures Valid() && items == old(items)[..n]
    {
      count := n;
      items := items[..n];
    }

    method Clone() returns (copy: array<T>)
      requires Valid()
      ensures fresh(copy) && copy[..] == items
    {
      copy := new T[count](i requires 0 <= i < count && Valid() reads this, data => Get(i));
      assert copy[..] == items;
    }

    method Restore(copy: array<T>)
      modifies this
      ensures Valid() && data == copy && items == copy[..]
    {
      data := copy;
      count := copy.Length;
      items := copy[..];
      assert data[..count] == data[..];
    }

    /** Keep the unexpired elements, written over the first ones of the same array. */
    method Filter(expired: T -> bool)
      requires Valid()
      modifies this`count, this`items, data
      ensures Valid() && items == KeptItems(old(items), expired)
      ensures forall k :: count <= k < data.Length ==> data[k] == old(data[k])
    {
      var n := 0;
      ghost var was, kept: seq<T> := items, [];
      for i := 0 to count
        invariant n == |kept| <= i && kept == KeptItems(was[..i], expired)
        invariant forall k :: 0 <= k < n ==> data[k] == kept[k]
        invariant forall k :: n <= k < data.Length ==> data[k] == old(data[k])
      {
        var x := data[i];
        assert x == old(data[..count])[i];
        assert was[..i + 1][..i] == was[..i];
        if !expired(x) {
          data[n] := x;
          kept := kept + [x];
          n := n + 1;
        }
      }
      assert was[..|was|] == was;
      count := n;
      items := kept;
    }
  }

  /** Delete the listed expired records, and keep of the order list, in place, what has a record. */
  method SweepRecords<V>(records: map<string, V>, order: List<string>, expired: V -> bool) returns (kept: map<string, V>)
    requires order.Valid()
    modifies order`count, order`items, order.data
    ensures order.Valid()
    ensures kept == KeptRecords(records, old(order.items), expired)
    ensures order.items == KeptOrder(records, old(order.items), expired)
  {
    kept := records;
    var n := 0;
    ghost var was, ids: seq<string> := order.items, [];
    for i := 0 to order.count
      invariant n == |ids| <= i && ids == KeptOrder(records, was[..i], expired)
      invariant kept == KeptRecords(records, was[..i], expired)
      invariant forall k :: 0 <= k < n ==> order.data[k] == ids[k]
      invariant forall k :: n <= k < order.data.Length ==> order.data[k] == old(order.data[k])
    {
      var id := order.data[i];
      assert id == old(order.data[..order.count])[i];
      KeptRecordsStep(records, was, i, expired);
      KeptOrderStep(records, was, i, expired);
      if id !in kept {
        continue;
      }
      if expired(kept[id]) {
        kept := kept - {id};
      } else {
        order.data[n] := id;
        ids := ids + [id];
        n := n + 1;
      }
    }
    assert was[..|was|] == was;
    order.count := n;
    order.items := ids;
  }

  /** Why a rollback needs a clone: after a filter the array no longer has the old elements, so that going back to the
      old length alone brings one element twice. */
  method LengthIsNotEnough() returns (list: List<int>)
    ensures fresh(list) && list.count == 2 <= list.data.Length && list.data[..2] == [2, 2]
  {
    list := new List([1, 2]);
    var count, isOne := list.count, (x: int) => x == 1;
    assert [1, 2][..1] == [1] && KeptItems([1], isOne) == [] && KeptItems([1, 2], isOne) == [2];
    assert list.data[1] == list.data[..2][1];
    list.Filter(isOne);
    assert list.data[0] == list.data[..1][0];
    list.count := count;
  }
}
