/**
 * A fixed-capacity list that never allocates after construction: the items
 * live in an array of `maxSize` slots and the first `length` of them are the
 * list. Adding to a full list is silently ignored, removing at an index out
 * of range is silently ignored, and element access is unchecked (its bounds
 * are the caller's obligation).
 */
module FixedVectors {

  /** The abstract effect of `add` on the list `s` of a vector of the given capacity. */
  function Appended<T>(s: seq<T>, capacity: int, item: T): (r: seq<T>)
    // a list within its capacity stays within it
    ensures |s| <= capacity ==> |r| <= capacity
    ensures |r| == |s| || |r| == |s| + 1
    // nothing already stored is evicted or reordered
    ensures r[..|s|] == s
    // the list grows, by exactly the new item, if and only if there was room
    ensures |r| == |s| + 1 <==> |s| < capacity
    ensures |r| == |s| + 1 ==> r[|s|] == item
  {
    if |s| >= capacity then s else s + [item]
  }

  /** The abstract effect of `remove(index)` on the list `s`. */
  function Removed<T>(s: seq<T>, index: int): (r: seq<T>)
    // exactly one item leaves when the index is in range, none otherwise
    ensures |r| == if 0 <= index < |s| then |s| - 1 else |s|
    ensures !(0 <= index < |s|) ==> r == s
    // the items before the index stay put, the later ones move down by one
    ensures 0 <= index < |s| ==>
      forall k :: 0 <= k < |r| ==> r[k] == if k < index then s[k] else s[k + 1]
  {
    if index >= |s| || index < 0 then s else s[..index] + s[index + 1..]
  }

  /**
   * The whole array after the in-place shift of `remove(index)` on an array
   * `a` whose first `len` slots are in use: slots `index .. len - 2` take
   * their right neighbour, every other slot (including the now unused slot
   * `len - 1`) keeps its value.
   */
  function ShiftedLeft<T>(a: seq<T>, index: int, len: int): (r: seq<T>)
    requires 0 <= index < len <= |a|
    ensures |r| == |a|
    // the used prefix is the list with the item at `index` removed
    ensures r[..len - 1] == Removed(a[..len], index)
    // the slots from `len - 1` on are untouched
    ensures r[len - 1..] == a[len - 1..]
  {
    seq(|a|, k requires 0 <= k < |a| => if index <= k < len - 1 then a[k + 1] else a[k])
  }

  /** The list after adding each of `items` in turn. */
  function AppendedAll<T>(s: seq<T>, capacity: int, items: seq<T>): seq<T>
    decreases |items|
  {
    if items == [] then s else AppendedAll(Appended(s, capacity, items[0]), capacity, items[1..])
  }

  /**
   * Adding a run of items to a list within its capacity keeps the items that
   * fit, in order, and drops every item that arrives once the list is full.
   */
  lemma {:induction false} AppendedAllKeepsFirstThatFit<T>(s: seq<T>, capacity: int, items: seq<T>)
    requires |s| <= capacity
    ensures |s| + |items| <= capacity ==> AppendedAll(s, capacity, items) == s + items
    ensures |s| + |items| > capacity ==> AppendedAll(s, capacity, items) == (s + items)[..capacity]
    decreases |items|
  {
    if items == [] {
      assert s + items == s;
    } else {
      var s' := Appended(s, capacity, items[0]);
      AppendedAllKeepsFirstThatFit(s', capacity, items[1..]);
      if |s| < capacity {
        assert s' + items[1..] == s + items;
      } else {
        assert (s + items)[..capacity] == s;
        assert (s' + items[1..])[..capacity] == s;
      }
    }
  }

  /** Removing an item in range takes exactly that one occurrence out of the list. */
  lemma RemovedMultiset<T>(s: seq<T>, index: int)
    requires 0 <= index < |s|
    ensures multiset(Removed(s, index)) == multiset(s) - multiset{s[index]}
  {
    assert s == s[..index] + [s[index]] + s[index + 1..];
  }

  /** Removing the item just added to a list that had room restores the list. */
  lemma RemoveUndoesAdd<T>(s: seq<T>, capacity: int, item: T)
    requires |s| < capacity
    ensures Removed(Appended(s, capacity, item), |s|) == s
  {
  }

  /** Adding to a cleared list of positive capacity yields the one-item list. */
  lemma AddAfterClear<T>(capacity: int, item: T)
    requires capacity > 0
    ensures Appended([], capacity, item) == [item]
  {
  }

  /**
   * The vector. `maxSize` is the template parameter, `arr` the embedded array
   * (never replaced, only written) and `length` the number of slots in use.
   */
  class FixedVector<T(0)> {
    const maxSize: nat
    const arr: array<T>
    var length: int

    /** The class invariant: the array has `maxSize` slots and `length` is within them. */
    ghost predicate Valid()
      reads this
    {
      arr.Length == maxSize && 0 <= length <= maxSize
    }

    /** The list the vector represents. */
    ghost function Contents(): seq<T>
      requires Valid()
      reads this, arr
    {
      arr[..length]
    }

    /** A new vector is empty. Its slots hold the default value of `T`. */
    constructor (maxSize: nat)
      ensures Valid() && fresh(arr)
      ensures this.maxSize == maxSize && Contents() == []
    {
      this.maxSize := maxSize;
      arr := new T[maxSize];
      length := 0;
    }

    /** Appends `item`, or does nothing at all when the vector is full. */
    method Add(item: T)
      requires Valid()
      modifies this`length, arr
      ensures Valid()
      ensures Contents() == Appended(old(Contents()), maxSize, item)
      ensures old(length) < maxSize ==>
        length == old(length) + 1 && arr[..] == old(arr[..])[old(length) := item]
      ensures old(length) >= maxSize ==> length == old(length) && arr[..] == old(arr[..])
    {
      if length >= maxSize {
        return;
      }
      arr[length] := item;
      length := length + 1;
    }

    /**
     * Removes the item at `index`, shifting the later ones down by one slot;
     * does nothing when `index` is negative or not below `length`.
     */
    method Remove(index: int)
      requires Valid()
      modifies this`length, arr
      ensures Valid()
      ensures Contents() == Removed(old(Contents()), index)
      ensures 0 <= index < old(length) ==>
        length == old(length) - 1 && arr[..] == ShiftedLeft(old(arr[..]), index, old(length))
      ensures !(0 <= index < old(length)) ==> length == old(length) && arr[..] == old(arr[..])
    {
      if index >= length || index < 0 {
        return;
      }
      for i := index to length - 1
        modifies arr
        invariant forall k :: 0 <= k < index ==> arr[k] == old(arr[k])
        invariant forall k :: index <= k < i ==> arr[k] == old(arr[k + 1])
        invariant forall k :: i <= k < arr.Length ==> arr[k] == old(arr[k])
      {
        arr[i] := arr[i + 1];
      }
      ghost var was := old(arr[..]);
      assert arr[..] == ShiftedLeft(was, index, length);
      length := length - 1;
      assert was[..old(length)] == old(Contents());
    }

    /** Reads the item at `index` (the read half of the unchecked `operator[]`). */
    method At(index: int) returns (item: T)
      requires Valid() && 0 <= index < length
      ensures item == Contents()[index]
    {
      item := arr[index];
    }

    /** Writes through the reference `operator[]` returns: replaces the item at `index`. */
    method SetAt(index: int, item: T)
      requires Valid() && 0 <= index < length
      modifies arr
      ensures Valid()
      ensures arr[..] == old(arr[..])[index := item]
      ensures Contents() == old(Contents())[index := item]
    {
      arr[index] := item;
    }

    /** The number of items stored. */
    method Len() returns (n: int)
      requires Valid()
      ensures n == |Contents()| && 0 <= n <= maxSize
    {
      n := length;
    }

    /** Empties the vector; the array slots keep their old values. */
    method Clear()
      requires Valid()
      modifies this`length
      ensures Valid() && length == 0 && Contents() == []
    {
      length := 0;
    }
  }

  /** Clearing a vector of positive capacity and adding `item` leaves exactly `[item]`. */
  method ClearThenAdd<T(0)>(v: FixedVector<T>, item: T)
    requires v.Valid() && v.maxSize > 0
    modifies v`length, v.arr
    ensures v.Valid() && v.Contents() == [item]
  {
    v.Clear();
    v.Add(item);
    AddAfterClear(v.maxSize, item);
  }
}
