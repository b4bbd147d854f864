/**
 * The toolkit's simple list (rave_list.h): an ordered sequence of references
 * that the list does not own. Insertion, lookup and removal work on positions;
 * sorting takes a three-way comparator.
 */
module RaveListModel {
  import opened Wrappers

  /** The position an insert at `index` really uses: out-of-range indices append. */
  function InsertPosition(size: nat, index: int): (p: nat)
    ensures p <= size
    ensures 0 <= index <= size ==> p == index
    ensures (index < 0 || index > size) ==> p == size
  {
    if index < 0 || index > size then size else index
  }

  /** s with x placed at position i; every later item moves one place up. */
  function InsertAt<T>(s: seq<T>, i: nat, x: T): (r: seq<T>)
    requires i <= |s|
    ensures |r| == |s| + 1 && r[i] == x
    ensures forall j :: 0 <= j < i ==> r[j] == s[j]
    ensures forall j :: i < j < |r| ==> r[j] == s[j - 1]
    ensures multiset(r) == multiset(s) + multiset{x}
  {
    assert s == s[..i] + s[i..];
    s[..i] + [x] + s[i..]
  }

  /** s without the item at position i; every later item moves one place down. */
  function RemoveAt<T>(s: seq<T>, i: nat): (r: seq<T>)
    requires i < |s|
    ensures |r| == |s| - 1
    ensures forall j :: 0 <= j < i ==> r[j] == s[j]
    ensures forall j :: i <= j < |r| ==> r[j] == s[j + 1]
    ensures multiset(r) + multiset{s[i]} == multiset(s)
  {
    assert s == s[..i] + [s[i]] + s[i + 1..];
    s[..i] + s[i + 1..]
  }

  /** Removing what was just inserted at a position gives back the original list. */
  lemma RemoveInsertRoundTrip<T>(s: seq<T>, i: nat, x: T)
    requires i <= |s|
    ensures RemoveAt(InsertAt(s, i, x), i) == s
  {
    var r := RemoveAt(InsertAt(s, i, x), i);
    assert |r| == |s|;
    forall j | 0 <= j < |s| ensures r[j] == s[j] {
    }
  }

  /** Inserting back the item just removed from a position gives back the original list. */
  lemma InsertRemoveRoundTrip<T>(s: seq<T>, i: nat)
    requires i < |s|
    ensures InsertAt(RemoveAt(s, i), i, s[i]) == s
  {
    var r := InsertAt(RemoveAt(s, i), i, s[i]);
    assert |r| == |s|;
    forall j | 0 <= j < |s| ensures r[j] == s[j] {
    }
  }

  /** A comparator in the sense of the sort contract: of any two items, one may precede the other. */
  ghost predicate Total<T(!new)>(cmp: (T, T) -> int) {
    forall a: T, b: T :: cmp(a, b) <= 0 || cmp(b, a) <= 0
  }

  /** A comparator whose "precedes or equals" is transitive. */
  ghost predicate Transitive<T(!new)>(cmp: (T, T) -> int) {
    forall a: T, b: T, c: T :: cmp(a, b) <= 0 && cmp(b, c) <= 0 ==> cmp(a, c) <= 0
  }

  /** Every item is ordered with respect to the one after it. */
  ghost predicate Ordered<T>(s: seq<T>, cmp: (T, T) -> int) {
    forall i :: 0 < i < |s| ==> cmp(s[i - 1], s[i]) <= 0
  }

  /** x placed before the first item it does not come after: the items of s with exactly one more copy of x. */
  function InsertSorted<T>(x: T, s: seq<T>, cmp: (T, T) -> int): (r: seq<T>)
    ensures |r| == |s| + 1
    ensures multiset(r) == multiset(s) + multiset{x}
  {
    if s == [] then [x]
    else if cmp(x, s[0]) <= 0 then [x] + s
    else
      assert s == [s[0]] + s[1..];
      [s[0]] + InsertSorted(x, s[1..], cmp)
  }

  /** InsertSorted keeps an ordered list ordered; the first item is either x or the old first item. */
  lemma {:induction false} InsertSortedOrdered<T(!new)>(x: T, s: seq<T>, cmp: (T, T) -> int)
    requires Total(cmp) && Ordered(s, cmp)
    ensures Ordered(InsertSorted(x, s, cmp), cmp)
    ensures InsertSorted(x, s, cmp)[0] == x || (s != [] && InsertSorted(x, s, cmp)[0] == s[0])
  {
    if s != [] && cmp(x, s[0]) > 0 {
      var t := s[1..];
      assert Ordered(t, cmp) by {
        forall i | 0 < i < |t| ensures cmp(t[i - 1], t[i]) <= 0 {
          assert t[i - 1] == s[i] && t[i] == s[i + 1];
        }
      }
      InsertSortedOrdered(x, t, cmp);
      var r := InsertSorted(x, s, cmp);
      var rt := InsertSorted(x, t, cmp);
      assert r == [s[0]] + rt;
      assert cmp(s[0], x) <= 0;
      assert t != [] ==> cmp(s[0], t[0]) <= 0;
      forall i | 0 < i < |r| ensures cmp(r[i - 1], r[i]) <= 0 {
        if i > 1 {
          assert r[i - 1] == rt[i - 2] && r[i] == rt[i - 1];
        }
      }
    }
  }

  /** With a transitive comparator, an ordered list is ordered between any two positions. */
  lemma {:induction false} OrderedPairwise<T(!new)>(s: seq<T>, cmp: (T, T) -> int, i: nat, j: nat)
    requires Transitive(cmp) && Ordered(s, cmp)
    requires i < j < |s|
    ensures cmp(s[i], s[j]) <= 0
    decreases j - i
  {
    if i + 1 < j {
      OrderedPairwise(s, cmp, i + 1, j);
      assert cmp(s[i], s[i + 1]) <= 0;
    }
  }

  /**
   * The list. It holds references without retaining them; the items are
   * whatever the caller put in, in order.
   */
  class RaveList<T(!new)> {
    var items: seq<T>

    constructor ()
      ensures items == []
    {
      items := [];
    }

    /** RaveList_add: appends x at the end. */
    method Add(x: T)
      modifies this
      ensures items == old(items) + [x]
    {
      items := items + [x];
    }

    /** RaveList_insert: x at position index, or at the end when index is outside [0, size]. */
    method Insert(index: int, x: T)
      modifies this
      ensures items == InsertAt(old(items), InsertPosition(|old(items)|, index), x)
    {
      items := InsertAt(items, InsertPosition(|items|, index), x);
    }

    /** RaveList_size. */
    method Size() returns (n: nat)
      ensures n == |items|
    {
      n := |items|;
    }

    /** RaveList_get: the item at index, none when index is out of range. */
    method Get(index: int) returns (r: Option<T>)
      ensures r.Some? <==> 0 <= index < |items|
      ensures r.Some? ==> r.value == items[index]
    {
      if 0 <= index < |items| {
        r := Some(items[index]);
      } else {
        r := None;
      }
    }

    /** RaveList_getLast: the item at the end, none when the list is empty. */
    method GetLast() returns (r: Option<T>)
      ensures r.Some? <==> items != []
      ensures r.Some? ==> r.value == items[|items| - 1]
    {
      if items != [] {
        r := Some(items[|items| - 1]);
      } else {
        r := None;
      }
    }

    /** RaveList_remove: takes out and returns the item at index; out of range removes nothing. */
    method Remove(index: int) returns (r: Option<T>)
      modifies this
      ensures r.Some? <==> 0 <= index < |old(items)|
      ensures r.Some? ==> r.value == old(items)[index] && items == RemoveAt(old(items), index)
      ensures r.None? ==> items == old(items)
    {
      if 0 <= index < |items| {
        r := Some(items[index]);
        items := RemoveAt(items, index);
      } else {
        r := None;
      }
    }

    /** RaveList_removeLast: takes out and returns the last item; none on an empty list. */
    method RemoveLast() returns (r: Option<T>)
      modifies this
      ensures r.Some? <==> old(items) != []
      ensures r.Some? ==> old(items) == items + [r.value]
      ensures r.None? ==> items == old(items)
    {
      if items != [] {
        r := Some(items[|items| - 1]);
        items := items[..|items| - 1];
      } else {
        r := None;
      }
    }

    /** RaveList_sort: reorders the items so that each is ordered before the next. */
    method Sort(cmp: (T, T) -> int)
      requires Total(cmp)
      modifies this
      ensures Ordered(items, cmp)
      ensures multiset(items) == multiset(old(items))
    {
      var sorted: seq<T> := [];
      var i := 0;
      while i < |items|
        invariant items == old(items) && 0 <= i <= |items|
        invariant Ordered(sorted, cmp)
        invariant multiset(sorted) == multiset(items[..i])
      {
        InsertSortedOrdered(items[i], sorted, cmp);
        assert items[..i + 1] == items[..i] + [items[i]];
        sorted := InsertSorted(items[i], sorted, cmp);
        i := i + 1;
      }
      assert items[..i] == items;
      items := sorted;
    }
  }
}
