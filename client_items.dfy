/** The item records the client holds in its query cache, and the sort they are
    displayed with. JavaScript's `Array.prototype.sort` is stable, so for a
    comparator its result is fixed; `Sort` is that result, written as an
    insertion sort. */
module ClientItems {
  import opened Common

  /** An item as the client receives it. `order` is absent on records saved
      before the field existed, and `createdAt` is the parsed date in ms. */
  datatype ClientItem = ClientItem(
    id: string,
    name: string,
    quantity: int,
    unit: string,
    completed: bool,
    order: Option<int>,
    createdAt: int)

  /** `item.order || 0` */
  function OrderKey(a: ClientItem): (k: int)
    ensures a.order.None? ==> k == 0
    ensures a.order.Some? ==> k == a.order.value
  {
    match a.order
    case None => 0
    case Some(o) => o
  }

  /** A comparator that never says "after" both ways round. */
  ghost predicate Antisymmetric<T(!new)>(cmp: (T, T) -> int)
  {
    forall a, b :: cmp(a, b) > 0 ==> cmp(b, a) <= 0
  }

  /** Every neighbour pair is in comparator order. */
  ghost predicate AdjacentSorted<T>(r: seq<T>, cmp: (T, T) -> int)
  {
    forall i :: 0 <= i < |r| - 1 ==> cmp(r[i], r[i + 1]) <= 0
  }

  ghost predicate Transitive<T(!new)>(le: (T, T) -> bool)
  {
    forall a, b, c :: le(a, b) && le(b, c) ==> le(a, c)
  }

  /** Insert `x`, which came before every element of `t`, in front of the first
      element it does not sort after. */
  function Insert<T>(x: T, t: seq<T>, cmp: (T, T) -> int): (r: seq<T>)
    ensures |r| == |t| + 1
    ensures r[0] == x || (|t| > 0 && r[0] == t[0])
  {
    if |t| == 0 || cmp(x, t[0]) <= 0 then [x] + t else [t[0]] + Insert(x, t[1..], cmp)
  }

  /** The stable sort of `s` under `cmp`. */
  function Sort<T>(s: seq<T>, cmp: (T, T) -> int): (r: seq<T>)
    ensures |r| == |s|
  {
    if |s| == 0 then [] else Insert(s[0], Sort(s[1..], cmp), cmp)
  }

  lemma {:induction false} InsertPermutes<T>(x: T, t: seq<T>, cmp: (T, T) -> int)
    ensures multiset(Insert(x, t, cmp)) == multiset(t) + multiset{x}
  {
    if |t| == 0 || cmp(x, t[0]) <= 0 {
    } else {
      InsertPermutes(x, t[1..], cmp);
      assert t == [t[0]] + t[1..];
    }
  }

  /** The sort rearranges and neither loses nor invents an item. */
  lemma {:induction false} SortPermutes<T>(s: seq<T>, cmp: (T, T) -> int)
    ensures multiset(Sort(s, cmp)) == multiset(s)
  {
    if |s| > 0 {
      SortPermutes(s[1..], cmp);
      InsertPermutes(s[0], Sort(s[1..], cmp), cmp);
      assert s == [s[0]] + s[1..];
    }
  }

  lemma {:induction false} InsertSorted<T(!new)>(x: T, t: seq<T>, cmp: (T, T) -> int)
    requires Antisymmetric(cmp) && AdjacentSorted(t, cmp)
    ensures AdjacentSorted(Insert(x, t, cmp), cmp)
  {
    if |t| == 0 || cmp(x, t[0]) <= 0 {
    } else {
      var rest := Insert(x, t[1..], cmp);
      InsertSorted(x, t[1..], cmp);
      assert cmp(t[0], rest[0]) <= 0 by {
        if rest[0] == x {
        } else {
          assert cmp(t[0], t[1]) <= 0;
        }
      }
      var r := Insert(x, t, cmp);
      assert r == [t[0]] + rest;
      forall i | 0 <= i < |r| - 1
        ensures cmp(r[i], r[i + 1]) <= 0
      {
        if i > 0 {
          assert r[i] == rest[i - 1] && r[i + 1] == rest[i];
        }
      }
    }
  }

  /** With a comparator that is never "after" both ways, neighbours come out in order. */
  lemma {:induction false} SortSorted<T(!new)>(s: seq<T>, cmp: (T, T) -> int)
    requires Antisymmetric(cmp)
    ensures AdjacentSorted(Sort(s, cmp), cmp)
  {
    if |s| > 0 {
      SortSorted(s[1..], cmp);
      InsertSorted(s[0], Sort(s[1..], cmp), cmp);
    }
  }

  /** A comparator that calls everything equal leaves the list as it was. */
  lemma {:induction false} SortAllEqual<T>(s: seq<T>, cmp: (T, T) -> int)
    requires forall a, b :: cmp(a, b) == 0
    ensures Sort(s, cmp) == s
  {
    if |s| > 0 {
      SortAllEqual(s[1..], cmp);
      assert s == [s[0]] + s[1..];
    }
  }

  lemma {:induction false} InsertSameComparator<T>(x: T, t: seq<T>, c1: (T, T) -> int, c2: (T, T) -> int)
    requires forall a, b :: c1(a, b) == c2(a, b)
    ensures Insert(x, t, c1) == Insert(x, t, c2)
  {
    if |t| > 0 && c1(x, t[0]) > 0 {
      InsertSameComparator(x, t[1..], c1, c2);
    }
  }

  /** Comparators that agree on every pair sort alike. */
  lemma {:induction false} SortSameComparator<T>(s: seq<T>, c1: (T, T) -> int, c2: (T, T) -> int)
    requires forall a, b :: c1(a, b) == c2(a, b)
    ensures Sort(s, c1) == Sort(s, c2)
  {
    if |s| > 0 {
      SortSameComparator(s[1..], c1, c2);
      InsertSameComparator(s[0], Sort(s[1..], c1), c1, c2);
    }
  }

  lemma {:induction false} Chain<T(!new)>(r: seq<T>, le: (T, T) -> bool, i: nat, j: nat)
    requires Transitive(le)
    requires forall k :: 0 <= k < |r| - 1 ==> le(r[k], r[k + 1])
    requires i < j < |r|
    ensures le(r[i], r[j])
    decreases j - i
  {
    if j > i + 1 {
      Chain(r, le, i + 1, j);
      assert le(r[i], r[i + 1]);
    }
  }

  /** Order between neighbours under a transitive relation is order between any two. */
  lemma AdjacentToGlobal<T(!new)>(r: seq<T>, le: (T, T) -> bool)
    requires Transitive(le)
    requires forall k :: 0 <= k < |r| - 1 ==> le(r[k], r[k + 1])
    ensures forall i, j :: 0 <= i < j < |r| ==> le(r[i], r[j])
  {
    forall i, j | 0 <= i < j < |r|
      ensures le(r[i], r[j])
    {
      Chain(r, le, i, j);
    }
  }
}
