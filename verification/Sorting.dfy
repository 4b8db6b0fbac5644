/** Insertion sort by a strict order; elements of equal rank keep their order, as `OrderBy` promises. */
module Sorting {
  function Insert<T>(before: (T, T) -> bool, x: T, sorted: seq<T>): (r: seq<T>)
    ensures |r| == |sorted| + 1
  {
    if sorted == [] || !before(sorted[0], x) then [x] + sorted else [sorted[0]] + Insert(before, x, sorted[1..])
  }

  function Sort<T>(before: (T, T) -> bool, items: seq<T>): (r: seq<T>)
    ensures |r| == |items|
  {
    if items == [] then [] else Insert(before, items[0], Sort(before, items[1..]))
  }

  ghost predicate Ranks<T(!new)>(before: (T, T) -> bool) {
    && (forall a, b :: before(a, b) ==> !before(b, a))
    && (forall a, b, c :: before(a, c) ==> before(a, b) || before(b, c))
  }

  predicate Ordered<T>(before: (T, T) -> bool, items: seq<T>) {
    forall i, j :: 0 <= i < j < |items| ==> !before(items[j], items[i])
  }

  predicate StrictlyOrdered<T>(before: (T, T) -> bool, items: seq<T>) {
    forall i, j :: 0 <= i < j < |items| ==> before(items[i], items[j])
  }

  lemma {:induction false} InsertAdds<T>(before: (T, T) -> bool, x: T, sorted: seq<T>)
    ensures multiset(Insert(before, x, sorted)) == multiset(sorted) + multiset{x}
  {
    if sorted != [] && before(sorted[0], x) {
      InsertAdds(before, x, sorted[1..]);
      assert sorted == [sorted[0]] + sorted[1..];
    }
  }

  /** Sorting loses and invents nothing. */
  lemma {:induction false} SortPermutes<T>(before: (T, T) -> bool, items: seq<T>)
    ensures multiset(Sort(before, items)) == multiset(items)
  {
    if items != [] {
      SortPermutes(before, items[1..]);
      InsertAdds(before, items[0], Sort(before, items[1..]));
      assert items == [items[0]] + items[1..];
    }
  }

  lemma {:induction false} InsertOrders<T(!new)>(before: (T, T) -> bool, x: T, sorted: seq<T>)
    requires Ranks(before) && Ordered(before, sorted)
    ensures Ordered(before, Insert(before, x, sorted))
  {
    if sorted != [] && before(sorted[0], x) {
      InsertOrders(before, x, sorted[1..]);
      InsertAdds(before, x, sorted[1..]);
      var rest := Insert(before, x, sorted[1..]);
      forall j | 0 <= j < |rest| ensures !before(rest[j], sorted[0]) {
        assert rest[j] in multiset(rest);
        assert rest[j] == x || rest[j] in sorted[1..];
      }
    }
  }

  lemma {:induction false} SortOrders<T(!new)>(before: (T, T) -> bool, items: seq<T>)
    requires Ranks(before)
    ensures Ordered(before, Sort(before, items))
  {
    if items != [] {
      SortOrders(before, items[1..]);
      InsertOrders(before, items[0], Sort(before, items[1..]));
    }
  }

  lemma SameHead<T>(before: (T, T) -> bool, s: seq<T>, t: seq<T>)
    requires Ordered(before, s) && StrictlyOrdered(before, t) && multiset(s) == multiset(t) && s != [] && t != []
    ensures s[0] == t[0]
  {
    assert s[0] in multiset(t) && t[0] in multiset(s);
    var i :| 0 <= i < |t| && t[i] == s[0];
    var j :| 0 <= j < |s| && s[j] == t[0];
  }

  lemma WithoutHead<T>(items: seq<T>)
    requires items != []
    ensures multiset(items[1..]) == multiset(items) - multiset{items[0]}
  {
    assert items == [items[0]] + items[1..];
  }

  lemma SameSize<T>(s: seq<T>, t: seq<T>)
    requires multiset(s) == multiset(t)
    ensures |s| == |t|
  {
    assert |multiset(s)| == |s| && |multiset(t)| == |t|;
  }

  /** Two orders of the same elements are one order once the ranks differ. */
  lemma {:induction false} OneOrder<T>(before: (T, T) -> bool, s: seq<T>, t: seq<T>)
    requires Ordered(before, s) && StrictlyOrdered(before, t) && multiset(s) == multiset(t)
    ensures s == t
  {
    SameSize(s, t);
    if s != [] {
      SameHead(before, s, t);
      WithoutHead(s);
      WithoutHead(t);
      OneOrder(before, s[1..], t[1..]);
      assert s == [s[0]] + s[1..] && t == [t[0]] + t[1..];
    }
  }

  /** What is in strict order stays as it is, and any permutation of it is sorted into it. */
  lemma SortFinds<T(!new)>(before: (T, T) -> bool, items: seq<T>, ordered: seq<T>)
    requires Ranks(before) && StrictlyOrdered(before, ordered) && multiset(items) == multiset(ordered)
    ensures Sort(before, items) == ordered
  {
    SortPermutes(before, items);
    SortOrders(before, items);
    OneOrder(before, Sort(before, items), ordered);
  }
}
