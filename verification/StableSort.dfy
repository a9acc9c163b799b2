/** A stable sort by a strict order, and filtering; the shape of Array.sort and of ORDER BY. */
module StableSort {

  /** `before` never puts two items both ways, and being tied is transitive. */
  ghost predicate StrictWeak<T(!new)>(before: (T, T) -> bool) {
    (forall a, b :: before(a, b) ==> !before(b, a)) &&
    (forall a, b, c :: before(a, c) ==> before(a, b) || before(b, c))
  }

  function Filter<T(!new)>(keep: T -> bool, items: seq<T>): (r: seq<T>)
    ensures forall x :: x in r <==> x in items && keep(x)
    ensures |r| <= |items|
  {
    if items == [] then []
    else (if keep(items[0]) then [items[0]] else []) + Filter(keep, items[1..])
  }

  function Insert<T(!new)>(before: (T, T) -> bool, x: T, sorted: seq<T>): (r: seq<T>)
    ensures |r| == |sorted| + 1
  {
    if sorted == [] || !before(sorted[0], x) then [x] + sorted
    else [sorted[0]] + Insert(before, x, sorted[1..])
  }

  function Sort<T(!new)>(before: (T, T) -> bool, items: seq<T>): (r: seq<T>)
    ensures |r| == |items|
  {
    if items == [] then [] else Insert(before, items[0], Sort(before, items[1..]))
  }

  lemma {:induction false} InsertPermutes<T(!new)>(before: (T, T) -> bool, x: T, s: seq<T>)
    ensures multiset(Insert(before, x, s)) == multiset(s) + multiset{x}
  {
    if s != [] && before(s[0], x) {
      InsertPermutes(before, x, s[1..]);
      assert s == [s[0]] + s[1..];
    }
  }

  lemma {:induction false} SortPermutes<T(!new)>(before: (T, T) -> bool, items: seq<T>)
    ensures multiset(Sort(before, items)) == multiset(items)
  {
    if items != [] {
      SortPermutes(before, items[1..]);
      InsertPermutes(before, items[0], Sort(before, items[1..]));
      assert items == [items[0]] + items[1..];
    }
  }

  lemma SortKeepsElements<T(!new)>(before: (T, T) -> bool, items: seq<T>)
    ensures forall x :: x in Sort(before, items) <==> x in items
  {
    SortPermutes(before, items);
    forall x ensures x in Sort(before, items) <==> x in items {
      assert x in Sort(before, items) <==> x in multiset(Sort(before, items));
      assert x in items <==> x in multiset(items);
    }
  }

  ghost predicate Ordered<T(!new)>(before: (T, T) -> bool, s: seq<T>) {
    forall i, j :: 0 <= i < j < |s| ==> !before(s[j], s[i])
  }

  lemma {:induction false} InsertOrders<T(!new)>(before: (T, T) -> bool, x: T, s: seq<T>)
    requires StrictWeak(before) && Ordered(before, s)
    ensures Ordered(before, Insert(before, x, s))
  {
    var r := Insert(before, x, s);
    if s == [] {
    } else if before(s[0], x) {
      InsertOrders(before, x, s[1..]);
      InsertPermutes(before, x, s[1..]);
      forall j | 0 < j < |r| ensures !before(r[j], r[0]) {
        assert r[j] in multiset(Insert(before, x, s[1..]));
        assert r[j] == x || r[j] in s[1..];
      }
    } else {
      forall j | 0 <= j < |s| ensures !before(s[j], x) {
        var y, head := s[j], s[0];
        assert before(y, x) ==> before(y, head) || before(head, x);
      }
    }
  }

  lemma {:induction false} SortOrders<T(!new)>(before: (T, T) -> bool, items: seq<T>)
    requires StrictWeak(before)
    ensures Ordered(before, Sort(before, items))
  {
    if items != [] {
      SortOrders(before, items[1..]);
      InsertOrders(before, items[0], Sort(before, items[1..]));
    }
  }

  /** Item `i` is the earliest one that nothing comes before. */
  ghost predicate FirstBest<T(!new)>(before: (T, T) -> bool, items: seq<T>, i: nat) {
    i < |items| &&
    (forall j :: 0 <= j < |items| ==> !before(items[j], items[i])) &&
    (forall j :: 0 <= j < i ==> before(items[i], items[j]))
  }

  lemma FirstBestOfCons<T(!new)>(before: (T, T) -> bool, items: seq<T>, i: nat)
    requires StrictWeak(before) && items != [] && FirstBest(before, items[1..], i)
    ensures if before(items[i + 1], items[0]) then FirstBest(before, items, i + 1) else FirstBest(before, items, 0)
  {
    var x, h, rest := items[0], items[i + 1], items[1..];
    assert forall j :: 0 < j < |items| ==> items[j] == rest[j - 1];
    if !before(h, x) {
      forall j | 0 <= j < |items| ensures !before(items[j], x) {
        var y := items[j];
        assert before(y, x) ==> before(y, h) || before(h, x);
      }
    }
  }

  /** The head of the sort is that item. */
  lemma {:induction false} SortHeadIsFirstBest<T(!new)>(before: (T, T) -> bool, items: seq<T>) returns (i: nat)
    requires StrictWeak(before) && items != []
    ensures FirstBest(before, items, i) && Sort(before, items)[0] == items[i]
  {
    if |items| == 1 {
      assert !before(items[0], items[0]);
      return 0;
    }
    var k := SortHeadIsFirstBest(before, items[1..]);
    FirstBestOfCons(before, items, k);
    i := if before(items[k + 1], items[0]) then k + 1 else 0;
  }

  /** Item `i` is the earliest of the kept items that no kept item comes before. */
  ghost predicate FirstBestAmong<T(!new)>(before: (T, T) -> bool, keep: T -> bool, items: seq<T>, i: nat) {
    i < |items| && keep(items[i]) &&
    (forall j :: 0 <= j < |items| && keep(items[j]) ==> !before(items[j], items[i])) &&
    (forall j :: 0 <= j < i && keep(items[j]) ==> before(items[i], items[j]))
  }

  lemma FirstBestAmongCons<T(!new)>(before: (T, T) -> bool, keep: T -> bool, items: seq<T>, i: nat)
    requires items != [] && FirstBestAmong(before, keep, items[1..], i)
    requires keep(items[0]) ==> before(items[i + 1], items[0]) && !before(items[0], items[i + 1])
    ensures FirstBestAmong(before, keep, items, i + 1)
  {
    assert forall j :: 0 < j < |items| ==> items[j] == items[1..][j - 1];
  }

  lemma FirstBestTail<T(!new)>(before: (T, T) -> bool, x: T, rest: seq<T>, k: nat)
    requires FirstBest(before, [x] + rest, k + 1)
    ensures FirstBest(before, rest, k) && before(rest[k], x) && !before(x, rest[k])
  {
    var items := [x] + rest;
    assert forall j :: 0 <= j < |rest| ==> rest[j] == items[j + 1];
    assert items[0] == x;
  }

  lemma {:induction false} FilteredFirstBest<T(!new)>(before: (T, T) -> bool, keep: T -> bool, items: seq<T>, k: nat)
    returns (i: nat)
    requires FirstBest(before, Filter(keep, items), k)
    ensures FirstBestAmong(before, keep, items, i) && items[i] == Filter(keep, items)[k]
  {
    var x, rest := items[0], Filter(keep, items[1..]);
    if !keep(x) {
      assert Filter(keep, items) == rest;
      i := FilteredFirstBest(before, keep, items[1..], k);
      FirstBestAmongCons(before, keep, items, i);
      i := i + 1;
    } else if k == 0 {
      assert Filter(keep, items) == [x] + rest;
      forall j | 0 <= j < |items| && keep(items[j]) ensures !before(items[j], x) {
        assert items[j] in Filter(keep, items);
      }
      i := 0;
    } else {
      assert Filter(keep, items) == [x] + rest;
      FirstBestTail(before, x, rest, k - 1);
      i := FilteredFirstBest(before, keep, items[1..], k - 1);
      FirstBestAmongCons(before, keep, items, i);
      i := i + 1;
    }
  }

  /** The head of the sorted selection is that item. */
  lemma SelectedHead<T(!new)>(before: (T, T) -> bool, keep: T -> bool, items: seq<T>) returns (i: nat)
    requires StrictWeak(before) && Filter(keep, items) != []
    ensures FirstBestAmong(before, keep, items, i) && items[i] == Sort(before, Filter(keep, items))[0]
  {
    var k := SortHeadIsFirstBest(before, Filter(keep, items));
    i := FilteredFirstBest(before, keep, items, k);
  }

  /** Orders that agree on the items sort them alike. */
  lemma {:induction false} SameOrderSameSort<T(!new)>(one: (T, T) -> bool, other: (T, T) -> bool, items: seq<T>)
    requires forall a, b :: a in items && b in items ==> one(a, b) == other(a, b)
    ensures Sort(one, items) == Sort(other, items)
  {
    if items != [] {
      SameOrderSameSort(one, other, items[1..]);
      SortKeepsElements(one, items[1..]);
      SameOrderSameInsert(one, other, items[0], Sort(one, items[1..]));
    }
  }

  lemma {:induction false} SameOrderSameInsert<T(!new)>(one: (T, T) -> bool, other: (T, T) -> bool, x: T, s: seq<T>)
    requires forall a :: a in s ==> one(a, x) == other(a, x)
    ensures Insert(one, x, s) == Insert(other, x, s)
  {
    if s != [] { SameOrderSameInsert(one, other, x, s[1..]); }
  }

  /** Two blocks, the first wholly before the second, sort separately. */
  lemma {:induction false} SortSplits<T(!new)>(before: (T, T) -> bool, first: T -> bool, second: T -> bool,
                                               items: seq<T>)
    requires forall x :: x in items ==> second(x) == !first(x)
    requires forall a, b :: a in items && b in items && first(a) && second(b) ==> before(a, b) && !before(b, a)
    ensures Sort(before, items) == Sort(before, Filter(first, items)) + Sort(before, Filter(second, items))
  {
    if items != [] {
      var x, rest := items[0], items[1..];
      assert forall y :: y in rest ==> y in items;
      SortSplits(before, first, second, rest);
      var p, q := Filter(first, rest), Filter(second, rest);
      SortKeepsElements(before, p);
      SortKeepsElements(before, q);
      var a, b := Sort(before, p), Sort(before, q);
      if first(x) {
        assert Filter(first, items) == [x] + p && Filter(second, items) == q;
        SortOfCons(before, x, p);
        InsertLeft(before, x, a, b);
      } else {
        assert Filter(second, items) == [x] + q && Filter(first, items) == p;
        SortOfCons(before, x, q);
        forall i | 0 <= i < |a| ensures before(a[i], x) { assert a[i] in p; }
        InsertRight(before, x, a, b);
      }
    }
  }

  lemma SortOfCons<T(!new)>(before: (T, T) -> bool, x: T, rest: seq<T>)
    ensures Sort(before, [x] + rest) == Insert(before, x, Sort(before, rest))
  {
    assert ([x] + rest)[1..] == rest;
  }

  lemma {:induction false} InsertLeft<T(!new)>(before: (T, T) -> bool, x: T, a: seq<T>, b: seq<T>)
    requires forall y :: y in b ==> !before(y, x)
    ensures Insert(before, x, a + b) == Insert(before, x, a) + b
  {
    if a == [] {
      assert a + b == b;
    } else if before(a[0], x) {
      InsertLeft(before, x, a[1..], b);
      assert (a + b)[1..] == a[1..] + b;
    }
  }

  lemma {:induction false} InsertRight<T(!new)>(before: (T, T) -> bool, x: T, a: seq<T>, b: seq<T>)
    requires forall i :: 0 <= i < |a| ==> before(a[i], x)
    ensures Insert(before, x, a + b) == a + Insert(before, x, b)
  {
    if a == [] {
      assert a + b == b;
      assert a + Insert(before, x, b) == Insert(before, x, b);
    } else {
      InsertRight(before, x, a[1..], b);
      assert (a + b)[1..] == a[1..] + b;
      assert (a + b)[0] == a[0];
      assert a + Insert(before, x, b) == [a[0]] + (a[1..] + Insert(before, x, b));
    }
  }
}
