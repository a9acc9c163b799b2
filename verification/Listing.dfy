/**
 * The seller marketplace: two queries, one per activity tier, that together page through
 * one sorted list. A table is the sequence of its rows in storage order, which also
 * breaks ties of ORDER BY.
 */
module Listing {
  import opened Prelude
  import opened StableSort
  import opened Lifecycle

  /** What listForSeller asks: `base` stands for every clause that does not concern activity. */
  datatype Where = Where(base: Row -> bool, builtAt: int)

  /** The clauses as built, activity range included. */
  predicate Matches(w: Where, r: Row) {
    w.base(r) && VisibleWithoutNot(r, w.builtAt)
  }

  /** The clauses with the activity range replaced, as the spread with a new key does. */
  predicate MatchesButRange(w: Where, r: Row) {
    w.base(r) && r.status != CERRADA && r.pausedAt.None? &&
    (r.lastBuyerActivityAt >= ConfirmationCutoff(w.builtAt) ||
     r.lastBuyerActivityAt < InactiveAfterConfirmCutoff(w.builtAt))
  }

  predicate InTier0(w: Where, now: int, r: Row) {
    MatchesButRange(w, r) && r.lastBuyerActivityAt >= ConfirmationCutoff(now)
  }

  predicate InTier1(w: Where, now: int, r: Row) {
    MatchesButRange(w, r) && r.lastBuyerActivityAt < InactiveAfterConfirmCutoff(now) &&
    r.lastBuyerActivityAt >= ArchiveCutoff(now)
  }

  function Tier0(w: Where, now: int): Row -> bool { r => InTier0(w, now, r) }

  function Tier1(w: Where, now: int): Row -> bool { r => InTier1(w, now, r) }

  function InTiers(w: Where, now: int): Row -> bool { r => InTier0(w, now, r) || InTier1(w, now, r) }

  function Matching(w: Where): Row -> bool { r => Matches(w, r) }

  predicate MoreRecent(a: Row, b: Row) {
    a.lastBuyerActivityAt > b.lastBuyerActivityAt
  }

  /** ORDER BY lastBuyerActivityAt DESC. */
  function Query(table: seq<Row>, where: Row -> bool): seq<Row> {
    Sort(MoreRecent, Filter(where, table))
  }

  function Slice<T>(s: seq<T>, skip: nat, limit: nat): seq<T> {
    if skip >= |s| then [] else if limit >= |s| - skip then s[skip..] else s[skip..skip + limit]
  }

  function Ids(rows: seq<Row>): (r: seq<string>)
    ensures |r| == |rows|
  {
    seq(|rows|, i requires 0 <= i < |rows| => rows[i].id)
  }

  lemma {:induction false} FilterNarrows(p: Row -> bool, q: Row -> bool, table: seq<Row>)
    requires forall r :: q(r) ==> p(r)
    ensures Filter(q, Filter(p, table)) == Filter(q, table)
  {
    if table != [] {
      var x, rest := table[0], table[1..];
      FilterNarrows(p, q, rest);
      if p(x) {
        assert Filter(p, table) == [x] + Filter(p, rest);
        assert Filter(p, table)[0] == x && Filter(p, table)[1..] == Filter(p, rest);
      } else {
        assert !q(x);
        assert Filter(p, table) == Filter(p, rest) && Filter(q, table) == Filter(q, rest);
      }
    }
  }

  lemma {:induction false} FilterAgrees(p: Row -> bool, q: Row -> bool, table: seq<Row>)
    requires forall r :: r in table ==> p(r) == q(r)
    ensures Filter(p, table) == Filter(q, table)
  {
    if table != [] { FilterAgrees(p, q, table[1..]); }
  }

  /** The two tier queries, one after the other, are one query. */
  lemma TiersAreOneQuery(table: seq<Row>, w: Where, now: int)
    ensures Query(table, InTiers(w, now)) == Query(table, Tier0(w, now)) + Query(table, Tier1(w, now))
  {
    var all, zero, one := InTiers(w, now), Tier0(w, now), Tier1(w, now);
    var shown := Filter(all, table);
    forall a, b | a in shown && b in shown && zero(a) && one(b) ensures MoreRecent(a, b) && !MoreRecent(b, a) { }
    SortSplits(MoreRecent, zero, one, shown);
    FilterNarrows(all, zero, table);
    FilterNarrows(all, one, table);
  }

  /** A slice across two blocks takes what the first still has, then the rest from the second. */
  lemma SliceOfTwo<T>(a: seq<T>, b: seq<T>, skip: nat, limit: nat)
    ensures Slice(a + b, skip, limit) ==
            if skip >= |a| then Slice(b, skip - |a|, limit)
            else if limit <= |a| - skip then Slice(a, skip, limit)
            else Slice(a, skip, |a| - skip) + Slice(b, 0, limit - (|a| - skip))
  {
  }

  lemma IdsOfTwo(a: seq<Row>, b: seq<Row>)
    ensures Ids(a + b) == Ids(a) + Ids(b)
  {
  }

  // --------------------------------------------------------------- the pager

  /** The slice of the one query. */
  function PageIds(table: seq<Row>, w: Where, skip: nat, limit: nat, now: int): seq<string> {
    Ids(Slice(Query(table, InTiers(w, now)), skip, limit))
  }

  method PaginateSellerMarketplaceIds(table: seq<Row>, w: Where, skip: nat, limit: nat, now: int)
    returns (ids: seq<string>)
    ensures ids == PageIds(table, w, skip, limit, now)
  {
    TiersAreOneQuery(table, w, now);
    var zero, one := Query(table, Tier0(w, now)), Query(table, Tier1(w, now));
    SliceOfTwo(zero, one, skip, limit);
    var tier0Count := |Filter(Tier0(w, now), table)|;
    if skip < tier0Count {
      var take0 := if limit < tier0Count - skip then limit else tier0Count - skip;
      var tier0 := Slice(zero, skip, take0);
      ids := Ids(tier0);
      var remaining := limit - |ids|;
      if remaining > 0 {
        var tier1 := Slice(one, 0, remaining);
        IdsOfTwo(tier0, tier1);
        ids := ids + Ids(tier1);
      }
      return;
    }
    var tier1 := Slice(one, skip - tier0Count, limit);
    ids := Ids(tier1);
  }

  predicate Shown(w: Where, now: int, r: Row) {
    InTier0(w, now, r) || InTier1(w, now, r)
  }

  /** The request was idle for at most `days` days when the query was built, and for more when the page was read. */
  predicate Passes(r: Row, days: int, builtAt: int, now: int) {
    builtAt - r.lastBuyerActivityAt <= days * DAY_MS < now - r.lastBuyerActivityAt
  }

  /**
   * The pages show the rows the count counts, except those that meanwhile turned 10 days idle, or
   * turned 7 days idle and are not past the eighth.
   */
  lemma PagesShowWhatIsCounted(w: Where, now: int, r: Row)
    requires w.builtAt <= now
    ensures Shown(w, now, r) ==> Matches(w, r)
    ensures Matches(w, r) ==>
      (Shown(w, now, r) <==>
       !Passes(r, 10, w.builtAt, now) &&
       !(Passes(r, 7, w.builtAt, now) && now - r.lastBuyerActivityAt <= 8 * DAY_MS))
  {
  }

  /** It does happen: counted at exactly 7 days, on no page a millisecond later. */
  lemma ClockMoveHidesARow(w: Where, r: Row)
    requires w.base(r) && r.status != CERRADA && r.pausedAt.None? && w.builtAt - r.lastBuyerActivityAt == 7 * DAY_MS
    ensures Matches(w, r) && !Shown(w, w.builtAt + 1, r)
  {
  }

  /** With one clock value, a page is the slice of all matching rows, most recent activity first. */
  lemma PageIsSliceOfMatches(table: seq<Row>, w: Where, skip: nat, limit: nat)
    ensures Slice(Query(table, InTiers(w, w.builtAt)), skip, limit) == Slice(Query(table, Matching(w)), skip, limit)
    ensures |Query(table, InTiers(w, w.builtAt))| == |Filter(Matching(w), table)|
  {
    forall r | r in table ensures InTiers(w, w.builtAt)(r) == Matching(w)(r) {
      PagesShowWhatIsCounted(w, w.builtAt, r);
    }
    FilterAgrees(InTiers(w, w.builtAt), Matching(w), table);
  }

  // ------------------------------------------------------------------- pages

  const DEFAULT_PAGE_SIZE: int := 20
  const MAX_PAGE_SIZE: int := 50

  function Max(a: int, b: int): int { if a > b then a else b }

  function Min(a: int, b: int): int { if a < b then a else b }

  datatype Page = Page(page: nat, limit: nat, skip: nat)

  function ParsePagination(page: Option<int>, limit: Option<int>): (p: Page)
    ensures p.page >= 1 && 1 <= p.limit <= MAX_PAGE_SIZE
    ensures page.Some? && page.value >= 1 ==> p.page == page.value
    ensures limit.Some? && 1 <= limit.value <= MAX_PAGE_SIZE ==> p.limit == limit.value
    ensures page.None? || page.value < 1 ==> p.page == 1
    ensures p.limit == match limit case None => 20 case Some(n) => if n < 1 then 1 else if n > 50 then 50 else n
    ensures p.skip == (p.page - 1) * p.limit
  {
    var safePage := Max(1, if page.Some? then page.value else 1);
    var safeLimit := Min(MAX_PAGE_SIZE, Max(1, if limit.Some? then limit.value else DEFAULT_PAGE_SIZE));
    Page(safePage, safeLimit, (safePage - 1) * safeLimit)
  }

  function TotalPages(total: nat, limit: nat): (n: nat)
    requires limit > 0
    ensures n >= 1
  {
    Max(1, (total + limit - 1) / limit)
  }

  /** The first `n` pages, one after the other. */
  function Pages<T>(s: seq<T>, limit: nat, n: nat): seq<T> {
    if n == 0 then [] else Pages(s, limit, n - 1) + Slice(s, (n - 1) * limit, limit)
  }

  lemma {:induction false} PagesArePrefix<T>(s: seq<T>, limit: nat, n: nat)
    ensures Pages(s, limit, n) == if n * limit <= |s| then s[..n * limit] else s
  {
    if n > 0 {
      PagesArePrefix(s, limit, n - 1);
      assert n * limit == (n - 1) * limit + limit;
    }
  }

  /** Turning all the pages lists every item once, in order. */
  lemma PagesListEverything<T>(s: seq<T>, limit: nat)
    requires limit > 0
    ensures Pages(s, limit, TotalPages(|s|, limit)) == s
  {
    var n := TotalPages(|s|, limit);
    PagesArePrefix(s, limit, n);
    var q := (|s| + limit - 1) / limit;
    assert q * limit > |s| - 1 by { CeilingCovers(|s|, limit); }
    if q < 1 { assert |s| == 0; }
  }

  /** And no page more than that: the last one is not empty, unless there is nothing at all. */
  lemma LastPageIsNotEmpty<T>(s: seq<T>, limit: nat)
    requires limit > 0
    ensures var n := TotalPages(|s|, limit);
            if s == [] then n == 1 else Slice(s, (n - 1) * limit, limit) != []
  {
    var q := (|s| + limit - 1) / limit;
    assert q * limit <= |s| + limit - 1;
    assert (q - 1) * limit == q * limit - limit;
    CeilingCovers(|s|, limit);
  }

  lemma CeilingCovers(total: nat, limit: nat)
    requires limit > 0
    ensures (total + limit - 1) / limit * limit >= total
  {
    var d := (total + limit - 1) / limit;
    assert d * limit + (total + limit - 1) % limit == total + limit - 1;
  }

  /** The ids of the first `n` pages, as the pager returns them. */
  function PagesOfIds(table: seq<Row>, w: Where, limit: nat, now: int, n: nat): seq<string> {
    if n == 0 then [] else PagesOfIds(table, w, limit, now, n - 1) + PageIds(table, w, (n - 1) * limit, limit, now)
  }

  lemma {:induction false} PagesOfIdsAreIdsOfPages(table: seq<Row>, w: Where, limit: nat, now: int, n: nat)
    ensures PagesOfIds(table, w, limit, now, n) == Ids(Pages(Query(table, InTiers(w, now)), limit, n))
  {
    if n > 0 {
      PagesOfIdsAreIdsOfPages(table, w, limit, now, n - 1);
      var s, skip := Query(table, InTiers(w, now)), (n - 1) * limit;
      var before, last := Pages(s, limit, n - 1), Slice(s, skip, limit);
      IdsOfTwo(before, last);
      assert PageIds(table, w, skip, limit, now) == Ids(last);
      assert Pages(s, limit, n) == before + last;
    }
  }

  lemma IdsOfCons(x: Row, rest: seq<Row>)
    ensures Ids([x] + rest) == [x.id] + Ids(rest)
  {
  }

  lemma {:induction false} IdsOfInsert(x: Row, s: seq<Row>)
    ensures multiset(Ids(Insert(MoreRecent, x, s))) == multiset(Ids(s)) + multiset{x.id}
  {
    if s == [] || !MoreRecent(s[0], x) {
      IdsOfCons(x, s);
    } else {
      IdsOfInsert(x, s[1..]);
      IdsOfCons(s[0], Insert(MoreRecent, x, s[1..]));
      IdsOfCons(s[0], s[1..]);
      assert s == [s[0]] + s[1..];
    }
  }

  lemma {:induction false} IdsOfSort(items: seq<Row>)
    ensures multiset(Ids(Sort(MoreRecent, items))) == multiset(Ids(items))
  {
    if items != [] {
      IdsOfSort(items[1..]);
      IdsOfInsert(items[0], Sort(MoreRecent, items[1..]));
      IdsOfCons(items[0], items[1..]);
      assert items == [items[0]] + items[1..];
    }
  }

  /**
   * Turning the pages 1 to totalPages of the pager gives the ids of the matching rows, most recent
   * activity first, each exactly once.
   */
  lemma AllPagesListEveryMatch(table: seq<Row>, w: Where, limit: nat)
    requires limit > 0
    ensures var total := |Filter(Matching(w), table)|;
            var ids := PagesOfIds(table, w, limit, w.builtAt, TotalPages(total, limit));
            ids == Ids(Query(table, Matching(w))) && multiset(ids) == multiset(Ids(Filter(Matching(w), table)))
  {
    forall r | r in table ensures InTiers(w, w.builtAt)(r) == Matching(w)(r) {
      PagesShowWhatIsCounted(w, w.builtAt, r);
    }
    FilterAgrees(InTiers(w, w.builtAt), Matching(w), table);
    var s := Query(table, Matching(w));
    PagesListEverything(s, limit);
    PagesOfIdsAreIdsOfPages(table, w, limit, w.builtAt, TotalPages(|s|, limit));
    IdsOfSort(Filter(Matching(w), table));
  }

  // -------------------------------------------------- agreement with the sort

  /** The comparator of sortRequestsForSeller. */
  predicate SellerBefore(now: int, a: Row, b: Row) {
    var ta, tb := SellerListPriority(EffectiveStatus(a, now)), SellerListPriority(EffectiveStatus(b, now));
    ta < tb || (ta == tb && a.lastBuyerActivityAt > b.lastBuyerActivityAt)
  }

  function SellerOrder(now: int): (Row, Row) -> bool { (a, b) => SellerBefore(now, a, b) }

  function Visible(w: Where): Row -> bool { r => w.base(r) && IsVisibleToSellers(r, w.builtAt) }

  /** Off the cutoffs, the database pages and the in-memory sort show the same list. */
  lemma PagesAgreeWithSort(table: seq<Row>, w: Where)
    requires forall r :: w.base(r) ==> r.active
    requires forall r :: r in table && w.base(r) ==> r.status == CERRADA || r.pausedAt.Some? || !OnCutoff(r, w.builtAt)
    ensures Query(table, InTiers(w, w.builtAt)) == Sort(SellerOrder(w.builtAt), Filter(Visible(w), table))
  {
    var now := w.builtAt;
    forall r | r in table ensures InTiers(w, now)(r) == Visible(w)(r) {
      PagesShowWhatIsCounted(w, now, r);
      if w.base(r) { VisibleQueryIffOffCutoff(r, now); }
    }
    FilterAgrees(InTiers(w, now), Visible(w), table);
    var shown := Filter(Visible(w), table);
    forall a, b | a in shown && b in shown ensures MoreRecent(a, b) == SellerOrder(now)(a, b) {
      assert IsVisibleToSellers(a, now) && IsVisibleToSellers(b, now);
    }
    SameOrderSameSort(MoreRecent, SellerOrder(now), shown);
  }
}
