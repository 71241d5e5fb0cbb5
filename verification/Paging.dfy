/** Cursor paging over a list that is sorted in memory: the cursor carries the last row's place. */
module Paging {
  import opened Basics
  import opened Sorting
  import opened PriceHistory

  const DEFAULT_PAGE_SIZE: nat := 50
  const MAX_PAGE_SIZE: nat := 100

  function PageSize(limit: Option<int>): (size: nat)
    ensures limit.None? ==> size == 50
    ensures limit.Some? ==> size == if limit.value < 1 then 1 else if limit.value > 100 then 100 else limit.value
  {
    match limit
    case None => DEFAULT_PAGE_SIZE
    case Some(n) =>
      var most := if n < MAX_PAGE_SIZE then n else MAX_PAGE_SIZE;
      if most < 1 then 1 else most
  }

  // ---- The history's order ----

  function ById(r: Observation): Key {
    Key(r.rowId.n, 0)
  }

  /** The text of the date downwards: an undated purchase has the empty text, which is before that of any date. */
  function ByDateDown(r: Observation): Key {
    match r.date
    case Some(day) => Key(0, -day)
    case None => Key(1, 0)
  }

  /** A row's place: newest first, undated last, then by id. */
  function Place(r: Observation): Key {
    Key(ByDateDown(r).major, ByDateDown(r).minor, r.rowId.n)
  }

  /** Sorted by id, and then, keeping that order among equals, by date downwards. */
  function InOrder(rows: seq<Observation>): seq<Observation> {
    Sort(Sort(rows, ById), ByDateDown)
  }

  lemma {:induction false} StableInsert(s: seq<Observation>, x: Observation)
    requires Ordered(s, Place) && forall y :: y in s ==> y.rowId.n <= x.rowId.n
    ensures Ordered(Insert(s, x, ByDateDown), Place)
  {
    if s == [] || !ByDateDown(x).Before(ByDateDown(s[|s| - 1])) {
      forall y | y in s ensures !Place(x).Before(Place(y)) {
        var k :| 0 <= k < |s| && s[k] == y;
        assert k < |s| - 1 ==> !Place(s[|s| - 1]).Before(Place(y));
      }
      Append(s, x, Place);
    } else {
      var rest, last := s[..|s| - 1], s[|s| - 1];
      StableInsert(rest, x);
      InsertKeeps(rest, x, ByDateDown);
      forall y | y in Insert(rest, x, ByDateDown) ensures !Place(last).Before(Place(y)) {
        if y != x {
          var k :| 0 <= k < |rest| && rest[k] == y;
          assert s[k] == y;
        }
      }
      Append(Insert(rest, x, ByDateDown), last, Place);
    }
  }

  lemma {:induction false} StableSort(s: seq<Observation>)
    requires Ordered(s, ById)
    ensures Ordered(Sort(s, ByDateDown), Place)
  {
    if s != [] {
      var rest, last := s[..|s| - 1], s[|s| - 1];
      StableSort(rest);
      SortSorts(rest, ByDateDown);
      forall y | y in Sort(rest, ByDateDown) ensures y.rowId.n <= last.rowId.n {
        var k :| 0 <= k < |rest| && rest[k] == y;
        assert !ById(s[|s| - 1]).Before(ById(s[k]));
      }
      StableInsert(Sort(rest, ByDateDown), last);
    }
  }

  /** The two sorts together put every row in its place, newest first and undated last. */
  lemma {:induction false} InOrderIsOrdered(rows: seq<Observation>)
    ensures Ordered(InOrder(rows), Place) && multiset(InOrder(rows)) == multiset(rows)
    ensures forall r :: r in InOrder(rows) <==> r in rows
    ensures forall i, j :: 0 <= i < j < |InOrder(rows)| && InOrder(rows)[i].date.None? ==> InOrder(rows)[j].date.None?
  {
    SortSorts(rows, ById);
    StableSort(Sort(rows, ById));
    SortSorts(Sort(rows, ById), ByDateDown);
  }

  // ---- One page ----

  predicate Behind(cursor: Option<Key>, r: Observation) {
    cursor.None? || cursor.value.Before(Place(r))
  }

  function After(cursor: Option<Key>): Observation -> bool {
    (r: Observation) => Behind(cursor, r)
  }

  /** A page and the cursor of the next one, if there is one. */
  function Page(rows: seq<Observation>, cursor: Option<Key>, limit: Option<int>): (seq<Observation>, Option<Key>) {
    FirstPage(Filter(InOrder(rows), After(cursor)), PageSize(limit))
  }

  function FirstPage(ordered: seq<Observation>, size: nat): (seq<Observation>, Option<Key>)
    requires size > 0
  {
    if |ordered| <= size then (ordered, None) else (ordered[..size], Some(Place(ordered[size - 1])))
  }

  lemma {:induction false} FilterOrdered(s: seq<Observation>, keep: Observation -> bool)
    requires Ordered(s, Place)
    ensures Ordered(Filter(s, keep), Place)
  {
    if s != [] {
      var rest, last := s[..|s| - 1], s[|s| - 1];
      FilterOrdered(rest, keep);
      if keep(last) {
        FilterMembers(rest, keep);
        forall y | y in Filter(rest, keep) ensures !Place(last).Before(Place(y)) {
          var k :| 0 <= k < |rest| && rest[k] == y;
          assert s[k] == y;
        }
        Append(Filter(rest, keep), last, Place);
      }
    }
  }

  /** Rows come strictly one after the other. */
  ghost predicate Rising(s: seq<Observation>) {
    forall i, j :: 0 <= i < j < |s| ==> Place(s[i]).Before(Place(s[j]))
  }

  lemma {:induction false} OrderedRises(s: seq<Observation>)
    requires Ordered(s, Place) && DistinctRows(s) && forall x :: x in s ==> multiset(s)[x] == 1
    ensures Rising(s)
  {
    forall i, j | 0 <= i < j < |s| ensures Place(s[i]).Before(Place(s[j])) {
      assert !Place(s[j]).Before(Place(s[i]));
      if Place(s[i]) == Place(s[j]) {
        assert Has(s, s[i]) && Has(s, s[j]) && s[i].rowId == s[j].rowId;
        CountTwice(s, i, j);
      }
    }
  }

  /** Every row at most once, told apart by its id: what a query over primary keys returns. */
  ghost predicate RowSet(rows: seq<Observation>) {
    DistinctRows(rows) && forall x :: x in rows ==> multiset(rows)[x] == 1
  }

  lemma {:induction false} Candidates(rows: seq<Observation>, cursor: Option<Key>) returns (ordered: seq<Observation>)
    requires RowSet(rows)
    ensures ordered == Filter(InOrder(rows), After(cursor)) && Rising(ordered)
    ensures forall r :: r in ordered <==> r in rows && Behind(cursor, r)
  {
    InOrderIsOrdered(rows);
    ordered := Filter(InOrder(rows), After(cursor));
    FilterOrdered(InOrder(rows), After(cursor));
    FilterMembers(InOrder(rows), After(cursor));
    forall x | x in ordered ensures multiset(ordered)[x] == 1 {
      FilterCounts(InOrder(rows), After(cursor), x);
    }
    forall r, s | Has(ordered, r) && Has(ordered, s) && r.rowId == s.rowId ensures r == s {
      assert Has(rows, r) && Has(rows, s);
    }
    OrderedRises(ordered);
  }

  /** The page is in order, and a row behind the cursor is on it unless it comes behind the next cursor. */
  ghost predicate TakesNext(rows: seq<Observation>, cursor: Option<Key>, page: seq<Observation>, next: Option<Key>) {
    && Rising(page)
    && (forall r :: r in page ==> r in rows && Behind(cursor, r))
    && (forall r :: r in rows && Behind(cursor, r) ==> r in page || (next.Some? && Behind(next, r)))
    && (next.Some? ==> page != [] && next.value == Place(page[|page| - 1]))
  }

  lemma {:induction false} PrefixTakesNext(rows: seq<Observation>, cursor: Option<Key>, ordered: seq<Observation>, n: nat)
    requires Rising(ordered) && 0 < n <= |ordered| && forall r :: r in ordered <==> r in rows && Behind(cursor, r)
    ensures TakesNext(rows, cursor, ordered[..n], Some(Place(ordered[n - 1])))
  {
    var next := Some(Place(ordered[n - 1]));
    forall r | r in rows && Behind(cursor, r) ensures r in ordered[..n] || Behind(next, r) {
      assert r in ordered;
      var k :| 0 <= k < |ordered| && ordered[k] == r;
      if k < n { assert ordered[..n][k] == r; }
    }
    forall r | r in ordered[..n] ensures r in ordered { }
  }

  lemma {:induction false} PageTakesNext(rows: seq<Observation>, cursor: Option<Key>, limit: Option<int>)
    requires RowSet(rows)
    ensures TakesNext(rows, cursor, Page(rows, cursor, limit).0, Page(rows, cursor, limit).1)
    ensures |Page(rows, cursor, limit).0| <= PageSize(limit)
    ensures Page(rows, cursor, limit).1.Some? ==> |Page(rows, cursor, limit).0| == PageSize(limit)
  {
    var ordered := Candidates(rows, cursor);
    FirstTakesNext(rows, cursor, ordered, PageSize(limit));
  }

  lemma {:induction false} FirstTakesNext(rows: seq<Observation>, cursor: Option<Key>, ordered: seq<Observation>, size: nat)
    requires size > 0 && Rising(ordered) && forall r :: r in ordered <==> r in rows && Behind(cursor, r)
    ensures TakesNext(rows, cursor, FirstPage(ordered, size).0, FirstPage(ordered, size).1) && |FirstPage(ordered, size).0| <= size
  {
    if |ordered| > size { PrefixTakesNext(rows, cursor, ordered, size); }
  }

  // ---- Following the cursors ----

  /** The pages a client gets that follows the cursors; page `i` is read from `histories[i]`. The flag says
      whether the last page it got was the end. */
  ghost function Walk(histories: seq<seq<Observation>>, cursor: Option<Key>, limit: Option<int>): (seq<Observation>, bool)
    decreases |histories|
  {
    if histories == [] then ([], false)
    else
      var (page, next) := Page(histories[0], cursor, limit);
      if next.None? then (page, true)
      else
        var (rest, ended) := Walk(histories[1..], next, limit);
        (page + rest, ended)
  }

  ghost predicate InEvery(histories: seq<seq<Observation>>, r: Observation) {
    forall i :: 0 <= i < |histories| ==> r in histories[i]
  }

  /** `seen` is in order and all behind the cursor; if the end was reached, no lasting row is missing. */
  ghost predicate Sees(histories: seq<seq<Observation>>, cursor: Option<Key>, seen: seq<Observation>, ended: bool) {
    && Rising(seen) && (forall r :: r in seen ==> Behind(cursor, r))
    && (ended ==> forall r :: InEvery(histories, r) && Behind(cursor, r) ==> r in seen)
  }

  lemma {:induction false} NextPageSees(histories: seq<seq<Observation>>, cursor: Option<Key>, page: seq<Observation>, next: Option<Key>,
                     rest: seq<Observation>, ended: bool)
    requires histories != [] && TakesNext(histories[0], cursor, page, next) && next.Some?
    requires Sees(histories[1..], next, rest, ended)
    ensures Sees(histories, cursor, page + rest, ended)
  {
    JoinRising(page, rest);
    assert page[|page| - 1] in page;
    forall r | r in rest ensures Behind(cursor, r) { assert Behind(next, r); }
    forall r | ended && InEvery(histories, r) && Behind(cursor, r) ensures r in page + rest {
      assert r in histories[0];
      forall i | 0 <= i < |histories[1..]| ensures r in histories[1..][i] { assert r in histories[i + 1]; }
      assert InEvery(histories[1..], r);
    }
  }

  /** Rows may come and go between the pages: the client sees rows in order and none twice, and, if it
      reached the end, every row that was there throughout. */
  lemma {:induction false} WalkSeesEveryRowOnce(histories: seq<seq<Observation>>, cursor: Option<Key>, limit: Option<int>)
    requires forall i :: 0 <= i < |histories| ==> RowSet(histories[i])
    ensures Sees(histories, cursor, Walk(histories, cursor, limit).0, Walk(histories, cursor, limit).1)
    decreases |histories|
  {
    if histories != [] {
      var (page, next) := Page(histories[0], cursor, limit);
      PageTakesNext(histories[0], cursor, limit);
      if next.Some? {
        WalkSeesEveryRowOnce(histories[1..], next, limit);
        NextPageSees(histories, cursor, page, next, Walk(histories[1..], next, limit).0, Walk(histories[1..], next, limit).1);
      } else {
        LastPageSees(histories, cursor, page);
      }
    }
  }

  lemma {:induction false} LastPageSees(histories: seq<seq<Observation>>, cursor: Option<Key>, page: seq<Observation>)
    requires histories != [] && TakesNext(histories[0], cursor, page, None)
    ensures Sees(histories, cursor, page, true)
  {
    forall r | InEvery(histories, r) && Behind(cursor, r) ensures r in page { assert r in histories[0]; }
  }

  lemma {:induction false} JoinRising(page: seq<Observation>, rest: seq<Observation>)
    requires Rising(page) && Rising(rest) && page != []
    requires forall r :: r in rest ==> Behind(Some(Place(page[|page| - 1])), r)
    ensures Rising(page + rest)
  {
    forall i, j | 0 <= i < j < |page + rest| ensures Place((page + rest)[i]).Before(Place((page + rest)[j])) {
      if i < |page| <= j {
        assert rest[j - |page|] in rest;
        assert i < |page| - 1 ==> Place(page[i]).Before(Place(page[|page| - 1]));
      }
    }
  }

  // ---- An unchanging history ----

  ghost function Left(rows: seq<Observation>, cursor: Option<Key>): nat {
    |Filter(InOrder(rows), After(cursor))|
  }

  lemma {:induction false} NothingAfterLast(s: seq<Observation>, place: Key)
    requires Rising(s) && s != [] && place == Place(s[|s| - 1])
    ensures Filter(s, After(Some(place))) == []
  {
    var keep := After(Some(place));
    forall x | x in s ensures !keep(x) {
      var k :| 0 <= k < |s| && s[k] == x;
      assert k < |s| - 1 ==> Place(s[k]).Before(place);
    }
    FilterEmpty(s, keep);
  }

  lemma {:induction false} FilterTail(s: seq<Observation>, n: nat, place: Key)
    requires Rising(s) && 0 < n <= |s| && place == Place(s[n - 1])
    ensures Filter(s, After(Some(place))) == s[n..]
  {
    if n == |s| {
      NothingAfterLast(s, place);
    } else {
      var m := |s| - 1;
      FilterTail(s[..m], n, place);
      assert place.Before(Place(s[m]));
      FilterStep(s[..m], s[m], After(Some(place)));
      assert s == s[..m] + [s[m]] && s[n..] == s[..m][n..] + [s[m]];
    }
  }

  lemma {:induction false} PageMovesOn(rows: seq<Observation>, cursor: Option<Key>, limit: Option<int>)
    requires RowSet(rows)
    ensures var (page, next) := Page(rows, cursor, limit);
            next.Some? ==> page != [] && Filter(InOrder(rows), After(cursor)) == page + Filter(InOrder(rows), After(next))
  {
    CandidatesRise(rows, cursor);
    FirstMovesOn(InOrder(rows), cursor, Filter(InOrder(rows), After(cursor)), PageSize(limit));
  }

  lemma {:induction false} CandidatesRise(rows: seq<Observation>, cursor: Option<Key>)
    requires RowSet(rows)
    ensures Rising(Filter(InOrder(rows), After(cursor)))
  {
    var _ := Candidates(rows, cursor);
  }

  lemma {:induction false} FirstMovesOn(s: seq<Observation>, cursor: Option<Key>, ordered: seq<Observation>, size: nat)
    requires ordered == Filter(s, After(cursor)) && Rising(ordered) && size > 0
    ensures var (page, next) := FirstPage(ordered, size);
            next.Some? ==> page != [] && ordered == page + Filter(s, After(next))
  {
    if |ordered| > size { SplitAt(s, cursor, ordered, size); }
  }

  lemma {:induction false} LaterIsBehind(cursor: Option<Key>, r: Observation)
    requires Behind(cursor, r)
    ensures forall x :: After(Some(Place(r)))(x) ==> After(cursor)(x)
  {
  }

  lemma {:induction false} SplitAt(s: seq<Observation>, cursor: Option<Key>, ordered: seq<Observation>, n: nat)
    requires ordered == Filter(s, After(cursor)) && Rising(ordered) && 0 < n < |ordered|
    ensures ordered == ordered[..n] + Filter(s, After(Some(Place(ordered[n - 1]))))
  {
    var last := ordered[n - 1];
    FilteredIsBehind(s, cursor, last);
    LaterIsBehind(cursor, last);
    FilterTwice(s, After(cursor), After(Some(Place(last))));
    FilterTail(ordered, n, Place(last));
  }

  lemma {:induction false} FilteredIsBehind(s: seq<Observation>, cursor: Option<Key>, r: Observation)
    requires r in Filter(s, After(cursor))
    ensures Behind(cursor, r)
  {
    FilterMember(s, After(cursor), r);
  }

  ghost function Follow(rows: seq<Observation>, cursor: Option<Key>, limit: Option<int>): seq<Observation>
    requires RowSet(rows)
    decreases Left(rows, cursor)
  {
    var (page, next) := Page(rows, cursor, limit);
    PageMovesOn(rows, cursor, limit);
    if next.None? then page else page + Follow(rows, next, limit)
  }

  /** On an unchanging history the pages, put together, are the whole sorted history, for any page size. */
  lemma {:induction false} PagesAreTheHistory(rows: seq<Observation>, cursor: Option<Key>, limit: Option<int>)
    requires RowSet(rows)
    ensures Follow(rows, cursor, limit) == Filter(InOrder(rows), After(cursor))
    ensures cursor.None? ==> Follow(rows, cursor, limit) == InOrder(rows)
    decreases Left(rows, cursor)
  {
    var (page, next) := Page(rows, cursor, limit);
    PageMovesOn(rows, cursor, limit);
    if next.Some? { PagesAreTheHistory(rows, next, limit); }
    if cursor.None? { FilterKeepsAll(InOrder(rows), After(cursor)); }
  }

  /** A client that follows the cursors of an unchanging history gets all of it, and comes to the end. */
  lemma {:induction false} WalkEnds(rows: seq<Observation>, histories: seq<seq<Observation>>, cursor: Option<Key>, limit: Option<int>)
    requires RowSet(rows) && |histories| > Left(rows, cursor) && forall i :: 0 <= i < |histories| ==> histories[i] == rows
    ensures Walk(histories, cursor, limit) == (Filter(InOrder(rows), After(cursor)), true)
    decreases |histories|
  {
    var (page, next) := Page(rows, cursor, limit);
    PageMovesOn(rows, cursor, limit);
    PagesAreTheHistory(rows, cursor, limit);
    if next.Some? {
      assert |histories[1..]| > Left(rows, next);
      WalkEnds(rows, histories[1..], next, limit);
    }
  }
}
