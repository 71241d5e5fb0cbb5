/** The price summary of a shopping list, and the two counters a client may cache it under. */
module PriceSummaries {
  import opened Basics
  import opened Pricing
  import opened Sorting
  import opened PriceHistory
  import R = Receipts
  import RL = ReceiptLaws
  import opened PriceObservations
  import opened WriteReadAgreement
  import L = ShoppingLists
  import LL = ShoppingListLaws

  datatype AgeLabel = Recent | Older | Old

  const RECENT_MAX_DAYS := 30
  const OLDER_MAX_DAYS := 90

  function Age(date: int, today: int): AgeLabel {
    if today - date <= RECENT_MAX_DAYS then Recent else if today - date <= OLDER_MAX_DAYS then Older else Old
  }

  datatype LowestResponse = LowestResponse(
    amount: int, store: Option<Id>, identity: Option<StoreIdentity>, date: int, age: AgeLabel, basis: Basis)

  datatype NoPrice = FreeTextNoHistory | NeverObserved | NoQualifiedObservation

  datatype SummaryLine = SummaryLine(
    itemId: Id, product: Option<Id>, freeText: Option<string>, thousandths: int, unit: L.Unit,
    reason: Option<NoPrice>, lowest: Option<LowestResponse>, stores: nat)

  function Reason(item: L.ItemRow, rows: seq<Observation>): NoPrice {
    if item.product.None? then FreeTextNoHistory else if rows == [] then NeverObserved else NoQualifiedObservation
  }

  function LowestAnswer(lowest: Option<Lowest>, today: int): Option<LowestResponse> {
    if lowest.None? then None
    else
      var primary := lowest.value.primary;
      Some(LowestResponse(Displayed(lowest.value.price), primary.store, primary.identity, primary.date.GetOr(0),
                          Age(primary.date.GetOr(0), today), primary.basis))
  }

  function Stores(rows: seq<Observation>): set<Option<Id>> {
    set r | r in rows :: r.store
  }

  /** The line of `item`, whose product's purchases are `rows` and whose minimum is `lowest`. */
  function MakeLine(id: Id, item: L.ItemRow, rows: seq<Observation>, today: int, lowest: Option<Lowest>): SummaryLine {
    SummaryLine(id, item.product, item.freeText, item.thousandths, item.unit,
                if lowest.Some? then None else Some(Reason(item, rows)),
                LowestAnswer(lowest, today), |Stores(Comparables(rows))|)
  }

  /** The purchases the minimum is taken of. */
  function Comparables(rows: seq<Observation>): seq<Observation> {
    Rankable(ApplyPriceBasis(rows).1)
  }

  ghost predicate IsLine(id: Id, item: L.ItemRow, rows: seq<Observation>, today: int, line: SummaryLine) {
    exists lowest :: IsLowest(Comparables(rows), lowest) && line == MakeLine(id, item, rows, today, lowest)
  }

  // ---- A whole summary ----

  function ByPosition(x: (Id, L.ItemRow)): Key {
    Key(x.1.position, x.0.n)
  }

  /** The list's remaining items, by position and then by id. */
  ghost predicate IsItemQuery(db: L.Db, listId: Id, items: seq<(Id, L.ItemRow)>) {
    && Ordered(items, ByPosition)
    && forall x :: multiset(items)[x] ==
                   if x.0 in L.ActiveItems(db.items, listId) && db.items[x.0] == x.1 then 1 else 0
  }

  function Products(items: seq<(Id, L.ItemRow)>): set<Id> {
    set x | x in items && x.1.product.Some? :: x.1.product.value
  }

  type Reading = L.ItemRow -> seq<Observation>

  /** What the purchases of an item's product are read as; text has none. */
  function RowsFor(uuid: RowRef -> Id, prices: seq<JoinedPrice>, lines: seq<JoinedLine>, conditional: bool): Reading {
    (item: L.ItemRow) => if item.product.Some? then Loaded(uuid, prices, lines, conditional, item.product) else []
  }

  /** `summary` is an answer for the list: some order of the rows, one line for each item. */
  ghost predicate IsSummary(db: L.Db, acc: R.Account, uuid: RowRef -> Id, listId: Id, conditional: bool, today: int, summary: seq<SummaryLine>) {
    exists items, prices, lines :: IsSummaryOf(db, acc, uuid, listId, conditional, today, summary, items, prices, lines)
  }

  ghost predicate IsSummaryOf(db: L.Db, acc: R.Account, uuid: RowRef -> Id, listId: Id, conditional: bool, today: int, summary: seq<SummaryLine>,
                              items: seq<(Id, L.ItemRow)>, prices: seq<JoinedPrice>, lines: seq<JoinedLine>) {
    && IsItemQuery(db, listId, items)
    && IsPriceQuery(acc, Products(items), prices) && IsLineQuery(acc, Products(items), lines)
    && AreLines(RowsFor(uuid, prices, lines, conditional), today, items, summary)
  }

  ghost predicate AreLines(rows: Reading, today: int, items: seq<(Id, L.ItemRow)>, summary: seq<SummaryLine>) {
    && |summary| == |items|
    && forall i :: 0 <= i < |items| ==> IsLine(items[i].0, items[i].1, rows(items[i].1), today, summary[i])
  }

  lemma {:induction false} ComparablesAreWellFilled(rows: seq<Observation>)
    requires WellFilled(rows)
    ensures WellFilled(Comparables(rows))
  {
    RankableAfterBasis(rows);
    FilterMembers(rows, OfBasis(ChosenBasis(rows)));
  }

  method Line(id: Id, item: L.ItemRow, rows: seq<Observation>, today: int) returns (line: SummaryLine)
    requires WellFilled(rows)
    ensures IsLine(id, item, rows, today, line)
  {
    ComparablesAreWellFilled(rows);
    var lowest := HistoricalLowest(Comparables(rows));
    line := MakeLine(id, item, rows, today, lowest);
  }

  /** `observations` was read for the products of `items`. */
  method Lines(observations: Grouped, ghost rows: Reading, today: int, items: seq<(Id, L.ItemRow)>) returns (summary: seq<SummaryLine>)
    requires forall i :: 0 <= i < |items| ==> WellFilled(rows(items[i].1))
    requires forall i :: 0 <= i < |items| ==>
      rows(items[i].1) == if items[i].1.product.Some? then Get(observations, items[i].1.product) else []
    ensures AreLines(rows, today, items, summary)
  {
    summary := [];
    for i := 0 to |items|
      invariant AreLines(rows, today, items[..i], summary)
    {
      var item := items[i].1;
      var line := Line(items[i].0, item, if item.product.Some? then Get(observations, item.product) else [], today);
      summary := summary + [line];
    }
    assert items[..|items|] == items;
  }

  /** The answer for `listId`, given what the three queries returned. */
  method Summarize(ghost db: L.Db, ghost acc: R.Account, uuid: RowRef -> Id, ghost listId: Id, conditional: bool, today: int,
                   items: seq<(Id, L.ItemRow)>, prices: seq<JoinedPrice>, lines: seq<JoinedLine>)
    returns (summary: seq<SummaryLine>)
    requires RL.Inv(acc) && IsItemQuery(db, listId, items)
    requires IsPriceQuery(acc, Products(items), prices) && IsLineQuery(acc, Products(items), lines)
    ensures IsSummaryOf(db, acc, uuid, listId, conditional, today, summary, items, prices, lines)
  {
    var observations := Observations(uuid, prices, lines, conditional);
    ghost var rows := RowsFor(uuid, prices, lines, conditional);
    forall i | 0 <= i < |items| ensures WellFilled(rows(items[i].1)) {
      if items[i].1.product.Some? {
        LoadedIsWellFilled(acc, uuid, Products(items), prices, lines, conditional, items[i].1.product.value);
      }
    }
    summary := Lines(observations, rows, today, items);
  }

  // ---- One line ----

  lemma {:induction false} RankableIsDistinct(rows: seq<Observation>)
    requires DistinctRows(rows)
    ensures DistinctRows(Comparables(rows))
  {
    var rankable := Comparables(rows);
    RankableAfterBasis(rows);
    FilterMembers(rows, OfBasis(ChosenBasis(rows)));
    forall r, s | Has(rankable, r) && Has(rankable, s) && r.rowId == s.rowId ensures r == s {
      assert Has(rows, r) && Has(rows, s);
    }
  }

  lemma {:induction false} ComparablesIgnoreOrder(a: seq<Observation>, b: seq<Observation>)
    requires multiset(a) == multiset(b) && DistinctRows(a)
    ensures SameRows(Comparables(a), Comparables(b)) && (a == [] <==> b == [])
    ensures Stores(Comparables(a)) == Stores(Comparables(b))
  {
    BasisIgnoresOrder(a, b);
    SameElements(Comparables(a), Comparables(b));
    SameElements(a, b);
  }

  lemma {:induction false} LowestOfLine(id: Id, item: L.ItemRow, rows: seq<Observation>, today: int, x: SummaryLine) returns (lowest: Option<Lowest>)
    requires IsLine(id, item, rows, today, x)
    ensures IsLowest(Comparables(rows), lowest) && x == MakeLine(id, item, rows, today, lowest)
  {
    lowest :| IsLowest(Comparables(rows), lowest) && x == MakeLine(id, item, rows, today, lowest);
  }

  lemma {:induction false} SameMadeLine(id: Id, item: L.ItemRow, a: seq<Observation>, b: seq<Observation>, today: int, lowest: Option<Lowest>)
    requires (a == [] <==> b == []) && Stores(Comparables(a)) == Stores(Comparables(b))
    ensures MakeLine(id, item, a, today, lowest) == MakeLine(id, item, b, today, lowest)
  {
  }

  lemma {:induction false} LineIgnoresOrder(id: Id, item: L.ItemRow, a: seq<Observation>, b: seq<Observation>, today: int, x: SummaryLine, y: SummaryLine)
    requires multiset(a) == multiset(b) && DistinctRows(a)
    requires IsLine(id, item, a, today, x) && IsLine(id, item, b, today, y)
    ensures x == y
  {
    ComparablesIgnoreOrder(a, b);
    RankableIsDistinct(a);
    var la := LowestOfLine(id, item, a, today, x);
    var lb := LowestOfLine(id, item, b, today, y);
    LowestIsUnique(Comparables(a), Comparables(b), la, lb);
    SameMadeLine(id, item, a, b, today, la);
  }

  // ---- Equal counters ----

  lemma {:induction false} SameBookSameLines(a: R.Account, b: R.Account, x: JoinedLine)
    requires RL.Inv(a) && RL.Inv(b) && RL.Extends(a, b) && R.PriceDataVersion(a) == R.PriceDataVersion(b)
    ensures JoinsLine(a, x) <==> JoinsLine(b, x)
  {
    assert RL.Numbered(a, x.key) && RL.Numbered(b, x.key);
    assert RL.IsConfirmed(a, x.key) <==> RL.IsConfirmed(b, x.key);
  }

  lemma {:induction false} ItemUnchanged(db: L.Db, db': L.Db, listId: Id, id: Id)
    requires id in db.items && LL.ItemAdvances(db, db', id) && LL.ValidItem(db, id) && LL.ValidItem(db', id)
    requires listId in db.lists && LL.ValidList(db, listId) && listId in db'.lists
    requires db'.lists[listId].contentSeq == db.lists[listId].contentSeq
    requires db.items[id].listId == listId
    ensures db'.items[id] == db.items[id]
  {
  }

  lemma {:induction false} ItemNotAdded(db: L.Db, db': L.Db, listId: Id, id: Id)
    requires id in db'.items && LL.ItemIsNew(db, db', id) && LL.ValidItem(db', id)
    requires listId in db.lists && LL.ValidList(db, listId) && listId in db'.lists
    requires db'.lists[listId].contentSeq == db.lists[listId].contentSeq && db'.lists[listId].user == db.lists[listId].user
    ensures db'.items[id].listId != listId
  {
  }

  /** An equal content revision means no row of the list has changed. */
  lemma {:induction false} SameRevisionSameItems(db: L.Db, db': L.Db, listId: Id, id: Id, row: L.ItemRow)
    requires LL.Inv(db) && LL.Inv(db') && LL.Advances(db, db')
    requires listId in db.lists && listId in db'.lists && db'.lists[listId].contentSeq == db.lists[listId].contentSeq
    ensures id in L.ActiveItems(db.items, listId) && db.items[id] == row <==>
              id in L.ActiveItems(db'.items, listId) && db'.items[id] == row
  {
    assert LL.ListAdvances(db, db', listId) && LL.ValidList(db, listId);
    if id in db.items {
      assert LL.ItemAdvances(db, db', id) && LL.ValidItem(db, id) && LL.ValidItem(db', id);
      if db.items[id].listId == listId { ItemUnchanged(db, db', listId, id); }
    } else if id in db'.items {
      assert LL.ItemIsNew(db, db', id) && LL.ValidItem(db', id);
      ItemNotAdded(db, db', listId, id);
    }
  }

  lemma {:induction false} SameItems(db: L.Db, db': L.Db, listId: Id, items: seq<(Id, L.ItemRow)>, items': seq<(Id, L.ItemRow)>)
    requires LL.Inv(db) && LL.Inv(db') && LL.Advances(db, db')
    requires listId in db.lists && listId in db'.lists && db'.lists[listId].contentSeq == db.lists[listId].contentSeq
    requires IsItemQuery(db, listId, items) && IsItemQuery(db', listId, items')
    ensures items == items'
  {
    forall x ensures multiset(items)[x] == multiset(items')[x] {
      SameRevisionSameItems(db, db', listId, x.0, x.1);
    }
    assert multiset(items) == multiset(items');
    forall x, y | x in items && y in items && ByPosition(x) == ByPosition(y) ensures x == y {
      assert multiset(items)[x] > 0 && multiset(items)[y] > 0;
      assert x.0 == y.0;
    }
    OrderedIsUnique(items, items', ByPosition);
  }

  lemma {:induction false} SameLine(a: R.Account, b: R.Account, uuid: RowRef -> Id, conditional: bool, today: int, products: set<Id>,
                 prices: seq<JoinedPrice>, lines: seq<JoinedLine>, prices': seq<JoinedPrice>, lines': seq<JoinedLine>,
                 id: Id, item: L.ItemRow, x: SummaryLine, y: SummaryLine)
    requires RL.Inv(a) && RL.Inv(b) && Injective(uuid) && RL.Extends(a, b) && R.PriceDataVersion(a) == R.PriceDataVersion(b)
    requires IsPriceQuery(a, products, prices) && IsLineQuery(a, products, lines)
    requires IsPriceQuery(b, products, prices') && IsLineQuery(b, products, lines')
    requires item.product.Some? ==> item.product.value in products
    requires IsLine(id, item, RowsFor(uuid, prices, lines, conditional)(item), today, x)
    requires IsLine(id, item, RowsFor(uuid, prices', lines', conditional)(item), today, y)
    ensures x == y
  {
    if item.product.Some? {
      forall j ensures JoinsLine(a, j) <==> JoinsLine(b, j) { SameBookSameLines(a, b, j); }
      SameReadings(a, b, uuid, products, products, prices, lines, prices', lines', conditional, item.product.value);
      LoadedIsDistinct(a, uuid, products, prices, lines, conditional, item.product.value);
    }
    LineIgnoresOrder(id, item, RowsFor(uuid, prices, lines, conditional)(item), RowsFor(uuid, prices', lines', conditional)(item), today, x, y);
  }

  /** Two answers at moments with the same two counters, day and filter are line by line the same. */
  lemma {:induction false} SameCountersSameSummary(db: L.Db, a: R.Account, db': L.Db, b: R.Account, uuid: RowRef -> Id, listId: Id,
                                conditional: bool, today: int, x: seq<SummaryLine>, y: seq<SummaryLine>)
    requires LL.Inv(db) && LL.Inv(db') && LL.Advances(db, db') && RL.Inv(a) && RL.Inv(b) && RL.Extends(a, b) && Injective(uuid)
    requires listId in db.lists && listId in db'.lists && db'.lists[listId].contentSeq == db.lists[listId].contentSeq
    requires R.PriceDataVersion(a) == R.PriceDataVersion(b)
    requires IsSummary(db, a, uuid, listId, conditional, today, x) && IsSummary(db', b, uuid, listId, conditional, today, y)
    ensures x == y
  {
    var items: seq<(Id, L.ItemRow)>, prices, lines :| IsSummaryOf(db, a, uuid, listId, conditional, today, x, items, prices, lines);
    var items': seq<(Id, L.ItemRow)>, prices', lines' :| IsSummaryOf(db', b, uuid, listId, conditional, today, y, items', prices', lines');
    SameItems(db, db', listId, items, items');
    SameLines(db, a, db', b, uuid, listId, conditional, today, x, y, items, prices, lines, prices', lines');
  }

  lemma {:induction false} SameLines(db: L.Db, a: R.Account, db': L.Db, b: R.Account, uuid: RowRef -> Id, listId: Id,
                  conditional: bool, today: int, x: seq<SummaryLine>, y: seq<SummaryLine>, items: seq<(Id, L.ItemRow)>,
                  prices: seq<JoinedPrice>, lines: seq<JoinedLine>, prices': seq<JoinedPrice>, lines': seq<JoinedLine>)
    requires RL.Inv(a) && RL.Inv(b) && Injective(uuid) && RL.Extends(a, b) && R.PriceDataVersion(a) == R.PriceDataVersion(b)
    requires IsSummaryOf(db, a, uuid, listId, conditional, today, x, items, prices, lines)
    requires IsSummaryOf(db', b, uuid, listId, conditional, today, y, items, prices', lines')
    ensures x == y
  {
    forall i | 0 <= i < |items| ensures x[i] == y[i] {
      var item: L.ItemRow := items[i].1;
      assert items[i] in items;
      assert item.product.Some? ==> item.product.value in Products(items);
      SameLine(a, b, uuid, conditional, today, Products(items), prices, lines, prices', lines', items[i].0, item, x[i], y[i]);
    }
  }

  // ---- Runs ----

  /** Whatever the account's devices and receipts did between two requests, equal content revision, price
      data version, day and filter mean an equal summary: a cached one may be shown for the other. */
  lemma {:induction false} CacheKeyIsSound(db: L.Db, calls: seq<LL.UserCall>, acc: R.Account, events: seq<RL.Event>, uuid: RowRef -> Id, listId: Id,
                        conditional: bool, today: int, cached: seq<SummaryLine>, current: seq<SummaryLine>)
    requires LL.Inv(db) && RL.Inv(acc) && Injective(uuid) && listId in db.lists
    requires listId in LL.Run(db, calls).lists && LL.Run(db, calls).lists[listId].contentSeq == db.lists[listId].contentSeq
    requires R.PriceDataVersion(RL.Run(acc, events)) == R.PriceDataVersion(acc)
    requires IsSummary(db, acc, uuid, listId, conditional, today, cached)
    requires IsSummary(LL.Run(db, calls), RL.Run(acc, events), uuid, listId, conditional, today, current)
    ensures cached == current
  {
    LL.RunKeeps(db, calls);
    RL.RunKeeps(acc, events);
    SameCountersSameSummary(db, acc, LL.Run(db, calls), RL.Run(acc, events), uuid, listId, conditional, today, cached, current);
  }
}
