/** Confirmations between the reads of a price summary: what the answer holds, exactly when it agrees with the other
    answers of its version, and kinds of confirmations after which it never does. */
module TornReads {
  import opened Basics
  import opened Pricing
  import opened Sorting
  import opened PriceHistory
  import R = Receipts
  import RL = ReceiptLaws
  import opened PriceObservations
  import opened WriteReadAgreement
  import opened PriceSummaries
  import opened ShownPrices
  import opened SummaryReads
  import L = ShoppingLists
  import LL = ShoppingListLaws

  // ---- What two queries at two moments return together ----

  /** The prices were read at `a`, the lines at the same or a later `b`. */
  ghost predicate Queried(a: R.Account, b: R.Account, products: set<Id>, prices: seq<JoinedPrice>, lines: seq<JoinedLine>) {
    RL.Inv(a) && RL.Inv(b) && RL.Extends(a, b) && IsPriceQuery(a, products, prices) && IsLineQuery(b, products, lines)
  }

  /** The line had a published price when the prices were read. */
  ghost predicate ReadAsPrice(a: R.Account, x: JoinedLine) {
    JoinsLine(a, x) && R.Publishes(x.line)
  }

  /** The answer reads the line: it is current when the lines are read, or was a published price before. */
  ghost predicate IsRead(a: R.Account, b: R.Account, x: JoinedLine, product: Id) {
    Wanted(b, x, product) || (Wanted(a, x, product) && ReadAsPrice(a, x))
  }

  ghost function TornRow(a: R.Account, uuid: RowRef -> Id, x: JoinedLine, conditional: bool): Observation {
    if ReadAsPrice(a, x) then FromPrice(uuid, PublishedAs(x)) else FromLine(uuid, x, conditional)
  }

  lemma {:induction false} SameLineLater(a: R.Account, b: R.Account, x: JoinedLine, y: JoinedLine)
    requires RL.Inv(a) && RL.Inv(b) && RL.Extends(a, b) && JoinsLine(a, y) && JoinsLine(b, x)
    requires y.key == x.key && y.line.input.id == x.line.input.id
    ensures x == y
  {
    assert RL.IsConfirmed(a, y.key) && RL.Numbered(b, x.key);
  }

  lemma {:induction false} SeenIff(a: R.Account, b: R.Account, products: set<Id>, prices: seq<JoinedPrice>, lines: seq<JoinedLine>, x: JoinedLine)
    requires Queried(a, b, products, prices, lines) && JoinsLine(b, x)
    requires x.line.input.product.Some? && x.line.input.product.value in products
    ensures (x.key, x.line.input.id) in Seen(prices) <==> ReadAsPrice(a, x)
  {
    if ReadAsPrice(a, x) { SeenMeansPublished(a, products, prices, x); }
    if (x.key, x.line.input.id) in Seen(prices) {
      var p :| p in prices && (p.row.key, p.row.line) == (x.key, x.line.input.id);
      assert multiset(prices)[p] > 0;
      var y := PriceIsLine(a, p);
      SameLineLater(a, b, x, y);
    }
  }

  lemma {:induction false} TornOrigin(a: R.Account, b: R.Account, uuid: RowRef -> Id, products: set<Id>, prices: seq<JoinedPrice>,
                                      lines: seq<JoinedLine>, conditional: bool, product: Id, r: Observation) returns (x: JoinedLine)
    requires Queried(a, b, products, prices, lines) && product in products
    requires r in Loaded(uuid, prices, lines, conditional, Some(product))
    ensures IsRead(a, b, x, product) && r == TornRow(a, uuid, x, conditional)
  {
    var kept, rest := PricesOf(prices, Some(product)), LinesOf(prices, lines, Some(product));
    var rows := Joined(uuid, kept, rest, conditional);
    var i :| 0 <= i < |rows| && rows[i] == r;
    KeptRows(prices, lines, product);
    JoinedAt(uuid, kept, rest, conditional, i);
    if i < |kept| {
      assert kept[i] in kept;
      x := PriceOrigin(a, products, prices, product, kept[i]);
    } else {
      x := rest[i - |kept|];
      assert x in rest && multiset(lines)[x] > 0;
      SeenIff(a, b, products, prices, lines, x);
    }
  }

  lemma {:induction false} TornIsLoaded(a: R.Account, b: R.Account, uuid: RowRef -> Id, products: set<Id>, prices: seq<JoinedPrice>,
                                        lines: seq<JoinedLine>, conditional: bool, product: Id, x: JoinedLine)
    requires Queried(a, b, products, prices, lines) && product in products && IsRead(a, b, x, product)
    ensures TornRow(a, uuid, x, conditional) in Loaded(uuid, prices, lines, conditional, Some(product))
  {
    var kept, rest := PricesOf(prices, Some(product)), LinesOf(prices, lines, Some(product));
    if ReadAsPrice(a, x) {
      LineIsPrice(a, x);
      assert multiset(prices)[PublishedAs(x)] == 1;
      FilterMember(prices, PriceIs(Some(product)), PublishedAs(x));
      PriceIsJoined(uuid, kept, rest, conditional, PublishedAs(x));
    } else {
      SeenIff(a, b, products, prices, lines, x);
      assert multiset(lines)[x] == 1;
      FilterMember(lines, LineIs(Some(product), Seen(prices)), x);
      LineIsJoined(uuid, kept, rest, conditional, x);
    }
  }

  /** The purchases an answer holds for a product: the lines current at the second query, and besides them every price
      current at the first, corrected since or not. A line whose price was not there yet is read as a line. */
  lemma {:induction false} TornReadHolds(a: R.Account, b: R.Account, uuid: RowRef -> Id, products: set<Id>, prices: seq<JoinedPrice>,
                                         lines: seq<JoinedLine>, conditional: bool, product: Id, r: Observation)
    requires Queried(a, b, products, prices, lines) && product in products
    ensures r in Loaded(uuid, prices, lines, conditional, Some(product))
            <==> exists x :: IsRead(a, b, x, product) && r == TornRow(a, uuid, x, conditional)
  {
    if r in Loaded(uuid, prices, lines, conditional, Some(product)) {
      var x := TornOrigin(a, b, uuid, products, prices, lines, conditional, product, r);
      assert IsRead(a, b, x, product);
    }
    if exists x :: IsRead(a, b, x, product) && r == TornRow(a, uuid, x, conditional) {
      var x :| IsRead(a, b, x, product) && r == TornRow(a, uuid, x, conditional);
      TornIsLoaded(a, b, uuid, products, prices, lines, conditional, product, x);
    }
  }

  /** A correction between the two queries: the answer holds the purchase twice, at the price from before and as the
      line that replaced it. */
  lemma {:induction false} CorrectedIsReadTwice(a: R.Account, b: R.Account, uuid: RowRef -> Id, products: set<Id>, prices: seq<JoinedPrice>,
                                                lines: seq<JoinedLine>, conditional: bool, product: Id, x: JoinedLine, y: JoinedLine)
    requires Queried(a, b, products, prices, lines) && product in products && Injective(uuid)
    requires Wanted(a, x, product) && R.Publishes(x.line) && Wanted(b, y, product)
    requires y.key.receipt == x.key.receipt && y.key.number > x.key.number && y.line.input.id == x.line.input.id
    ensures var rows := Loaded(uuid, prices, lines, conditional, Some(product));
            && FromPrice(uuid, PublishedAs(x)) in rows && FromLine(uuid, y, conditional) in rows
            && FromPrice(uuid, PublishedAs(x)).rowId != FromLine(uuid, y, conditional).rowId
  {
    TornIsLoaded(a, b, uuid, products, prices, lines, conditional, product, x);
    TornIsLoaded(a, b, uuid, products, prices, lines, conditional, product, y);
    assert !JoinsLine(a, y);
  }

  // ---- Rows that differ, and rows that count ----

  lemma {:induction false} PriceRowsDiffer(a: R.Account, uuid: RowRef -> Id, products: set<Id>, prices: seq<JoinedPrice>, product: Id, i: nat, j: nat)
    requires RL.Inv(a) && IsPriceQuery(a, products, prices) && Injective(uuid) && i < j < |PricesOf(prices, Some(product))|
    ensures var kept := PricesOf(prices, Some(product)); FromPrice(uuid, kept[i]).rowId != FromPrice(uuid, kept[j]).rowId
  {
    var kept := PricesOf(prices, Some(product));
    FilterMembers(prices, PriceIs(Some(product)));
    assert kept[i] in kept && kept[j] in kept;
    var x := PriceOrigin(a, products, prices, product, kept[i]);
    var y := PriceOrigin(a, products, prices, product, kept[j]);
    if FromPrice(uuid, kept[i]).rowId == FromPrice(uuid, kept[j]).rowId {
      assert PriceRef(x.key, x.line.input.id) == PriceRef(y.key, y.line.input.id);
      WriteReadAgreement.SameLine(a, x, y);
      PriceReadOnce(a, products, prices, PriceIs(Some(product)), x);
      NotTwice(kept, i, j);
    }
  }

  lemma {:induction false} LineRowsDiffer(b: R.Account, uuid: RowRef -> Id, products: set<Id>, prices: seq<JoinedPrice>, lines: seq<JoinedLine>,
                                          conditional: bool, product: Id, i: nat, j: nat)
    requires RL.Inv(b) && IsLineQuery(b, products, lines) && Injective(uuid) && i < j < |LinesOf(prices, lines, Some(product))|
    ensures var rest := LinesOf(prices, lines, Some(product));
            FromLine(uuid, rest[i], conditional).rowId != FromLine(uuid, rest[j], conditional).rowId
  {
    var rest := LinesOf(prices, lines, Some(product));
    FilterMembers(lines, LineIs(Some(product), Seen(prices)));
    assert rest[i] in rest && rest[j] in rest;
    assert multiset(lines)[rest[i]] > 0 && multiset(lines)[rest[j]] > 0;
    if FromLine(uuid, rest[i], conditional).rowId == FromLine(uuid, rest[j], conditional).rowId {
      assert LineRef(rest[i].key, rest[i].line.position) == LineRef(rest[j].key, rest[j].line.position);
      LineReadOnce(b, products, lines, LineIs(Some(product), Seen(prices)), rest[i]);
      NotTwice(rest, i, j);
    }
  }

  lemma {:induction false} JoinedDiffer(uuid: RowRef -> Id, kept: seq<JoinedPrice>, rest: seq<JoinedLine>, conditional: bool)
    requires Injective(uuid)
    requires forall i, j :: 0 <= i < j < |kept| ==> FromPrice(uuid, kept[i]).rowId != FromPrice(uuid, kept[j]).rowId
    requires forall i, j :: 0 <= i < j < |rest| ==> FromLine(uuid, rest[i], conditional).rowId != FromLine(uuid, rest[j], conditional).rowId
    ensures DistinctRows(Joined(uuid, kept, rest, conditional))
  {
    var rows := Joined(uuid, kept, rest, conditional);
    forall i, j | 0 <= i < j < |rows| ensures rows[i].rowId != rows[j].rowId {
      JoinedAt(uuid, kept, rest, conditional, i);
      JoinedAt(uuid, kept, rest, conditional, j);
      if i < |kept| <= j {
        assert PriceRef(kept[i].row.key, kept[i].row.line) != LineRef(rest[j - |kept|].key, rest[j - |kept|].line.position);
      }
    }
    DifferentIds(rows);
  }

  lemma {:induction false} TornIsDistinct(a: R.Account, b: R.Account, uuid: RowRef -> Id, products: set<Id>, prices: seq<JoinedPrice>,
                                          lines: seq<JoinedLine>, conditional: bool, product: Id)
    requires Queried(a, b, products, prices, lines) && Injective(uuid)
    ensures DistinctRows(Loaded(uuid, prices, lines, conditional, Some(product)))
  {
    var kept, rest := PricesOf(prices, Some(product)), LinesOf(prices, lines, Some(product));
    forall i, j | 0 <= i < j < |kept| ensures FromPrice(uuid, kept[i]).rowId != FromPrice(uuid, kept[j]).rowId {
      PriceRowsDiffer(a, uuid, products, prices, product, i, j);
    }
    forall i, j | 0 <= i < j < |rest| ensures FromLine(uuid, rest[i], conditional).rowId != FromLine(uuid, rest[j], conditional).rowId {
      LineRowsDiffer(b, uuid, products, prices, lines, conditional, product, i, j);
    }
    JoinedDiffer(uuid, kept, rest, conditional);
  }

  /** What counts in a minimum counts in either form, at the same price, in the same basis, on the same day and at the
      same store. */
  lemma {:induction false} TornRowCounts(a: R.Account, b: R.Account, uuid: RowRef -> Id, x: JoinedLine, product: Id, conditional: bool)
    requires RL.Inv(a) && RL.Inv(b) && IsRead(a, b, x, product)
    ensures var r, read := TornRow(a, uuid, x, conditional), Read(uuid, x, conditional);
            && (r.Ranked() <==> read.Ranked())
            && (r.Ranked() ==> r.price == x.line.price && r.price.Some? && r.basis == x.line.basis && r.date.Some? && r.store.Some?)
  {
    var acc := if Wanted(b, x, product) then b else a;
    RankedIff(acc, uuid, x, conditional);
    assert RL.Numbered(acc, x.key) && RL.SoundLine(x.revision, x.line);
    var own := LineReasons(x.line, conditional);
    FilterMembers(x.line.reasons, NotConditional);
    FilterEmpty(own, NotUndated);
  }

  // ---- Exactly when an answer agrees with its version ----

  lemma {:induction false} ReadingIsDistinct(a: R.Account, b: R.Account, uuid: RowRef -> Id, products: set<Id>, prices: seq<JoinedPrice>,
                                             lines: seq<JoinedLine>, conditional: bool, item: L.ItemRow)
    requires Queried(a, b, products, prices, lines) && Injective(uuid)
    ensures DistinctRows(RowsFor(uuid, prices, lines, conditional)(item))
  {
    if item.product.Some? { TornIsDistinct(a, b, uuid, products, prices, lines, conditional, item.product.value); }
  }

  /** An answer, whatever committed between its reads, agrees with an answer read at the moment of its version if and
      only if for every item both readings show the same: the displayed minimum with its basis, the store and day of its
      first purchase, and the number of stores, or the same reason why there is none. */
  lemma {:induction false} AgreesIff(r: Reads, uuid: RowRef -> Id, listId: Id, conditional: bool, today: int, x: seq<SummaryLine>,
                                     after: seq<SummaryLine>, items: seq<(Id, L.ItemRow)>, prices: seq<JoinedPrice>, lines: seq<JoinedLine>,
                                     prices': seq<JoinedPrice>, lines': seq<JoinedLine>)
    requires InOrder(r) && Injective(uuid) && ReadsGive(r, uuid, listId, conditional, today, x, items, prices, lines)
    requires IsSummaryOf(r.items, r.version, uuid, listId, conditional, today, after, items, prices', lines')
    ensures x == after <==>
            forall i :: 0 <= i < |items| ==> SameShown(RowsFor(uuid, prices, lines, conditional)(items[i].1),
                                                       RowsFor(uuid, prices', lines', conditional)(items[i].1))
  {
    SelfExtends(r.version);
    forall i | 0 <= i < |items|
      ensures x[i] == after[i] <==> SameShown(RowsFor(uuid, prices, lines, conditional)(items[i].1),
                                              RowsFor(uuid, prices', lines', conditional)(items[i].1))
    {
      ReadingIsDistinct(r.prices, r.lines, uuid, Products(items), prices, lines, conditional, items[i].1);
      ReadingIsDistinct(r.version, r.version, uuid, Products(items), prices', lines', conditional, items[i].1);
      LineIff(items[i].0, items[i].1, RowsFor(uuid, prices, lines, conditional)(items[i].1),
              RowsFor(uuid, prices', lines', conditional)(items[i].1), today, x[i], after[i]);
    }
  }

  // ---- Confirmations after which an answer does not agree ----

  /** The line is current at `acc` and counts in the product's minimum. */
  ghost predicate Counts(acc: R.Account, uuid: RowRef -> Id, conditional: bool, product: Id, l: JoinedLine) {
    Wanted(acc, l, product) && Read(uuid, l, conditional).Ranked()
  }

  ghost predicate NoneCounts(acc: R.Account, uuid: RowRef -> Id, conditional: bool, product: Id) {
    forall l :: !Counts(acc, uuid, conditional, product, l)
  }

  ghost predicate OneBasis(acc: R.Account, uuid: RowRef -> Id, conditional: bool, product: Id, basis: Basis) {
    forall l :: Counts(acc, uuid, conditional, product, l) ==> l.line.basis == basis
  }

  /** All that counts at `acc` in the basis of `l` is displayed at a higher price than `l`. */
  ghost predicate AllDearer(acc: R.Account, uuid: RowRef -> Id, conditional: bool, product: Id, l: JoinedLine) {
    forall m :: Counts(acc, uuid, conditional, product, m) && m.line.basis == l.line.basis ==>
      Displayed(l.line.price.GetOr(0)) < Displayed(m.line.price.GetOr(0))
  }

  /** One item's line in two answers, and the queries they were made from. */
  ghost predicate TwoLines(a: R.Account, b: R.Account, c: R.Account, d: R.Account, uuid: RowRef -> Id, products: set<Id>,
                           prices: seq<JoinedPrice>, lines: seq<JoinedLine>, prices': seq<JoinedPrice>, lines': seq<JoinedLine>,
                           conditional: bool, today: int, id: Id, item: L.ItemRow, product: Id, x: SummaryLine, y: SummaryLine) {
    && Queried(a, b, products, prices, lines) && Queried(c, d, products, prices', lines')
    && product in products && item.product == Some(product)
    && IsLine(id, item, Loaded(uuid, prices, lines, conditional, Some(product)), today, x)
    && IsLine(id, item, Loaded(uuid, prices', lines', conditional, Some(product)), today, y)
  }

  lemma {:induction false} CheaperOnOneSide(a: R.Account, b: R.Account, c: R.Account, d: R.Account, uuid: RowRef -> Id, products: set<Id>,
                           prices: seq<JoinedPrice>, lines: seq<JoinedLine>, prices': seq<JoinedPrice>, lines': seq<JoinedLine>,
                           conditional: bool, today: int, id: Id, item: L.ItemRow, product: Id, x: SummaryLine, y: SummaryLine, l: JoinedLine)
    requires TwoLines(a, b, c, d, uuid, products, prices, lines, prices', lines', conditional, today, id, item, product, x, y)
    requires IsRead(a, b, l, product) && Read(uuid, l, conditional).Ranked()
    requires OneBasis(a, uuid, conditional, product, l.line.basis) && OneBasis(b, uuid, conditional, product, l.line.basis)
    requires AllDearer(c, uuid, conditional, product, l) && AllDearer(d, uuid, conditional, product, l)
    ensures x != y
  {
    var rows, rows' := Loaded(uuid, prices, lines, conditional, Some(product)), Loaded(uuid, prices', lines', conditional, Some(product));
    var row := TornRow(a, uuid, l, conditional);
    TornIsLoaded(a, b, uuid, products, prices, lines, conditional, product, l);
    TornRowCounts(a, b, uuid, l, product, conditional);
    forall s | s in rows && s.Ranked() ensures s.basis == row.basis {
      var m := TornOrigin(a, b, uuid, products, prices, lines, conditional, product, s);
      TornRowCounts(a, b, uuid, m, product, conditional);
      assert Counts(a, uuid, conditional, product, m) || Counts(b, uuid, conditional, product, m);
    }
    forall s | s in rows' && Comparable(s) && s.basis == row.basis ensures Displayed(row.price.value) < Displayed(s.price.value) {
      var m := TornOrigin(c, d, uuid, products, prices', lines', conditional, product, s);
      TornRowCounts(c, d, uuid, m, product, conditional);
      assert Counts(c, uuid, conditional, product, m) || Counts(d, uuid, conditional, product, m);
    }
    CheaperDiffers(id, item, rows, rows', today, x, y, row);
  }

  lemma {:induction false} SomeOnOneSide(a: R.Account, b: R.Account, c: R.Account, d: R.Account, uuid: RowRef -> Id, products: set<Id>,
                           prices: seq<JoinedPrice>, lines: seq<JoinedLine>, prices': seq<JoinedPrice>, lines': seq<JoinedLine>,
                           conditional: bool, today: int, id: Id, item: L.ItemRow, product: Id, x: SummaryLine, y: SummaryLine, l: JoinedLine)
    requires TwoLines(a, b, c, d, uuid, products, prices, lines, prices', lines', conditional, today, id, item, product, x, y)
    requires IsRead(a, b, l, product) && Read(uuid, l, conditional).Ranked()
    requires NoneCounts(c, uuid, conditional, product) && NoneCounts(d, uuid, conditional, product)
    ensures x != y
  {
    var rows, rows' := Loaded(uuid, prices, lines, conditional, Some(product)), Loaded(uuid, prices', lines', conditional, Some(product));
    TornIsLoaded(a, b, uuid, products, prices, lines, conditional, product, l);
    TornRowCounts(a, b, uuid, l, product, conditional);
    forall s | s in rows && s.Ranked() ensures s.price.Some? && s.date.Some? && s.store.Some? {
      var m := TornOrigin(a, b, uuid, products, prices, lines, conditional, product, s);
      TornRowCounts(a, b, uuid, m, product, conditional);
    }
    forall s | s in rows' ensures !s.Ranked() {
      var m := TornOrigin(c, d, uuid, products, prices', lines', conditional, product, s);
      TornRowCounts(c, d, uuid, m, product, conditional);
      assert !Counts(c, uuid, conditional, product, m) && !Counts(d, uuid, conditional, product, m);
    }
    SomeAndNoneDiffer(id, item, rows, rows', today, x, y, TornRow(a, uuid, l, conditional));
  }

  /** The place of an item in the list. */
  lemma {:induction false} PlaceOf(db: L.Db, listId: Id, items: seq<(Id, L.ItemRow)>, id: Id) returns (i: nat)
    requires IsItemQuery(db, listId, items) && id in L.ActiveItems(db.items, listId)
    ensures i < |items| && items[i] == (id, db.items[id])
    ensures db.items[id].product.Some? ==> db.items[id].product.value in Products(items)
  {
    var item := (id, db.items[id]);
    assert multiset(items)[item] == 1 && item in items;
    i :| 0 <= i < |items| && items[i] == item;
  }

  lemma {:induction false} AnswerReads(r: Reads, uuid: RowRef -> Id, listId: Id, conditional: bool, today: int, x: Answer)
    returns (items: seq<(Id, L.ItemRow)>, prices: seq<JoinedPrice>, lines: seq<JoinedLine>)
    requires IsAnswer(r, uuid, listId, conditional, today, x)
    ensures ReadsGive(r, uuid, listId, conditional, today, x.lines, items, prices, lines)
  {
    items, prices, lines :| ReadsGive(r, uuid, listId, conditional, today, x.lines, items, prices, lines);
  }

  lemma {:induction false} SummaryReadsOf(db: L.Db, acc: R.Account, uuid: RowRef -> Id, listId: Id, conditional: bool, today: int, summary: seq<SummaryLine>)
    returns (items: seq<(Id, L.ItemRow)>, prices: seq<JoinedPrice>, lines: seq<JoinedLine>)
    requires IsSummary(db, acc, uuid, listId, conditional, today, summary)
    ensures IsSummaryOf(db, acc, uuid, listId, conditional, today, summary, items, prices, lines)
  {
    items, prices, lines :| IsSummaryOf(db, acc, uuid, listId, conditional, today, summary, items, prices, lines);
  }

  lemma {:induction false} SameItemQuery(db: L.Db, listId: Id, items: seq<(Id, L.ItemRow)>, items': seq<(Id, L.ItemRow)>, id: Id)
    requires LL.Inv(db) && IsItemQuery(db, listId, items) && IsItemQuery(db, listId, items') && id in L.ActiveItems(db.items, listId)
    ensures items == items'
  {
    assert LL.ValidItem(db, id);
    SelfAdvances(db);
    SameItems(db, db, listId, items, items');
  }

  /** The item's line in an answer and in an answer read at the moment of its version. */
  lemma {:induction false} ItemLines(r: Reads, uuid: RowRef -> Id, listId: Id, conditional: bool, today: int, x: Answer,
                                     after: seq<SummaryLine>, id: Id, product: Id)
    returns (i: nat, products: set<Id>, prices: seq<JoinedPrice>, lines: seq<JoinedLine>, prices': seq<JoinedPrice>, lines': seq<JoinedLine>)
    requires InOrder(r) && IsAnswer(r, uuid, listId, conditional, today, x)
    requires IsSummary(r.items, r.version, uuid, listId, conditional, today, after)
    requires id in L.ActiveItems(r.items.items, listId) && r.items.items[id].product == Some(product)
    ensures i < |x.lines| && i < |after|
    ensures TwoLines(r.prices, r.lines, r.version, r.version, uuid, products, prices, lines, prices', lines', conditional, today,
                     id, r.items.items[id], product, x.lines[i], after[i])
  {
    var items, items';
    items, prices, lines := AnswerReads(r, uuid, listId, conditional, today, x);
    items', prices', lines' := SummaryReadsOf(r.items, r.version, uuid, listId, conditional, today, after);
    SelfExtends(r.version);
    SameItemQuery(r.items, listId, items, items', id);
    i := PlaceOf(r.items, listId, items, id);
    products := Products(items);
    assert RowsFor(uuid, prices, lines, conditional)(items[i].1) == Loaded(uuid, prices, lines, conditional, Some(product));
    assert RowsFor(uuid, prices', lines', conditional)(items[i].1) == Loaded(uuid, prices', lines', conditional, Some(product));
  }

  /** A cheaper purchase confirmed after the prices and lines were read: the answer does not show it, the other answers
      of its version do. */
  lemma {:induction false} CheaperIsMissed(r: Reads, uuid: RowRef -> Id, listId: Id, conditional: bool, today: int, x: Answer,
                                           after: seq<SummaryLine>, id: Id, product: Id, l: JoinedLine)
    requires InOrder(r) && IsAnswer(r, uuid, listId, conditional, today, x)
    requires IsSummary(r.items, r.version, uuid, listId, conditional, today, after)
    requires id in L.ActiveItems(r.items.items, listId) && r.items.items[id].product == Some(product)
    requires Counts(r.version, uuid, conditional, product, l) && OneBasis(r.version, uuid, conditional, product, l.line.basis)
    requires AllDearer(r.prices, uuid, conditional, product, l) && AllDearer(r.lines, uuid, conditional, product, l)
    ensures x.lines != after
  {
    var i, products, prices, lines, prices', lines' := ItemLines(r, uuid, listId, conditional, today, x, after, id, product);
    CheaperOnOneSide(r.version, r.version, r.prices, r.lines, uuid, products, prices', lines', prices, lines, conditional, today,
                     id, r.items.items[id], product, after[i], x.lines[i], l);
  }

  /** A price read before a confirmation took it away, and cheaper than what is left: the answer goes on showing it under
      the new version, also when the correction came between the two price queries. */
  lemma {:induction false} StalePriceStays(r: Reads, uuid: RowRef -> Id, listId: Id, conditional: bool, today: int, x: Answer,
                                           after: seq<SummaryLine>, id: Id, product: Id, l: JoinedLine)
    requires InOrder(r) && IsAnswer(r, uuid, listId, conditional, today, x)
    requires IsSummary(r.items, r.version, uuid, listId, conditional, today, after)
    requires id in L.ActiveItems(r.items.items, listId) && r.items.items[id].product == Some(product)
    requires IsRead(r.prices, r.lines, l, product) && Read(uuid, l, conditional).Ranked()
    requires OneBasis(r.prices, uuid, conditional, product, l.line.basis) && OneBasis(r.lines, uuid, conditional, product, l.line.basis)
    requires AllDearer(r.version, uuid, conditional, product, l)
    ensures x.lines != after
  {
    var i, products, prices, lines, prices', lines' := ItemLines(r, uuid, listId, conditional, today, x, after, id, product);
    CheaperOnOneSide(r.prices, r.lines, r.version, r.version, uuid, products, prices, lines, prices', lines', conditional, today,
                     id, r.items.items[id], product, x.lines[i], after[i], l);
  }

  /** The first purchase that counts: the answer has no price for the product, the others do. */
  lemma {:induction false} FirstPriceIsMissed(r: Reads, uuid: RowRef -> Id, listId: Id, conditional: bool, today: int, x: Answer,
                                              after: seq<SummaryLine>, id: Id, product: Id, l: JoinedLine)
    requires InOrder(r) && IsAnswer(r, uuid, listId, conditional, today, x)
    requires IsSummary(r.items, r.version, uuid, listId, conditional, today, after)
    requires id in L.ActiveItems(r.items.items, listId) && r.items.items[id].product == Some(product)
    requires NoneCounts(r.prices, uuid, conditional, product) && NoneCounts(r.lines, uuid, conditional, product)
    requires Counts(r.version, uuid, conditional, product, l)
    ensures x.lines != after
  {
    var i, products, prices, lines, prices', lines' := ItemLines(r, uuid, listId, conditional, today, x, after, id, product);
    SomeOnOneSide(r.version, r.version, r.prices, r.lines, uuid, products, prices', lines', prices, lines, conditional, today,
                  id, r.items.items[id], product, after[i], x.lines[i], l);
  }

  /** The last purchase that counts is corrected away: the answer still has a price for the product, the others none. */
  lemma {:induction false} LastPriceIsKept(r: Reads, uuid: RowRef -> Id, listId: Id, conditional: bool, today: int, x: Answer,
                                           after: seq<SummaryLine>, id: Id, product: Id, l: JoinedLine)
    requires InOrder(r) && IsAnswer(r, uuid, listId, conditional, today, x)
    requires IsSummary(r.items, r.version, uuid, listId, conditional, today, after)
    requires id in L.ActiveItems(r.items.items, listId) && r.items.items[id].product == Some(product)
    requires IsRead(r.prices, r.lines, l, product) && Read(uuid, l, conditional).Ranked()
    requires NoneCounts(r.version, uuid, conditional, product)
    ensures x.lines != after
  {
    var i, products, prices, lines, prices', lines' := ItemLines(r, uuid, listId, conditional, today, x, after, id, product);
    SomeOnOneSide(r.prices, r.lines, r.version, r.version, uuid, products, prices, lines, prices', lines', conditional, today,
                  id, r.items.items[id], product, x.lines[i], after[i], l);
  }

  // ---- One confirmation after both price queries ----

  /** When it commits between the price queries and the version, the answer has the lines of the earlier moment under
      the key of the later one. */
  lemma {:induction false} ReadAcrossConfirmation(r: Reads, uuid: RowRef -> Id, listId: Id, conditional: bool, today: int, x: Answer,
                                                  before: seq<SummaryLine>)
    requires InOrder(r) && r.listRow == r.items && r.lines == r.prices && Injective(uuid) && listId in r.items.lists
    requires IsAnswer(r, uuid, listId, conditional, today, x)
    requires IsSummary(r.items, r.prices, uuid, listId, conditional, today, before)
    ensures x.priceDataVersion == R.PriceDataVersion(r.version) && x.lines == before
  {
    var items: seq<(Id, L.ItemRow)>, prices, lines :| ReadsGive(r, uuid, listId, conditional, today, x.lines, items, prices, lines);
    assert IsSummaryOf(r.items, r.prices, uuid, listId, conditional, today, x.lines, items, prices, lines);
    SelfAdvances(r.items);
    SelfExtends(r.prices);
    SameCountersSameSummary(r.items, r.prices, r.items, r.prices, uuid, listId, conditional, today, x.lines, before);
  }
}
