/** The reads of a price summary one after the other, with others committing in between. */
module SummaryReads {
  import opened Basics
  import opened Sorting
  import opened PriceHistory
  import R = Receipts
  import RL = ReceiptLaws
  import opened PriceObservations
  import opened WriteReadAgreement
  import opened PriceSummaries
  import L = ShoppingLists
  import LL = ShoppingListLaws

  /** What each read of one answer saw, in the order of the reads. */
  datatype Reads = Reads(listRow: L.Db, items: L.Db, prices: R.Account, lines: R.Account, version: R.Account)

  datatype Answer = Answer(contentRevision: nat, priceDataVersion: nat, lines: seq<SummaryLine>)

  ghost predicate InOrder(r: Reads) {
    && LL.Inv(r.listRow) && LL.Inv(r.items) && LL.Advances(r.listRow, r.items)
    && RL.Inv(r.prices) && RL.Inv(r.lines) && RL.Inv(r.version)
    && RL.Extends(r.prices, r.lines) && RL.Extends(r.lines, r.version)
  }

  ghost predicate IsAnswer(r: Reads, uuid: RowRef -> Id, listId: Id, conditional: bool, today: int, answer: Answer) {
    && listId in r.listRow.lists && answer.contentRevision == r.listRow.lists[listId].contentSeq
    && answer.priceDataVersion == R.PriceDataVersion(r.version)
    && exists items, prices, lines :: ReadsGive(r, uuid, listId, conditional, today, answer.lines, items, prices, lines)
  }

  ghost predicate ReadsGive(r: Reads, uuid: RowRef -> Id, listId: Id, conditional: bool, today: int, summary: seq<SummaryLine>,
                            items: seq<(Id, L.ItemRow)>, prices: seq<JoinedPrice>, lines: seq<JoinedLine>) {
    && IsItemQuery(r.items, listId, items)
    && IsPriceQuery(r.prices, Products(items), prices) && IsLineQuery(r.lines, Products(items), lines)
    && AreLines(RowsFor(uuid, prices, lines, conditional), today, items, summary)
  }

  /** No write of the list between its row and its items, and no confirmation between the first price and the version. */
  ghost predicate Undisturbed(r: Reads, listId: Id) {
    && listId in r.listRow.lists && listId in r.items.lists
    && r.items.lists[listId].contentSeq == r.listRow.lists[listId].contentSeq
    && R.PriceDataVersion(r.prices) == R.PriceDataVersion(r.version)
  }

  /** Both accounts have the same current lines of these products. */
  ghost predicate SameLinesOf(a: R.Account, b: R.Account, products: set<Id>) {
    forall x, p :: p in products ==> (Wanted(a, x, p) <==> Wanted(b, x, p))
  }

  /** The products the list names. */
  ghost function Listed(db: L.Db, listId: Id): set<Id> {
    set id | id in L.ActiveItems(db.items, listId) && db.items[id].product.Some? :: db.items[id].product.value
  }

  /** No write of the list between its row and its items, and what was confirmed between the reads touched no line of
      a product the list names, even when it raised the version. */
  ghost predicate Untouched(r: Reads, listId: Id) {
    && listId in r.listRow.lists && listId in r.items.lists
    && r.items.lists[listId].contentSeq == r.listRow.lists[listId].contentSeq
    && SameLinesOf(r.prices, r.version, Listed(r.items, listId)) && SameLinesOf(r.lines, r.version, Listed(r.items, listId))
  }

  lemma {:induction false} ProductsAreListed(db: L.Db, listId: Id, items: seq<(Id, L.ItemRow)>)
    requires IsItemQuery(db, listId, items)
    ensures Products(items) == Listed(db, listId)
  {
    forall p | p in Products(items) ensures p in Listed(db, listId) {
      var x :| x in items && x.1.product == Some(p);
      assert multiset(items)[x] > 0;
    }
    forall p | p in Listed(db, listId) ensures p in Products(items) {
      var id :| id in L.ActiveItems(db.items, listId) && db.items[id].product == Some(p);
      assert multiset(items)[(id, db.items[id])] == 1;
      assert (id, db.items[id]) in items;
    }
  }

  lemma {:induction false} QueriesStay(a: R.Account, b: R.Account, products: set<Id>, prices: seq<JoinedPrice>, lines: seq<JoinedLine>)
    requires RL.Inv(a) && RL.Inv(b) && SameLinesOf(a, b, products)
    ensures IsPriceQuery(a, products, prices) ==> IsPriceQuery(b, products, prices)
    ensures IsLineQuery(a, products, lines) ==> IsLineQuery(b, products, lines)
  {
    if IsPriceQuery(a, products, prices) {
      forall x ensures multiset(prices)[x] == if JoinsPrice(b, x) && x.row.product.Some? && x.row.product.value in products
                                              then multiset(b.prices)[x.row] else 0
      {
        if x.row.product.Some? && x.row.product.value in products {
          PriceStays(a, b, products, x);
          PriceStays(b, a, products, x);
        }
      }
    }
    if IsLineQuery(a, products, lines) {
      forall x ensures multiset(lines)[x] == if JoinsLine(b, x) && x.line.input.product.Some? && x.line.input.product.value in products then 1 else 0 {
        if x.line.input.product.Some? && x.line.input.product.value in products {
          assert Wanted(a, x, x.line.input.product.value) <==> Wanted(b, x, x.line.input.product.value);
        }
      }
    }
  }

  /** Accounts with the same lines of a product have the same prices of it. */
  lemma {:induction false} PriceStays(a: R.Account, b: R.Account, products: set<Id>, x: JoinedPrice)
    requires RL.Inv(a) && RL.Inv(b) && SameLinesOf(a, b, products) && x.row.product.Some? && x.row.product.value in products
    ensures JoinsPrice(a, x) ==> JoinsPrice(b, x) && multiset(a.prices)[x.row] == multiset(b.prices)[x.row]
  {
    if JoinsPrice(a, x) {
      var y := PriceIsLine(a, x);
      assert Wanted(a, y, x.row.product.value);
      LineIsPrice(a, y);
      LineIsPrice(b, y);
    }
  }

  /** An untouched answer is the one all reads would have given at the moment of the last. */
  lemma {:induction false} UntouchedIsAtOnce(r: Reads, uuid: RowRef -> Id, listId: Id, conditional: bool, today: int, answer: Answer)
    requires InOrder(r) && IsAnswer(r, uuid, listId, conditional, today, answer)
    requires Untouched(r, listId)
    ensures IsSummary(r.items, r.version, uuid, listId, conditional, today, answer.lines)
  {
    var items: seq<(Id, L.ItemRow)>, prices, lines :| ReadsGive(r, uuid, listId, conditional, today, answer.lines, items, prices, lines);
    ProductsAreListed(r.items, listId, items);
    QueriesStay(r.prices, r.version, Products(items), prices, lines);
    QueriesStay(r.lines, r.version, Products(items), prices, lines);
    assert IsSummaryOf(r.items, r.version, uuid, listId, conditional, today, answer.lines, items, prices, lines);
  }

  lemma {:induction false} SameBookSameLinesOf(a: R.Account, b: R.Account, products: set<Id>)
    requires RL.Inv(a) && RL.Inv(b) && RL.Extends(a, b) && R.PriceDataVersion(a) == R.PriceDataVersion(b)
    ensures SameLinesOf(a, b, products)
  {
    forall x ensures JoinsLine(a, x) <==> JoinsLine(b, x) { SameBookSameLines(a, b, x); }
  }

  lemma {:induction false} UndisturbedIsUntouched(r: Reads, listId: Id)
    requires InOrder(r) && Undisturbed(r, listId)
    ensures Untouched(r, listId)
  {
    RL.ExtendsTransitive(r.prices, r.lines, r.version);
    SameBookSameLinesOf(r.prices, r.version, Listed(r.items, listId));
    SameBookSameLinesOf(r.lines, r.version, Listed(r.items, listId));
  }

  /** So is an undisturbed one. */
  lemma {:induction false} UndisturbedIsAtOnce(r: Reads, uuid: RowRef -> Id, listId: Id, conditional: bool, today: int, answer: Answer)
    requires InOrder(r) && Undisturbed(r, listId) && IsAnswer(r, uuid, listId, conditional, today, answer)
    ensures IsSummary(r.items, r.version, uuid, listId, conditional, today, answer.lines)
  {
    UndisturbedIsUntouched(r, listId);
    UntouchedIsAtOnce(r, uuid, listId, conditional, today, answer);
  }

  /** Two untouched answers with equal keys, day and filter have equal lines, whatever was committed between them. */
  lemma {:induction false} UntouchedKeyIsSound(r: Reads, s: Reads, calls: seq<LL.UserCall>, events: seq<RL.Event>, uuid: RowRef -> Id, listId: Id,
                              conditional: bool, today: int, x: Answer, y: Answer)
    requires InOrder(r) && InOrder(s) && Untouched(r, listId) && Untouched(s, listId) && Injective(uuid)
    requires s.items == LL.Run(r.items, calls) && s.version == RL.Run(r.version, events)
    requires IsAnswer(r, uuid, listId, conditional, today, x) && IsAnswer(s, uuid, listId, conditional, today, y)
    requires x.contentRevision == y.contentRevision && x.priceDataVersion == y.priceDataVersion
    ensures x == y
  {
    UntouchedIsAtOnce(r, uuid, listId, conditional, today, x);
    UntouchedIsAtOnce(s, uuid, listId, conditional, today, y);
    CacheKeyIsSound(r.items, calls, r.version, events, uuid, listId, conditional, today, x.lines, y.lines);
  }

  lemma {:induction false} SelfAdvances(db: L.Db)
    ensures LL.Advances(db, db)
  {
  }

  lemma {:induction false} SelfExtends(acc: R.Account)
    ensures RL.Extends(acc, acc)
  {
  }

  /** An untouched answer agrees with the other answers of its version. */
  lemma {:induction false} UntouchedAgrees(r: Reads, uuid: RowRef -> Id, listId: Id, conditional: bool, today: int, x: Answer, after: seq<SummaryLine>)
    requires InOrder(r) && Untouched(r, listId) && Injective(uuid) && IsAnswer(r, uuid, listId, conditional, today, x)
    requires IsSummary(r.items, r.version, uuid, listId, conditional, today, after)
    ensures x.lines == after
  {
    UntouchedIsAtOnce(r, uuid, listId, conditional, today, x);
    SelfAdvances(r.items);
    SelfExtends(r.version);
    SameCountersSameSummary(r.items, r.version, r.items, r.version, uuid, listId, conditional, today, x.lines, after);
  }
}
