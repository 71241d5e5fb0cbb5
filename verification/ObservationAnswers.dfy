/** What a purchase is read as, in the terms of the confirmed line it stems from, and what a summary shows of it. */
module ObservationAnswers {
  import opened Basics
  import opened Pricing
  import opened PricingAnswers
  import opened Sorting
  import opened PriceHistory
  import opened Receipts
  import opened ReceiptLaws
  import opened PriceObservations
  import opened WriteReadAgreement
  import opened PriceSummaries
  import opened ShownPrices
  import L = ShoppingLists

  // ---- Rows ----

  predicate IsUndated(x: JoinedLine) {
    x.revision.date == None || x.revision.precision == UnknownPrecision
  }

  /** The line's own reasons that still count against the row; the date is judged anew. */
  function StillNoted(x: JoinedLine, conditional: bool): Reason -> bool {
    (r: Reason) => r != DateUnknown && !(r == Conditional && conditional && x.line.price != None)
  }

  /** Every field of the row a current line is read as, be it published as a price or not. */
  ghost predicate IsReading(uuid: RowRef -> Id, x: JoinedLine, conditional: bool, row: Observation) {
    && row.rowId == uuid(if x.line.eligible && x.line.price != None then PriceRef(x.key, x.line.input.id)
                         else LineRef(x.key, x.line.position))
    && row.price == x.line.price && row.basis == x.line.basis && row.condition == x.line.input.condition
    && row.date == x.revision.date && row.precision == x.revision.precision && row.time == x.revision.time
    && row.store == (if x.identity == None then None else x.revision.store) && row.identity == x.identity
    && row.source.receipt == x.key.receipt && row.source.revision == x.key.number && row.source.line == x.line.input.id
    && row.reasons == Filter(x.line.reasons, StillNoted(x, conditional))
                      + (if IsUndated(x) then [DateUnknown] else []) + (if x.identity != Some(Branch) then [StoreNotBranch] else [])
  }

  lemma {:induction false} FilterBoth(s: seq<Reason>, p: Reason -> bool, q: Reason -> bool, both: Reason -> bool)
    requires forall r :: both(r) <==> p(r) && q(r)
    ensures Filter(Filter(s, p), q) == Filter(s, both)
  {
    if s != [] {
      var rest, last := s[..|s| - 1], s[|s| - 1];
      FilterBoth(rest, p, q, both);
      if p(last) { assert (Filter(rest, p) + [last])[..|Filter(rest, p)|] == Filter(rest, p); }
      if !p(last) { assert Filter(rest, p) + [] == Filter(rest, p); }
    }
  }

  lemma {:induction false} NotedReasons(x: JoinedLine, conditional: bool)
    ensures Filter(LineReasons(x.line, conditional), NotUndated) == Filter(x.line.reasons, StillNoted(x, conditional))
  {
    if conditional && x.line.price.Some? {
      FilterBoth(x.line.reasons, NotConditional, NotUndated, StillNoted(x, conditional));
    } else {
      FilterBoth(x.line.reasons, (r: Reason) => true, NotUndated, StillNoted(x, conditional));
      FilterKeepsAll(x.line.reasons, (r: Reason) => true);
    }
  }

  lemma {:induction false} LineIsReading(uuid: RowRef -> Id, x: JoinedLine, conditional: bool)
    requires !Publishes(x.line)
    ensures IsReading(uuid, x, conditional, FromLine(uuid, x, conditional))
  {
    NotedReasons(x, conditional);
  }

  lemma {:induction false} NothingNoted(x: JoinedLine, conditional: bool)
    requires OnlyReasons(x.line.reasons, {DateUnknown})
    ensures Filter(x.line.reasons, StillNoted(x, conditional)) == [] && Filter([], NotUndated) == []
  {
    FilterEmpty(x.line.reasons, StillNoted(x, conditional));
  }

  lemma {:induction false} PriceIsReading(uuid: RowRef -> Id, x: JoinedLine, conditional: bool)
    requires Publishes(x.line) && x.identity.Some? && OnlyReasons(x.line.reasons, {DateUnknown})
    ensures IsReading(uuid, x, conditional, FromPrice(uuid, PublishedAs(x)))
  {
    NothingNoted(x, conditional);
  }

  /** However a current line is read, as its price or as excluded history, the row says what the line and its revision say. */
  lemma {:induction false} ReadingAnswers(acc: Account, uuid: RowRef -> Id, x: JoinedLine, conditional: bool)
    requires Inv(acc) && JoinsLine(acc, x)
    ensures IsReading(uuid, x, conditional, Read(uuid, x, conditional))
  {
    assert Numbered(acc, x.key) && SoundLine(x.revision, x.line);
    if Publishes(x.line) { PriceIsReading(uuid, x, conditional); } else { LineIsReading(uuid, x, conditional); }
  }

  // ---- What a summary shows ----

  /** The purchases that count: without a reason against them and of the chosen basis. */
  ghost predicate Counts(rows: seq<Observation>, r: Observation) {
    r in rows && r.reasons == [] && r.basis == ChosenBasis(rows)
  }

  /** No purchase that counts is cheaper, and of those as cheap none is older, or as old with a smaller row id. */
  ghost predicate FirstAndCheapest(rows: seq<Observation>, r: Observation) {
    && Counts(rows, r) && r.price.Some? && r.date.Some?
    && forall s :: Counts(rows, s) && s.price.Some? && s.date.Some? ==>
         || r.price.value < s.price.value
         || (r.price == s.price && (r.date.value < s.date.value || (r.date == s.date && r.rowId.n <= s.rowId.n)))
  }

  /** The offer as shown: in whole hundredths, with its store, its day and how long ago that was. */
  ghost predicate ShowsOffer(shown: LowestResponse, r: Observation, today: int)
    requires r.price.Some? && r.date.Some?
  {
    && RoundsAway(shown.amount, r.price.value as real / 10000.0) && shown.basis == r.basis
    && shown.store == r.store && shown.identity == r.identity && shown.date == r.date.value
    && (shown.age == Recent <==> today - r.date.value <= 30) && (shown.age == Old <==> 90 < today - r.date.value)
  }

  lemma {:induction false} CountsIffComparable(rows: seq<Observation>, r: Observation)
    ensures Counts(rows, r) <==> r in Comparables(rows)
  {
    RankableAfterBasis(rows);
    FilterMember(rows, OfBasis(ChosenBasis(rows)), r);
  }

  lemma {:induction false} StoresThatCount(rows: seq<Observation>)
    ensures Stores(Comparables(rows)) == set r | r in rows && Counts(rows, r) :: r.store
  {
    forall r ensures Counts(rows, r) <==> r in Comparables(rows) { CountsIffComparable(rows, r); }
  }

  lemma {:induction false} CountsIsFilled(rows: seq<Observation>, r: Observation)
    requires WellFilled(rows) && Counts(rows, r)
    ensures r in Comparables(rows) && Comparable(r) && r.price.Some? && r.date.Some?
  {
    CountsIffComparable(rows, r);
  }

  lemma {:induction false} PrimaryIsCheapest(rows: seq<Observation>, lowest: Lowest)
    requires WellFilled(rows) && IsLowest(Comparables(rows), Some(lowest))
    ensures FirstAndCheapest(rows, lowest.primary) && lowest.primary.price == Some(lowest.price)
  {
    var r := lowest.primary;
    PrimaryIsFirst(Comparables(rows), lowest);
    CountsIffComparable(rows, r);
    CountsIsFilled(rows, r);
    forall s | Counts(rows, s)
      ensures r.price.value < s.price.value || (r.price == s.price && !ByDate(s).Before(ByDate(r)))
    {
      CountsIsFilled(rows, s);
    }
  }

  /** A line repeats its item. It shows the first of the cheapest purchases that count, or says why there is none, and how
      many stores the ones that count are from. */
  lemma {:induction false} SummaryLineAnswers(id: Id, item: L.ItemRow, rows: seq<Observation>, today: int, line: SummaryLine)
    requires WellFilled(rows) && IsLine(id, item, rows, today, line)
    ensures line.itemId == id && line.product == item.product && line.freeText == item.freeText
            && line.thousandths == item.thousandths && line.unit == item.unit
    ensures line.stores == |set r | r in rows && Counts(rows, r) :: r.store|
    ensures if exists r :: Counts(rows, r) then
              line.reason == None && line.lowest.Some?
              && exists r :: FirstAndCheapest(rows, r) && ShowsOffer(line.lowest.value, r, today)
            else
              && line.lowest == None
              && line.reason == Some(if item.product == None then FreeTextNoHistory
                                     else if rows == [] then NeverObserved else NoQualifiedObservation)
  {
    var lowest :| IsLowest(Comparables(rows), lowest) && line == MakeLine(id, item, rows, today, lowest);
    StoresThatCount(rows);
    if lowest.Some? {
      OfferIsShown(rows, lowest.value, today, line.lowest.value);
    } else {
      forall r ensures !Counts(rows, r) { if Counts(rows, r) { CountsIsFilled(rows, r); } }
    }
  }

  lemma {:induction false} OfferIsShown(rows: seq<Observation>, lowest: Lowest, today: int, shown: LowestResponse)
    requires WellFilled(rows) && IsLowest(Comparables(rows), Some(lowest)) && LowestAnswer(Some(lowest), today) == Some(shown)
    ensures exists r :: FirstAndCheapest(rows, r) && ShowsOffer(shown, r, today)
    ensures exists r :: Counts(rows, r)
  {
    PrimaryIsCheapest(rows, lowest);
    DisplayedRounds(lowest.price);
    assert FirstAndCheapest(rows, lowest.primary) && ShowsOffer(shown, lowest.primary, today);
  }

  ghost predicate IsOpenItem(db: L.Db, listId: Id, id: Id) {
    id in db.items && db.items[id].listId == listId && !db.items[id].deleted
  }

  ghost predicate ItemBefore(db: L.Db, x: Id, y: Id)
    requires x in db.items && y in db.items
  {
    db.items[x].position < db.items[y].position || (db.items[x].position == db.items[y].position && x.n < y.n)
  }

  lemma {:induction false} QueriedIsOpen(db: L.Db, listId: Id, items: seq<(Id, L.ItemRow)>, i: nat)
    requires IsItemQuery(db, listId, items) && i < |items|
    ensures IsOpenItem(db, listId, items[i].0) && db.items[items[i].0] == items[i].1 && multiset(items)[items[i]] == 1
  {
    assert items[i] in items && multiset(items)[items[i]] > 0;
  }

  lemma {:induction false} OpenIsQueried(db: L.Db, listId: Id, items: seq<(Id, L.ItemRow)>, id: Id) returns (i: nat)
    requires IsItemQuery(db, listId, items) && IsOpenItem(db, listId, id)
    ensures i < |items| && items[i].0 == id
  {
    var x: (Id, L.ItemRow) := (id, db.items[id]);
    assert multiset(items)[x] == 1 && x in items;
    i :| 0 <= i < |items| && items[i] == x;
  }

  lemma {:induction false} QueriedInOrder(db: L.Db, listId: Id, items: seq<(Id, L.ItemRow)>, i: nat, j: nat)
    requires IsItemQuery(db, listId, items) && i < j < |items|
    ensures items[i].0 in db.items && items[j].0 in db.items && ItemBefore(db, items[i].0, items[j].0)
  {
    QueriedIsOpen(db, listId, items, i);
    QueriedIsOpen(db, listId, items, j);
    assert !ByPosition(items[j]).Before(ByPosition(items[i]));
    if items[i].0 == items[j].0 {
      assert items[i] == items[j];
      NotTwice(items, i, j);
    }
  }

  /** A summary has one line for each open item of the list, by position and then by id. */
  lemma {:induction false} SummaryAnswers(db: L.Db, listId: Id, rows: Reading, today: int, items: seq<(Id, L.ItemRow)>,
                                          summary: seq<SummaryLine>)
    requires IsItemQuery(db, listId, items) && AreLines(rows, today, items, summary)
    ensures forall i :: 0 <= i < |summary| ==> IsOpenItem(db, listId, summary[i].itemId)
    ensures forall id :: IsOpenItem(db, listId, id) ==> exists i :: 0 <= i < |summary| && summary[i].itemId == id
    ensures forall i, j :: 0 <= i < j < |summary| ==> ItemBefore(db, summary[i].itemId, summary[j].itemId)
  {
    forall i | 0 <= i < |summary| ensures summary[i].itemId == items[i].0 && IsOpenItem(db, listId, items[i].0) {
      assert IsLine(items[i].0, items[i].1, rows(items[i].1), today, summary[i]);
      QueriedIsOpen(db, listId, items, i);
    }
    forall id | IsOpenItem(db, listId, id) ensures exists i :: 0 <= i < |summary| && summary[i].itemId == id {
      var i := OpenIsQueried(db, listId, items, id);
      assert summary[i].itemId == id;
    }
    forall i, j | 0 <= i < j < |summary| ensures ItemBefore(db, summary[i].itemId, summary[j].itemId) {
      QueriedInOrder(db, listId, items, i, j);
    }
  }
}
