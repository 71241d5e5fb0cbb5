/** The read side sees exactly what the write side published. */
module WriteReadAgreement {
  import opened Basics
  import opened Pricing
  import opened Sorting
  import opened PriceHistory
  import opened ReceiptStatus
  import opened Receipts
  import opened ReceiptLaws
  import opened PriceObservations

  function PublishedAs(x: JoinedLine): JoinedPrice
    requires x.line.price.Some?
  {
    JoinedPrice(PriceOf(x.key, x.revision, x.line), x.revision.time, x.identity.GetOr(UnknownStoreIdentity))
  }

  /** How a line of a current revision is to be read: as its price if it has one, else as excluded history. */
  function Read(uuid: RowRef -> Id, x: JoinedLine, conditional: bool): Observation {
    if Publishes(x.line) then FromPrice(uuid, PublishedAs(x)) else FromLine(uuid, x, conditional)
  }

  ghost predicate Wanted(acc: Account, x: JoinedLine, product: Id) {
    JoinsLine(acc, x) && x.line.input.product == Some(product)
  }

  // ---- Prices and lines ----

  lemma {:induction false} PublishedMember(k: RevisionKey, v: Revision, lines: seq<Line>, p: PriceRow) returns (i: nat)
    requires p in Published(k, v, lines)
    ensures i < |lines| && Publishes(lines[i]) && p == PriceOf(k, v, lines[i])
  {
    var n := |lines| - 1;
    if Publishes(lines[n]) && p == PriceOf(k, v, lines[n]) { i := n; }
    else { i := PublishedMember(k, v, lines[..n], p); }
  }

  ghost predicate UniqueIds(lines: seq<Line>) {
    forall i, j :: 0 <= i < j < |lines| ==> lines[i].input.id != lines[j].input.id
  }

  lemma {:induction false} CountAppend<T>(s: seq<T>, t: seq<T>, x: T)
    ensures multiset(s + t)[x] == multiset(s)[x] + multiset(t)[x]
  {
  }

  lemma {:induction false} NotPublished(k: RevisionKey, v: Revision, lines: seq<Line>, l: Line)
    requires forall i :: 0 <= i < |lines| ==> lines[i].input.id != l.input.id
    requires l.price.Some?
    ensures multiset(Published(k, v, lines))[PriceOf(k, v, l)] == 0
  {
    if PriceOf(k, v, l) in Published(k, v, lines) {
      var _ := PublishedMember(k, v, lines, PriceOf(k, v, l));
    }
  }

  lemma {:induction false} PublishedOnce(k: RevisionKey, v: Revision, lines: seq<Line>, i: nat)
    requires i < |lines| && Publishes(lines[i]) && UniqueIds(lines)
    ensures multiset(Published(k, v, lines))[PriceOf(k, v, lines[i])] == 1
  {
    var n := |lines| - 1;
    var p, last := PriceOf(k, v, lines[i]), if Publishes(lines[n]) then [PriceOf(k, v, lines[n])] else [];
    CountAppend(Published(k, v, lines[..n]), last, p);
    assert Published(k, v, lines) == Published(k, v, lines[..n]) + last;
    if i < n {
      PublishedOnce(k, v, lines[..n], i);
      assert lines[i].input.id != lines[n].input.id;
    } else {
      NotPublished(k, v, lines[..n], lines[n]);
    }
  }

  lemma {:induction false} PriceIsLine(acc: Account, x: JoinedPrice) returns (y: JoinedLine)
    requires Inv(acc) && JoinsPrice(acc, x)
    ensures JoinsLine(acc, y) && Publishes(y.line) && x == PublishedAs(y)
  {
    var r := x.row.key.receipt;
    assert PricesMatch(acc, r);
    FilterMember(acc.prices, CurrentOf(r), x.row);
    var k := CurrentKey(acc, r);
    var v := acc.revisions[k];
    assert Numbered(acc, k);
    var i := PublishedMember(k, v, v.lines, x.row);
    y := JoinedLine(k, v, v.lines[i], Some(x.identity));
  }

  lemma {:induction false} LineIsPrice(acc: Account, x: JoinedLine)
    requires Inv(acc) && JoinsLine(acc, x) && Publishes(x.line)
    ensures JoinsPrice(acc, PublishedAs(x)) && multiset(acc.prices)[PublishedAs(x).row] == 1
  {
    var r, row := x.key.receipt, PublishedAs(x).row;
    assert PricesMatch(acc, r) && Numbered(acc, x.key);
    PublishedOnce(x.key, x.revision, x.revision.lines, x.line.position);
    FilterCounts(acc.prices, CurrentOf(r), row);
    assert row in multiset(acc.prices);
  }

  lemma {:induction false} SameLine(acc: Account, x: JoinedLine, y: JoinedLine)
    requires Inv(acc) && JoinsLine(acc, x) && JoinsLine(acc, y) && x.key == y.key && x.line.input.id == y.line.input.id
    ensures x == y
  {
    assert Numbered(acc, x.key);
  }

  lemma {:induction false} SeenMeansPublished(acc: Account, products: set<Id>, prices: seq<JoinedPrice>, x: JoinedLine)
    requires Inv(acc) && IsPriceQuery(acc, products, prices) && JoinsLine(acc, x)
    requires x.line.input.product.Some? && x.line.input.product.value in products
    ensures (x.key, x.line.input.id) in Seen(prices) <==> Publishes(x.line)
  {
    if Publishes(x.line) {
      LineIsPrice(acc, x);
      assert multiset(prices)[PublishedAs(x)] == 1;
      assert PublishedAs(x) in prices;
    }
    if (x.key, x.line.input.id) in Seen(prices) {
      var p :| p in prices && (p.row.key, p.row.line) == (x.key, x.line.input.id);
      assert multiset(prices)[p] > 0;
      var y := PriceIsLine(acc, p);
      SameLine(acc, x, y);
    }
  }

  // ---- Agreement ----

  lemma {:induction false} JoinedAt(uuid: RowRef -> Id, kept: seq<JoinedPrice>, rest: seq<JoinedLine>, conditional: bool, i: nat)
    requires i < |Joined(uuid, kept, rest, conditional)|
    ensures i < |kept| + |rest|
    ensures Joined(uuid, kept, rest, conditional)[i] ==
              if i < |kept| then FromPrice(uuid, kept[i]) else FromLine(uuid, rest[i - |kept|], conditional)
  {
  }

  lemma {:induction false} InConcat<T>(a: seq<T>, b: seq<T>, x: T)
    ensures x in a + b <==> x in a || x in b
  {
  }

  lemma {:induction false} PriceIsJoined(uuid: RowRef -> Id, kept: seq<JoinedPrice>, rest: seq<JoinedLine>, conditional: bool, x: JoinedPrice)
    requires x in kept
    ensures FromPrice(uuid, x) in Joined(uuid, kept, rest, conditional)
  {
    var i :| 0 <= i < |kept| && kept[i] == x;
    var prices := FromPrices(uuid, kept);
    assert prices[i] == FromPrice(uuid, x);
    InConcat(prices, FromLines(uuid, rest, conditional), FromPrice(uuid, x));
  }

  lemma {:induction false} LineIsJoined(uuid: RowRef -> Id, kept: seq<JoinedPrice>, rest: seq<JoinedLine>, conditional: bool, x: JoinedLine)
    requires x in rest
    ensures FromLine(uuid, x, conditional) in Joined(uuid, kept, rest, conditional)
  {
    var i :| 0 <= i < |rest| && rest[i] == x;
    var lines := FromLines(uuid, rest, conditional);
    assert lines[i] == FromLine(uuid, x, conditional);
    InConcat(FromPrices(uuid, kept), lines, FromLine(uuid, x, conditional));
  }

  /** Every line of a current confirmed revision is returned, as a price exactly when it is eligible. */
  lemma {:induction false} EveryLineIsRead(acc: Account, uuid: RowRef -> Id, products: set<Id>, prices: seq<JoinedPrice>, lines: seq<JoinedLine>,
                        conditional: bool, product: Id, x: JoinedLine)
    requires Inv(acc) && IsPriceQuery(acc, products, prices) && IsLineQuery(acc, products, lines) && product in products
    requires Wanted(acc, x, product)
    ensures Read(uuid, x, conditional) in Loaded(uuid, prices, lines, conditional, Some(product))
    ensures Publishes(x.line) <==> x.line.eligible
  {
    assert Numbered(acc, x.key);
    assert SoundLine(x.revision, x.line);
    SeenMeansPublished(acc, products, prices, x);
    if Publishes(x.line) {
      LineIsPrice(acc, x);
      assert multiset(prices)[PublishedAs(x)] == 1;
      FilterMember(prices, PriceIs(Some(product)), PublishedAs(x));
      PriceIsJoined(uuid, PricesOf(prices, Some(product)), LinesOf(prices, lines, Some(product)), conditional, PublishedAs(x));
    } else {
      assert multiset(lines)[x] == 1;
      FilterMember(lines, LineIs(Some(product), Seen(prices)), x);
      LineIsJoined(uuid, PricesOf(prices, Some(product)), LinesOf(prices, lines, Some(product)), conditional, x);
    }
  }

  /** Row `i` of the prices followed by the remaining lines is made of `x`. */
  ghost predicate IsOrigin(kept: seq<JoinedPrice>, rest: seq<JoinedLine>, x: JoinedLine, i: nat) {
    if Publishes(x.line) then i < |kept| && kept[i] == PublishedAs(x)
    else |kept| <= i < |kept| + |rest| && rest[i - |kept|] == x
  }

  lemma {:induction false} PriceOrigin(acc: Account, products: set<Id>, prices: seq<JoinedPrice>, product: Id, p: JoinedPrice) returns (x: JoinedLine)
    requires Inv(acc) && IsPriceQuery(acc, products, prices) && p in prices && p.row.product == Some(product)
    ensures Wanted(acc, x, product) && Publishes(x.line) && p == PublishedAs(x)
  {
    assert multiset(prices)[p] > 0;
    x := PriceIsLine(acc, p);
  }

  lemma {:induction false} LineOrigin(acc: Account, products: set<Id>, prices: seq<JoinedPrice>, lines: seq<JoinedLine>, product: Id, x: JoinedLine)
    requires Inv(acc) && IsPriceQuery(acc, products, prices) && IsLineQuery(acc, products, lines)
    requires x in lines && LineIs(Some(product), Seen(prices))(x)
    ensures Wanted(acc, x, product) && !Publishes(x.line)
  {
    assert multiset(lines)[x] > 0;
    SeenMeansPublished(acc, products, prices, x);
  }

  lemma {:induction false} OriginOf(acc: Account, products: set<Id>, prices: seq<JoinedPrice>, lines: seq<JoinedLine>, product: Id,
                 kept: seq<JoinedPrice>, rest: seq<JoinedLine>, i: nat) returns (x: JoinedLine)
    requires Inv(acc) && IsPriceQuery(acc, products, prices) && IsLineQuery(acc, products, lines) && i < |kept| + |rest|
    requires forall p :: p in kept ==> p in prices && p.row.product == Some(product)
    requires forall l :: l in rest ==> l in lines && LineIs(Some(product), Seen(prices))(l)
    ensures Wanted(acc, x, product) && IsOrigin(kept, rest, x, i)
  {
    if i < |kept| {
      assert kept[i] in kept;
      x := PriceOrigin(acc, products, prices, product, kept[i]);
    } else {
      x := rest[i - |kept|];
      assert x in rest;
      LineOrigin(acc, products, prices, lines, product, x);
    }
  }

  /** What row `i` of the answer was made of. */
  lemma {:induction false} KeptRows(prices: seq<JoinedPrice>, lines: seq<JoinedLine>, product: Id)
    ensures forall p :: p in PricesOf(prices, Some(product)) ==> p in prices && p.row.product == Some(product)
    ensures forall l :: l in LinesOf(prices, lines, Some(product)) ==> l in lines && LineIs(Some(product), Seen(prices))(l)
  {
    FilterMembers(prices, PriceIs(Some(product)));
    FilterMembers(lines, LineIs(Some(product), Seen(prices)));
  }

  lemma {:induction false} ReadAt(uuid: RowRef -> Id, kept: seq<JoinedPrice>, rest: seq<JoinedLine>, conditional: bool, x: JoinedLine, i: nat)
    requires i < |Joined(uuid, kept, rest, conditional)| && IsOrigin(kept, rest, x, i)
    ensures Joined(uuid, kept, rest, conditional)[i] == Read(uuid, x, conditional)
  {
    JoinedAt(uuid, kept, rest, conditional, i);
  }

  lemma {:induction false} Origin(acc: Account, uuid: RowRef -> Id, products: set<Id>, prices: seq<JoinedPrice>, lines: seq<JoinedLine>,
               conditional: bool, product: Id, i: nat) returns (x: JoinedLine)
    requires Inv(acc) && IsPriceQuery(acc, products, prices) && IsLineQuery(acc, products, lines)
    requires i < |Loaded(uuid, prices, lines, conditional, Some(product))|
    ensures Wanted(acc, x, product) && Loaded(uuid, prices, lines, conditional, Some(product))[i] == Read(uuid, x, conditional)
    ensures IsOrigin(PricesOf(prices, Some(product)), LinesOf(prices, lines, Some(product)), x, i)
  {
    var kept, rest := PricesOf(prices, Some(product)), LinesOf(prices, lines, Some(product));
    KeptRows(prices, lines, product);
    JoinedAt(uuid, kept, rest, conditional, i);
    x := OriginOf(acc, products, prices, lines, product, kept, rest, i);
    ReadAt(uuid, kept, rest, conditional, x, i);
  }

  lemma {:induction false} NotTwice<T>(s: seq<T>, i: nat, j: nat)
    requires i <= j < |s| && s[i] == s[j] && multiset(s)[s[i]] <= 1
    ensures i == j
  {
    if i < j { CountTwice(s, i, j); }
  }

  lemma {:induction false} OneRow(kept: seq<JoinedPrice>, rest: seq<JoinedLine>, x: JoinedLine, i: nat, j: nat)
    requires IsOrigin(kept, rest, x, i) && IsOrigin(kept, rest, x, j) && i <= j
    requires if Publishes(x.line) then multiset(kept)[PublishedAs(x)] <= 1 else multiset(rest)[x] <= 1
    ensures i == j
  {
    if Publishes(x.line) { NotTwice(kept, i, j); } else { NotTwice(rest, i - |kept|, j - |kept|); }
  }

  lemma {:induction false} PriceReadOnce(acc: Account, products: set<Id>, prices: seq<JoinedPrice>, keep: JoinedPrice -> bool, x: JoinedLine)
    requires Inv(acc) && IsPriceQuery(acc, products, prices) && JoinsLine(acc, x) && Publishes(x.line)
    ensures multiset(Filter(prices, keep))[PublishedAs(x)] <= 1
  {
    LineIsPrice(acc, x);
    FilterCounts(prices, keep, PublishedAs(x));
  }

  lemma {:induction false} LineReadOnce(acc: Account, products: set<Id>, lines: seq<JoinedLine>, keep: JoinedLine -> bool, x: JoinedLine)
    requires IsLineQuery(acc, products, lines)
    ensures multiset(Filter(lines, keep))[x] <= 1
  {
    FilterCounts(lines, keep, x);
  }

  lemma {:induction false} SameRow(acc: Account, uuid: RowRef -> Id, x: JoinedLine, y: JoinedLine, conditional: bool)
    requires Inv(acc) && Injective(uuid) && JoinsLine(acc, x) && JoinsLine(acc, y)
    requires Read(uuid, x, conditional).rowId == Read(uuid, y, conditional).rowId
    ensures x == y
  {
    if Publishes(x.line) && Publishes(y.line) {
      assert PriceRef(x.key, x.line.input.id) == PriceRef(y.key, y.line.input.id);
      SameLine(acc, x, y);
    }
    assert Numbered(acc, x.key) && Numbered(acc, y.key);
  }

  /** No line is returned twice: the answer's row ids all differ, and each row is the reading of one line. */
  lemma {:induction false} NoLineTwice(acc: Account, uuid: RowRef -> Id, products: set<Id>, prices: seq<JoinedPrice>, lines: seq<JoinedLine>,
                    conditional: bool, product: Id, i: nat, j: nat)
    requires Inv(acc) && Injective(uuid) && IsPriceQuery(acc, products, prices) && IsLineQuery(acc, products, lines)
    requires i < j < |Loaded(uuid, prices, lines, conditional, Some(product))|
    ensures var rows := Loaded(uuid, prices, lines, conditional, Some(product)); rows[i].rowId != rows[j].rowId
  {
    var rows := Loaded(uuid, prices, lines, conditional, Some(product));
    if rows[i].rowId == rows[j].rowId {
      var x := Origin(acc, uuid, products, prices, lines, conditional, product, i);
      var y := Origin(acc, uuid, products, prices, lines, conditional, product, j);
      SameRow(acc, uuid, x, y, conditional);
      if Publishes(x.line) { PriceReadOnce(acc, products, prices, PriceIs(Some(product)), x); }
      else { LineReadOnce(acc, products, lines, LineIs(Some(product), Seen(prices)), x); }
      OneRow(PricesOf(prices, Some(product)), LinesOf(prices, lines, Some(product)), x, i, j);
    }
  }

  // ---- Ranking ----

  predicate InDatedBranch(x: JoinedLine) {
    !Undated(x.revision.date, x.revision.precision) && x.identity == Some(Branch)
  }

  lemma {:induction false} RankedWithout(x: JoinedLine, uuid: RowRef -> Id, conditional: bool)
    requires SoundLine(x.revision, x.line) && !Publishes(x.line)
    ensures Read(uuid, x, conditional).Ranked() <==>
              InDatedBranch(x) && conditional && OnlyReasons(x.line.reasons, {Conditional, DateUnknown})
  {
    var own := LineReasons(x.line, conditional);
    var v := x.revision;
    var reasons := RankingReasons(own, v.date, v.precision, x.identity);
    FilterMembers(x.line.reasons, NotConditional);
    FilterEmpty(own, NotUndated);
    assert reasons == [] <==> Filter(own, NotUndated) == [] && InDatedBranch(x);
  }

  /** A row counts exactly when its purchase is dated, at a branch, and nothing but the date and, if asked
      for, a price condition was noted against the line. It then has a price, a date and a store. */
  lemma {:induction false} RankedIff(acc: Account, uuid: RowRef -> Id, x: JoinedLine, conditional: bool)
    requires Inv(acc) && JoinsLine(acc, x)
    ensures var row := Read(uuid, x, conditional);
            && (row.Ranked() <==>
                  InDatedBranch(x) && OnlyReasons(x.line.reasons, if conditional then {Conditional, DateUnknown} else {DateUnknown}))
            && (row.Ranked() ==> row.price.Some? && row.date.Some? && row.store.Some? && row.identity == Some(Branch))
  {
    assert Numbered(acc, x.key);
    assert SoundLine(x.revision, x.line);
    if !Publishes(x.line) { RankedWithout(x, uuid, conditional); }
  }

  /** Asking for conditional prices changes no row that counted, and adds exactly the dated branch
      purchases that a condition alone had kept out. */
  lemma {:induction false} ConditionalAdds(acc: Account, uuid: RowRef -> Id, x: JoinedLine)
    requires Inv(acc) && JoinsLine(acc, x)
    ensures var without, with := Read(uuid, x, false), Read(uuid, x, true);
            && (without.Ranked() ==> with == without)
            && (with.Ranked() && !without.Ranked() <==>
                  InDatedBranch(x) && Conditional in x.line.reasons && OnlyReasons(x.line.reasons, {Conditional}))
  {
    RankedIff(acc, uuid, x, false);
    RankedIff(acc, uuid, x, true);
    assert Numbered(acc, x.key);
    assert SoundLine(x.revision, x.line);
    assert InDatedBranch(x) ==> DateUnknown !in x.line.reasons;
  }

  // ---- As input of the price history ----

  lemma {:induction false} LoadedIsWellFilled(acc: Account, uuid: RowRef -> Id, products: set<Id>, prices: seq<JoinedPrice>, lines: seq<JoinedLine>,
                           conditional: bool, product: Id)
    requires Inv(acc) && IsPriceQuery(acc, products, prices) && IsLineQuery(acc, products, lines)
    ensures WellFilled(Loaded(uuid, prices, lines, conditional, Some(product)))
  {
    var rows := Loaded(uuid, prices, lines, conditional, Some(product));
    forall r | r in rows && r.Ranked() ensures r.price.Some? && r.date.Some? && r.store.Some? {
      var i :| 0 <= i < |rows| && rows[i] == r;
      var x := Origin(acc, uuid, products, prices, lines, conditional, product, i);
      RankedIff(acc, uuid, x, conditional);
    }
  }

  lemma {:induction false} LoadedIsDistinct(acc: Account, uuid: RowRef -> Id, products: set<Id>, prices: seq<JoinedPrice>, lines: seq<JoinedLine>,
                         conditional: bool, product: Id)
    requires Inv(acc) && Injective(uuid) && IsPriceQuery(acc, products, prices) && IsLineQuery(acc, products, lines)
    ensures DistinctRows(Loaded(uuid, prices, lines, conditional, Some(product)))
    ensures forall r :: r in Loaded(uuid, prices, lines, conditional, Some(product)) ==>
              multiset(Loaded(uuid, prices, lines, conditional, Some(product)))[r] == 1
  {
    var rows := Loaded(uuid, prices, lines, conditional, Some(product));
    forall i, j | 0 <= i < j < |rows| ensures rows[i].rowId != rows[j].rowId {
      NoLineTwice(acc, uuid, products, prices, lines, conditional, product, i, j);
    }
    DifferentIds(rows);
  }

  lemma {:induction false} DifferentIds(rows: seq<Observation>)
    requires forall i, j :: 0 <= i < j < |rows| ==> rows[i].rowId != rows[j].rowId
    ensures DistinctRows(rows) && forall r :: r in rows ==> multiset(rows)[r] == 1
  {
    if rows != [] {
      var rest, last := rows[..|rows| - 1], rows[|rows| - 1];
      DifferentIds(rest);
      assert rows == rest + [last] && last !in rest;
      forall r, s | Has(rows, r) && Has(rows, s) && r.rowId == s.rowId ensures r == s {
        assert Has(rest, r) || r == last;
        assert Has(rest, s) || s == last;
      }
    }
  }

  /** Two readings of the same book, at any times and in any order, have the same rows. */
  lemma {:induction false} ReadingsInclude(a: Account, b: Account, uuid: RowRef -> Id, products: set<Id>, products': set<Id>,
                     prices: seq<JoinedPrice>, lines: seq<JoinedLine>, prices': seq<JoinedPrice>, lines': seq<JoinedLine>,
                     conditional: bool, product: Id, r: Observation)
    requires Inv(a) && Inv(b) && product in products && product in products'
    requires forall x :: JoinsLine(a, x) <==> JoinsLine(b, x)
    requires IsPriceQuery(a, products, prices) && IsLineQuery(a, products, lines)
    requires IsPriceQuery(b, products', prices') && IsLineQuery(b, products', lines')
    requires r in Loaded(uuid, prices, lines, conditional, Some(product))
    ensures r in Loaded(uuid, prices', lines', conditional, Some(product))
  {
    var x := Loaded(uuid, prices, lines, conditional, Some(product));
    var i :| 0 <= i < |x| && x[i] == r;
    var l := Origin(a, uuid, products, prices, lines, conditional, product, i);
    EveryLineIsRead(b, uuid, products', prices', lines', conditional, product, l);
  }

  lemma {:induction false} SameWhenOnce<T>(x: seq<T>, y: seq<T>)
    requires forall r :: r in x <==> r in y
    requires (forall r :: multiset(x)[r] <= 1) && (forall r :: multiset(y)[r] <= 1)
    ensures multiset(x) == multiset(y)
  {
    forall r ensures multiset(x)[r] == multiset(y)[r] {
      assert r in x <==> r in multiset(x);
      assert r in y <==> r in multiset(y);
    }
  }

  lemma {:induction false} SameReadings(a: Account, b: Account, uuid: RowRef -> Id, products: set<Id>, products': set<Id>,
                     prices: seq<JoinedPrice>, lines: seq<JoinedLine>, prices': seq<JoinedPrice>, lines': seq<JoinedLine>,
                     conditional: bool, product: Id)
    requires Inv(a) && Inv(b) && Injective(uuid) && product in products && product in products'
    requires forall x :: JoinsLine(a, x) <==> JoinsLine(b, x)
    requires IsPriceQuery(a, products, prices) && IsLineQuery(a, products, lines)
    requires IsPriceQuery(b, products', prices') && IsLineQuery(b, products', lines')
    ensures multiset(Loaded(uuid, prices, lines, conditional, Some(product))) == multiset(Loaded(uuid, prices', lines', conditional, Some(product)))
  {
    var x, y := Loaded(uuid, prices, lines, conditional, Some(product)), Loaded(uuid, prices', lines', conditional, Some(product));
    LoadedIsDistinct(a, uuid, products, prices, lines, conditional, product);
    LoadedIsDistinct(b, uuid, products', prices', lines', conditional, product);
    forall r | r in x ensures r in y {
      ReadingsInclude(a, b, uuid, products, products', prices, lines, prices', lines', conditional, product, r);
    }
    forall r | r in y ensures r in x {
      ReadingsInclude(b, a, uuid, products', products, prices', lines', prices, lines, conditional, product, r);
    }
    SameWhenOnce(x, y);
  }
}
