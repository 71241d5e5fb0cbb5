/** What a line of a summary shows of its purchases: exactly when two lines are equal, and when they cannot be. */
module ShownPrices {
  import opened Basics
  import opened Pricing
  import opened Sorting
  import opened PriceHistory
  import opened PriceSummaries
  import L = ShoppingLists

  /** The purchase a line is about: of the cheapest, the first by date and row id. */
  ghost predicate FirstCheapest(rows: seq<Observation>, r: Observation) {
    && r in rows && Comparable(r)
    && forall s :: s in rows && Comparable(s) ==>
         r.price.value < s.price.value || (r.price == s.price && !ByDate(s).Before(ByDate(r)))
  }

  predicate SameOffer(r: Observation, s: Observation)
    requires r.price.Some? && s.price.Some?
  {
    && Displayed(r.price.value) == Displayed(s.price.value) && r.basis == s.basis
    && r.store == s.store && r.identity == s.identity && r.date.GetOr(0) == s.date.GetOr(0)
  }

  ghost predicate NothingToShow(rows: seq<Observation>) {
    forall r :: r in Comparables(rows) ==> !Comparable(r)
  }

  /** The same number of stores, and either the same offer or the same reason why there is none. */
  ghost predicate SameShown(a: seq<Observation>, b: seq<Observation>) {
    && |Stores(Comparables(a))| == |Stores(Comparables(b))|
    && (NothingToShow(a) <==> NothingToShow(b))
    && (NothingToShow(a) ==> (a == [] <==> b == []))
    && forall r, s :: FirstCheapest(Comparables(a), r) && FirstCheapest(Comparables(b), s) ==> SameOffer(r, s)
  }

  // ---- What a line shows ----

  lemma {:induction false} PrimaryIsFirst(rows: seq<Observation>, l: Lowest)
    requires IsLowest(rows, Some(l))
    ensures FirstCheapest(rows, l.primary) && l.primary.price == Some(l.price)
  {
    var first := l.tied[0];
    assert first in l.tied;
    forall s | s in rows && Comparable(s) && s.price == Some(l.price) ensures !ByDate(s).Before(ByDate(first)) {
      assert Covered(l.tied, s);
      var t :| t in l.tied && t.store == s.store && !ByDate(s).Before(ByDate(t));
      var j :| 0 <= j < |l.tied| && l.tied[j] == t;
      assert j > 0 ==> !ByDate(l.tied[j]).Before(ByDate(l.tied[0]));
    }
  }

  lemma {:induction false} FirstIsUnique(rows: seq<Observation>, r: Observation, s: Observation)
    requires DistinctRows(rows) && FirstCheapest(rows, r) && FirstCheapest(rows, s)
    ensures r == s
  {
    assert Has(rows, r) && Has(rows, s);
  }

  function Shows(first: Option<Observation>): Option<Lowest>
    requires first.Some? ==> first.value.price.Some?
  {
    if first.Some? then Some(Lowest(first.value.price.value, first.value, [])) else None
  }

  /** The purchase a line shows, if it shows one. */
  lemma {:induction false} LineShows(id: Id, item: L.ItemRow, rows: seq<Observation>, today: int, x: SummaryLine)
    returns (first: Option<Observation>)
    requires IsLine(id, item, rows, today, x)
    ensures first.None? <==> NothingToShow(rows)
    ensures first.None? ==> x == MakeLine(id, item, rows, today, Shows(None))
    ensures first.Some? ==>
              && FirstCheapest(Comparables(rows), first.value)
              && x == MakeLine(id, item, rows, today, Shows(first))
  {
    var lowest := LowestOfLine(id, item, rows, today, x);
    if lowest.Some? {
      PrimaryIsFirst(Comparables(rows), lowest.value);
      first := Some(lowest.value.primary);
    } else {
      first := None;
    }
  }

  lemma {:induction false} SameMadeIff(id: Id, item: L.ItemRow, a: seq<Observation>, b: seq<Observation>, today: int,
                                       ra: Option<Observation>, rb: Option<Observation>)
    requires (ra.Some? ==> ra.value.price.Some?) && (rb.Some? ==> rb.value.price.Some?)
    requires item.product.None? ==> a == [] && b == []
    ensures MakeLine(id, item, a, today, Shows(ra)) == MakeLine(id, item, b, today, Shows(rb)) <==>
            && |Stores(Comparables(a))| == |Stores(Comparables(b))|
            && (ra.None? <==> rb.None?) && (ra.None? ==> (a == [] <==> b == []))
            && (ra.Some? && rb.Some? ==> SameOffer(ra.value, rb.value))
  {
  }

  lemma {:induction false} OnlyFirst(rows: seq<Observation>, first: Option<Observation>, r: Observation)
    requires DistinctRows(rows) && (first.None? <==> NothingToShow(rows))
    requires first.Some? ==> FirstCheapest(Comparables(rows), first.value)
    ensures FirstCheapest(Comparables(rows), r) <==> first == Some(r)
  {
    RankableIsDistinct(rows);
    if first.Some? && FirstCheapest(Comparables(rows), r) { FirstIsUnique(Comparables(rows), first.value, r); }
  }

  /** Two readings of a product give the same line if and only if they show the same. */
  lemma {:induction false} LineIff(id: Id, item: L.ItemRow, a: seq<Observation>, b: seq<Observation>, today: int, x: SummaryLine, y: SummaryLine)
    requires DistinctRows(a) && DistinctRows(b) && (item.product.None? ==> a == [] && b == [])
    requires IsLine(id, item, a, today, x) && IsLine(id, item, b, today, y)
    ensures x == y <==> SameShown(a, b)
  {
    var ra := LineShows(id, item, a, today, x);
    var rb := LineShows(id, item, b, today, y);
    SameMadeIff(id, item, a, b, today, ra, rb);
    SameShownIff(a, b, ra, rb);
  }

  lemma {:induction false} SameShownIff(a: seq<Observation>, b: seq<Observation>, ra: Option<Observation>, rb: Option<Observation>)
    requires DistinctRows(a) && (ra.None? <==> NothingToShow(a)) && (ra.Some? ==> FirstCheapest(Comparables(a), ra.value))
    requires DistinctRows(b) && (rb.None? <==> NothingToShow(b)) && (rb.Some? ==> FirstCheapest(Comparables(b), rb.value))
    ensures SameShown(a, b) <==>
            && |Stores(Comparables(a))| == |Stores(Comparables(b))|
            && (ra.None? <==> rb.None?) && (ra.None? ==> (a == [] <==> b == []))
            && (ra.Some? && rb.Some? ==> SameOffer(ra.value, rb.value))
  {
    forall r ensures FirstCheapest(Comparables(a), r) <==> ra == Some(r) { OnlyFirst(a, ra, r); }
    forall s ensures FirstCheapest(Comparables(b), s) <==> rb == Some(s) { OnlyFirst(b, rb, s); }
  }

  // ---- Lines that differ ----

  lemma {:induction false} DisplayedMonotone(p: int, q: int)
    requires p <= q
    ensures Displayed(p) <= Displayed(q)
  {
    HalfUpMonotone(p as real / 10000.0, q as real / 10000.0);
  }

  lemma {:induction false} ComparableRow(rows: seq<Observation>, r: Observation)
    ensures r in Comparables(rows) <==> r in rows && r.Ranked() && r.basis == ChosenBasis(rows)
  {
    RankableAfterBasis(rows);
    FilterMember(rows, OfBasis(ChosenBasis(rows)), r);
  }

  /** When everything that counts is of one basis, that basis is chosen. */
  lemma {:induction false} SoleBasis(rows: seq<Observation>, r: Observation)
    requires r in rows && r.Ranked() && forall s :: s in rows && s.Ranked() ==> s.basis == r.basis
    ensures r in Comparables(rows)
  {
    FilterMember(rows, IsRanked, r);
    RankedCounts(rows, r);
    BasisIsMaximal(rows, r.basis);
    CountedIsRanked(rows, ChosenBasis(rows));
    var s :| s in Rankable(rows) && s.basis == ChosenBasis(rows);
    FilterMember(rows, IsRanked, s);
    ComparableRow(rows, r);
  }

  /** A purchase that counts in one reading, all of one basis there, and is displayed cheaper than everything of that
      basis in the other, makes the lines differ. */
  lemma {:induction false} CheaperDiffers(id: Id, item: L.ItemRow, a: seq<Observation>, b: seq<Observation>, today: int,
                                          x: SummaryLine, y: SummaryLine, r: Observation)
    requires IsLine(id, item, a, today, x) && IsLine(id, item, b, today, y)
    requires r in a && Comparable(r) && forall s :: s in a && s.Ranked() ==> s.basis == r.basis
    requires forall s :: s in b && Comparable(s) && s.basis == r.basis ==> Displayed(r.price.value) < Displayed(s.price.value)
    ensures x != y
  {
    var ra := LineShows(id, item, a, today, x);
    var rb := LineShows(id, item, b, today, y);
    SoleBasis(a, r);
    DisplayedMonotone(ra.value.price.value, r.price.value);
    ComparableRow(a, ra.value);
    if rb.Some? { ComparableRow(b, rb.value); }
  }

  /** So do a reading with purchases that count and one without. */
  lemma {:induction false} SomeAndNoneDiffer(id: Id, item: L.ItemRow, a: seq<Observation>, b: seq<Observation>, today: int,
                                             x: SummaryLine, y: SummaryLine, r: Observation)
    requires IsLine(id, item, a, today, x) && IsLine(id, item, b, today, y)
    requires WellFilled(a) && r in a && r.Ranked() && forall s :: s in b ==> !s.Ranked()
    ensures x != y
  {
    var ra := LineShows(id, item, a, today, x);
    var rb := LineShows(id, item, b, today, y);
    SomeComparable(a, r);
    if rb.Some? { ComparableRow(b, rb.value); }
  }

  lemma {:induction false} SomeComparable(rows: seq<Observation>, r: Observation)
    requires r in rows && r.Ranked() && WellFilled(rows)
    ensures !NothingToShow(rows)
  {
    FilterMember(rows, IsRanked, r);
    RankedCounts(rows, r);
    BasisIsMaximal(rows, r.basis);
    CountedIsRanked(rows, ChosenBasis(rows));
    var s :| s in Rankable(rows) && s.basis == ChosenBasis(rows);
    FilterMember(rows, IsRanked, s);
    ComparableRow(rows, s);
  }
}
