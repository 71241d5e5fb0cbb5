/** Which of a product's purchases may be compared, where it was cheapest and what each store charged last. */
module PriceHistory {
  import opened Basics
  import opened Pricing
  import opened Sorting

  datatype StoreIdentity = Branch | ChainOnly | UnknownStoreIdentity

  datatype Source = Source(receipt: Id, revision: nat, line: Id)

  datatype Observation = Observation(
    rowId: Id, price: Option<int>, basis: Basis, date: Option<int>, precision: DatePrecision, time: Option<nat>,
    store: Option<Id>, identity: Option<StoreIdentity>, condition: Condition, source: Source, reasons: seq<Reason>)
  {
    predicate Ranked() { reasons == [] }
  }

  /** What the code that fills the list promises of every comparable row. */
  ghost predicate WellFilled(rows: seq<Observation>) {
    forall r :: r in rows && r.Ranked() ==> r.price.Some? && r.date.Some? && r.store.Some?
  }

  /** Row ids are primary keys. */
  ghost predicate DistinctRows(rows: seq<Observation>) {
    forall r, s :: Has(rows, r) && Has(rows, s) && r.rowId == s.rowId ==> r == s
  }

  ghost predicate Has(rows: seq<Observation>, r: Observation) {
    r in rows
  }

  /** Only asked of rows that carry a date. */
  function ByDate(r: Observation): Key {
    Key(r.date.GetOr(0), r.rowId.n)
  }

  // ---- The basis a minimum is taken in ----

  predicate IsRanked(r: Observation) {
    r.Ranked()
  }

  function OfBasis(basis: Basis): Observation -> bool {
    (r: Observation) => r.Ranked() && r.basis == basis
  }

  function OfAny(bases: set<Basis>): Observation -> bool {
    (r: Observation) => r.Ranked() && r.basis in bases
  }

  function Rankable(rows: seq<Observation>): seq<Observation> {
    Filter(rows, IsRanked)
  }

  function Count(rows: seq<Observation>, basis: Basis): nat {
    |Filter(rows, OfBasis(basis))|
  }

  const BASES: set<Basis> := {PerPackage, PerKg, PerLitre, UnknownBasis}

  function Larger(a: nat, b: nat): nat {
    if a >= b then a else b
  }

  function Most(rows: seq<Observation>): nat {
    Larger(Larger(Count(rows, PerPackage), Count(rows, PerKg)), Larger(Count(rows, PerLitre), Count(rows, UnknownBasis)))
  }

  function Leaders(rows: seq<Observation>): set<Basis> {
    set b | b in BASES && Count(rows, b) == Most(rows)
  }

  function Leading(rows: seq<Observation>): seq<Observation> {
    Filter(rows, OfAny(Leaders(rows)))
  }

  lemma {:induction false} MostIsMost(rows: seq<Observation>)
    ensures forall b :: Count(rows, b) <= Most(rows)
    ensures Leaders(rows) != {}
  {
    forall b: Basis ensures Count(rows, b) <= Most(rows) {
      match b
      case PerPackage => case PerKg => case PerLitre => case UnknownBasis =>
    }
    if Most(rows) == Count(rows, PerPackage) { assert PerPackage in Leaders(rows); }
    else if Most(rows) == Count(rows, PerKg) { assert PerKg in Leaders(rows); }
    else if Most(rows) == Count(rows, PerLitre) { assert PerLitre in Leaders(rows); }
    else { assert UnknownBasis in Leaders(rows); }
  }

  lemma {:induction false} RankedCounts(rows: seq<Observation>, r: Observation)
    requires r in Rankable(rows)
    ensures Count(rows, r.basis) >= 1
  {
    FilterMember(rows, IsRanked, r);
    FilterMember(rows, OfBasis(r.basis), r);
  }

  lemma {:induction false} CountedIsRanked(rows: seq<Observation>, b: Basis)
    requires Count(rows, b) >= 1
    ensures exists r :: r in Rankable(rows) && r.basis == b
  {
    var r := Filter(rows, OfBasis(b))[0];
    FilterMember(rows, OfBasis(b), r);
    FilterMember(rows, IsRanked, r);
  }

  lemma {:induction false} LeadersExist(rows: seq<Observation>)
    requires Rankable(rows) != []
    ensures Leading(rows) != [] && Leaders(rows) != {}
    ensures forall r :: r in Leading(rows) ==> r.basis in Leaders(rows) && r in Rankable(rows)
  {
    MostIsMost(rows);
    RankedCounts(rows, Rankable(rows)[0]);
    var b :| b in Leaders(rows);
    CountedIsRanked(rows, b);
    FilterMembers(rows, IsRanked);
    FilterMembers(rows, OfAny(Leaders(rows)));
    var r :| r in Rankable(rows) && r.basis == b;
    assert r in Leading(rows);
  }

  lemma {:induction false} SomeBasis(bases: set<Basis>)
    requires bases != {}
    ensures PerPackage in bases || PerKg in bases || PerLitre in bases || UnknownBasis in bases
  {
    var b :| b in bases;
    assert b.PerPackage? || b.PerKg? || b.PerLitre? || b.UnknownBasis?;
  }

  function Only(bases: set<Basis>): (b: Basis)
    requires |bases| == 1
    ensures b in bases
  {
    SomeBasis(bases);
    if PerPackage in bases then PerPackage else if PerKg in bases then PerKg else if PerLitre in bases then PerLitre else UnknownBasis
  }

  /** The basis of most comparable rows; among equals, that of the newest purchase. */
  function ChosenBasis(rows: seq<Observation>): Basis {
    if Rankable(rows) == [] then UnknownBasis
    else
      LeadersExist(rows);
      if |Leaders(rows)| == 1 then Only(Leaders(rows))
      else Largest(Leading(rows), ByDate).basis
  }

  function Demoted(r: Observation, basis: Basis): Observation {
    if r.basis == basis || !r.Ranked() then r else r.(reasons := [BasisMismatch])
  }

  function ApplyPriceBasis(rows: seq<Observation>): (Basis, seq<Observation>) {
    var basis := ChosenBasis(rows);
    (basis, if Rankable(rows) == [] then rows else seq(|rows|, i requires 0 <= i < |rows| => Demoted(rows[i], basis)))
  }

  lemma {:induction false} OnlyMember(s: set<Basis>, x: Basis, y: Basis)
    requires |s| == 1 && x in s && y in s
    ensures x == y
  {
    assert |s - {x}| == 0;
    assert y in s - {x} || y == x;
  }

  /** In either branch the chosen basis is a leader's, and it is the newest leader's. */
  lemma {:induction false} ChosenIsNewestLeader(rows: seq<Observation>)
    requires Rankable(rows) != []
    ensures Leading(rows) != [] && ChosenBasis(rows) == Largest(Leading(rows), ByDate).basis
    ensures ChosenBasis(rows) in Leaders(rows)
  {
    LeadersExist(rows);
    var newest := Largest(Leading(rows), ByDate);
    assert newest.basis in Leaders(rows);
    if |Leaders(rows)| == 1 { OnlyMember(Leaders(rows), ChosenBasis(rows), newest.basis); }
  }

  lemma {:induction false} NothingRanked(rows: seq<Observation>)
    requires Rankable(rows) == []
    ensures forall b :: Count(rows, b) == 0
    ensures forall i :: 0 <= i < |rows| ==> !rows[i].Ranked()
  {
    forall b ensures Count(rows, b) == 0 {
      if Count(rows, b) >= 1 { CountedIsRanked(rows, b); }
    }
    forall i | 0 <= i < |rows| ensures !IsRanked(rows[i]) { FilterMember(rows, IsRanked, rows[i]); }
  }

  /** Every row is kept, only its reasons may change, and what stays comparable is one basis. */
  lemma {:induction false} BasisKeepsRows(rows: seq<Observation>)
    ensures var (basis, applied) := ApplyPriceBasis(rows);
            && |applied| == |rows| && ((forall r :: r in rows ==> !r.Ranked()) ==> basis == UnknownBasis)
            && forall i :: 0 <= i < |rows| ==>
                 && applied[i].(reasons := rows[i].reasons) == rows[i]
                 && (applied[i].Ranked() <==> rows[i].Ranked() && rows[i].basis == basis)
                 && (!applied[i].Ranked() && rows[i].Ranked() ==> applied[i].reasons == [BasisMismatch])
                 && (!rows[i].Ranked() ==> applied[i] == rows[i])
  {
    if Rankable(rows) == [] {
      NothingRanked(rows);
    } else {
      FilterMember(rows, IsRanked, Rankable(rows)[0]);
    }
  }

  /** No basis has more comparable rows than the chosen one. */
  lemma {:induction false} BasisIsMaximal(rows: seq<Observation>, b: Basis)
    ensures Count(rows, b) <= Count(rows, ChosenBasis(rows))
  {
    if Rankable(rows) == [] {
      NothingRanked(rows);
    } else {
      ChosenIsNewestLeader(rows);
      MostIsMost(rows);
    }
  }

  lemma {:induction false} RankableAfterBasis(rows: seq<Observation>)
    ensures Rankable(ApplyPriceBasis(rows).1) == Filter(rows, OfBasis(ChosenBasis(rows)))
  {
    var (basis, applied) := ApplyPriceBasis(rows);
    BasisKeepsRows(rows);
    FilterAgrees(applied, rows, IsRanked, OfBasis(basis));
  }

  lemma {:induction false} RankableOfBasis(rows: seq<Observation>, applied: seq<Observation>, r: Observation)
    requires Rankable(applied) == Filter(rows, OfBasis(ChosenBasis(rows)))
    ensures r in Rankable(applied) <==> r in Rankable(rows) && r.basis == ChosenBasis(rows)
  {
    FilterMember(rows, OfBasis(ChosenBasis(rows)), r);
    FilterMember(rows, IsRanked, r);
  }

  lemma {:induction false} SecondBasis(rows: seq<Observation>)
    requires Rankable(rows) != []
    ensures Rankable(ApplyPriceBasis(rows).1) != []
    ensures ChosenBasis(ApplyPriceBasis(rows).1) == ChosenBasis(rows)
  {
    var (basis, applied) := ApplyPriceBasis(rows);
    RankableAfterBasis(rows);
    ChosenIsNewestLeader(rows);
    LeadersExist(rows);
    RankableOfBasis(rows, applied, Largest(Leading(rows), ByDate));
    ChosenIsNewestLeader(applied);
    LeadersExist(applied);
    RankableOfBasis(rows, applied, Largest(Leading(applied), ByDate));
  }

  /** Applying the basis to its own result changes nothing. */
  lemma {:induction false} ApplyBasisIdempotent(rows: seq<Observation>)
    ensures ApplyPriceBasis(ApplyPriceBasis(rows).1) == ApplyPriceBasis(rows)
  {
    if Rankable(rows) != [] {
      SecondBasis(rows);
      BasisKeepsRows(rows);
      assert ApplyPriceBasis(ApplyPriceBasis(rows).1).1 == ApplyPriceBasis(rows).1;
    }
  }

  lemma {:induction false} LeadersIgnoreOrder(a: seq<Observation>, b: seq<Observation>)
    requires multiset(a) == multiset(b)
    ensures Leaders(a) == Leaders(b) && multiset(Leading(a)) == multiset(Leading(b))
  {
    forall basis ensures Count(a, basis) == Count(b, basis) { FilterIgnoresOrder(a, b, OfBasis(basis)); }
    FilterIgnoresOrder(a, b, OfAny(Leaders(a)));
  }

  lemma {:induction false} DistinctByDate(rows: seq<Observation>, some: seq<Observation>)
    requires DistinctRows(rows) && forall r :: r in some ==> r in rows
    ensures DistinctKeys(some, ByDate)
  {
    forall r, s | r in some && s in some && ByDate(r) == ByDate(s) ensures r == s {
      assert Has(rows, r) && Has(rows, s);
    }
  }

  lemma {:induction false} ChosenIgnoresOrder(a: seq<Observation>, b: seq<Observation>)
    requires multiset(a) == multiset(b) && DistinctRows(a)
    ensures ChosenBasis(a) == ChosenBasis(b)
  {
    FilterIgnoresOrder(a, b, IsRanked);
    LeadersIgnoreOrder(a, b);
    if Rankable(a) != [] {
      ChosenIsNewestLeader(a);
      ChosenIsNewestLeader(b);
      FilterMembers(a, OfAny(Leaders(a)));
      DistinctByDate(a, Leading(a));
      LargestIgnoresOrder(Leading(a), Leading(b), ByDate);
    }
  }

  lemma {:induction false} BasisIgnoresOrder(a: seq<Observation>, b: seq<Observation>)
    requires multiset(a) == multiset(b) && DistinctRows(a)
    ensures ChosenBasis(a) == ChosenBasis(b)
    ensures multiset(Rankable(ApplyPriceBasis(a).1)) == multiset(Rankable(ApplyPriceBasis(b).1))
  {
    ChosenIgnoresOrder(a, b);
    RankableAfterBasis(a);
    RankableAfterBasis(b);
    FilterIgnoresOrder(a, b, OfBasis(ChosenBasis(a)));
  }

  // ---- The historical minimum ----

  datatype Lowest = Lowest(price: int, primary: Observation, tied: seq<Observation>)

  predicate Comparable(r: Observation) {
    r.Ranked() && r.price.Some?
  }

  ghost predicate Cheapest(rows: seq<Observation>, price: int) {
    && (exists r :: r in rows && Comparable(r) && r.price == Some(price))
    && forall r :: r in rows && Comparable(r) ==> price <= r.price.value
  }

  predicate HasStore(tied: seq<Observation>, store: Option<Id>) {
    exists i :: 0 <= i < |tied| && tied[i].store == store
  }

  /** `tied` has a purchase of this row's store that is no later than the row. */
  ghost predicate Covered(tied: seq<Observation>, r: Observation) {
    exists t :: t in tied && t.store == r.store && !ByDate(r).Before(ByDate(t))
  }

  ghost predicate OnePerStore(tied: seq<Observation>) {
    forall i, j :: 0 <= i < j < |tied| ==> tied[i].store != tied[j].store
  }

  ghost predicate AtPrice(rows: seq<Observation>, price: int, tied: seq<Observation>) {
    forall r :: r in tied ==> r in rows && Comparable(r) && r.price == Some(price)
  }

  ghost predicate AllCovered(rows: seq<Observation>, price: int, tied: seq<Observation>) {
    forall r {:trigger Covered(tied, r)} :: r in rows && Comparable(r) && r.price == Some(price) ==> Covered(tied, r)
  }

  /** The earliest purchase at `price` of each store that charged it, oldest first. */
  ghost predicate FirstAtPrice(rows: seq<Observation>, price: int, tied: seq<Observation>) {
    && AtPrice(rows, price, tied) && AllCovered(rows, price, tied)
    && OnePerStore(tied) && Ordered(tied, ByDate)
  }

  /** The least price of the comparable rows, and who charged it first. */
  ghost predicate IsLowest(rows: seq<Observation>, lowest: Option<Lowest>) {
    match lowest
    case None => forall r :: r in rows ==> !Comparable(r)
    case Some(l) => Cheapest(rows, l.price) && FirstAtPrice(rows, l.price, l.tied) && l.tied != [] && l.primary == l.tied[0]
  }

  ghost predicate SameRows(a: seq<Observation>, b: seq<Observation>) {
    forall r :: r in a <==> r in b
  }

  lemma {:induction false} SameStore(tied: seq<Observation>, s: Observation, t: Observation)
    requires OnePerStore(tied) && s in tied && t in tied && s.store == t.store
    ensures s == t
  {
    var i :| 0 <= i < |tied| && tied[i] == s;
    var j :| 0 <= j < |tied| && tied[j] == t;
  }

  lemma {:induction false} TiedAgree(a: seq<Observation>, b: seq<Observation>, price: int, tied: seq<Observation>, tied': seq<Observation>, x: Observation)
    requires SameRows(a, b) && DistinctRows(a) && x in tied
    requires AtPrice(a, price, tied) && AllCovered(a, price, tied) && OnePerStore(tied)
    requires AtPrice(b, price, tied') && AllCovered(b, price, tied')
    ensures x in tied'
  {
    assert Covered(tied', x);
    var t :| t in tied' && t.store == x.store && !ByDate(x).Before(ByDate(t));
    assert Covered(tied, t);
    var s :| s in tied && s.store == t.store && !ByDate(t).Before(ByDate(s));
    SameStore(tied, s, x);
    assert ByDate(t) == ByDate(x);
    assert Has(a, t) && Has(a, x);
  }

  lemma {:induction false} OneOfEach(tied: seq<Observation>, x: Observation)
    requires OnePerStore(tied)
    ensures multiset(tied)[x] == if x in tied then 1 else 0
  {
    if tied != [] {
      var rest, last := tied[..|tied| - 1], tied[|tied| - 1];
      OneOfEach(rest, x);
      assert tied == rest + [last];
      assert last !in rest;
    }
  }

  lemma {:induction false} TiedIsUnique(a: seq<Observation>, b: seq<Observation>, price: int, tied: seq<Observation>, tied': seq<Observation>)
    requires SameRows(a, b) && DistinctRows(a)
    requires FirstAtPrice(a, price, tied) && FirstAtPrice(b, price, tied')
    ensures tied == tied'
  {
    forall r ensures multiset(tied)[r] == multiset(tied')[r] {
      if r in tied { TiedAgree(a, b, price, tied, tied', r); }
      if r in tied' { TiedAgree(b, a, price, tied', tied, r); }
      OneOfEach(tied, r);
      OneOfEach(tied', r);
    }
    assert multiset(tied) == multiset(tied');
    OrderedIsUnique(tied, tied', ByDate);
  }

  lemma {:induction false} PriceIsUnique(a: seq<Observation>, b: seq<Observation>, price: int, price': int)
    requires SameRows(a, b) && Cheapest(a, price) && Cheapest(b, price')
    ensures price == price'
  {
    var r :| r in a && Comparable(r) && r.price == Some(price);
    var s :| s in b && Comparable(s) && s.price == Some(price');
    assert r in b && s in a;
  }

  /** There is one answer, and the order of the rows has no part in it. */
  lemma {:induction false} LowestIsUnique(a: seq<Observation>, b: seq<Observation>, lowest: Option<Lowest>, lowest': Option<Lowest>)
    requires SameRows(a, b) && DistinctRows(a) && IsLowest(a, lowest) && IsLowest(b, lowest')
    ensures lowest == lowest'
  {
    if lowest.Some? && lowest'.Some? {
      PriceIsUnique(a, b, lowest.value.price, lowest'.value.price);
      TiedIsUnique(a, b, lowest.value.price, lowest.value.tied, lowest'.value.tied);
    }
  }

  lemma {:induction false} CoveredStay(tied: seq<Observation>, row: Observation)
    ensures forall r :: Covered(tied, r) ==> Covered(tied + [row], r)
    ensures Covered(tied + [row], row)
  {
    forall r | Covered(tied, r) ensures Covered(tied + [row], r) {
      var t :| t in tied && t.store == r.store && !ByDate(r).Before(ByDate(t));
      assert t in tied + [row];
    }
    assert row in tied + [row];
  }

  lemma {:induction false} NextIsFirst(sorted: seq<Observation>, i: nat, price: int, tied: seq<Observation>)
    requires i < |sorted| && Ordered(sorted, ByDate) && FirstAtPrice(sorted[..i], price, tied)
    requires Comparable(sorted[i]) && sorted[i].price == Some(price) && !HasStore(tied, sorted[i].store)
    ensures FirstAtPrice(sorted[..i + 1], price, tied + [sorted[i]])
  {
    var row := sorted[i];
    assert sorted[..i + 1] == sorted[..i] + [row];
    forall t | t in tied ensures !ByDate(row).Before(ByDate(t)) { assert t in sorted[..i]; }
    Append(tied, row, ByDate);
    CoveredStay(tied, row);
  }

  lemma {:induction false} StaysCovered(sorted: seq<Observation>, i: nat, price: int, tied: seq<Observation>)
    requires i < |sorted| && Ordered(sorted, ByDate) && FirstAtPrice(sorted[..i], price, tied)
    requires HasStore(tied, sorted[i].store)
    ensures FirstAtPrice(sorted[..i + 1], price, tied)
  {
    var row := sorted[i];
    assert sorted[..i + 1] == sorted[..i] + [row];
    var k :| 0 <= k < |tied| && tied[k].store == row.store;
    assert tied[k] in sorted[..i];
    assert Covered(tied, row);
  }

  method LowestPrice(rows: seq<Observation>) returns (price: Option<int>)
    ensures if price.Some? then Cheapest(rows, price.value) else forall r :: r in rows ==> !Comparable(r)
  {
    price := None;
    for i := 0 to |rows|
      invariant if price.Some? then Cheapest(rows[..i], price.value) else forall r :: r in rows[..i] ==> !Comparable(r)
    {
      assert rows[..i + 1] == rows[..i] + [rows[i]];
      if Comparable(rows[i]) && (price.None? || rows[i].price.value < price.value) { price := rows[i].price; }
    }
    assert rows[..|rows|] == rows;
  }

  method FirstPerStore(sorted: seq<Observation>, price: int) returns (tied: seq<Observation>)
    requires Ordered(sorted, ByDate) && forall r :: r in sorted ==> Comparable(r)
    ensures FirstAtPrice(sorted, price, tied)
  {
    tied := [];
    for i := 0 to |sorted|
      invariant FirstAtPrice(sorted[..i], price, tied)
    {
      var row := sorted[i];
      if row.price == Some(price) && !HasStore(tied, row.store) {
        NextIsFirst(sorted, i, price, tied);
        tied := tied + [row];
      } else if row.price == Some(price) {
        StaysCovered(sorted, i, price, tied);
      } else {
        assert sorted[..i + 1] == sorted[..i] + [row];
      }
    }
    assert sorted[..|sorted|] == sorted;
  }

  lemma {:induction false} FirstOfAll(rows: seq<Observation>, sorted: seq<Observation>, price: int, tied: seq<Observation>)
    requires forall r :: r in sorted <==> r in rows && Comparable(r)
    requires Cheapest(rows, price) && FirstAtPrice(sorted, price, tied)
    ensures FirstAtPrice(rows, price, tied) && tied != []
  {
    forall r | r in rows && Comparable(r) && r.price == Some(price) ensures Covered(tied, r) {
      assert r in sorted;
    }
    var r :| r in rows && Comparable(r) && r.price == Some(price);
    assert Covered(tied, r);
  }

  method HistoricalLowest(rows: seq<Observation>) returns (lowest: Option<Lowest>)
    requires WellFilled(rows)
    ensures IsLowest(rows, lowest)
  {
    var price := LowestPrice(rows);
    if price.None? { return None; }
    var sorted := Sort(Filter(rows, Comparable), ByDate);
    FilterMembers(rows, Comparable);
    SortSorts(Filter(rows, Comparable), ByDate);
    var tied := FirstPerStore(sorted, price.value);
    FirstOfAll(rows, sorted, price.value, tied);
    lowest := Some(Lowest(price.value, tied[0], tied));
  }
}
