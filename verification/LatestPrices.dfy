/** The last price each store charged, or the uncertainty about it. */
module LatestPrices {
  import opened Basics
  import opened Pricing
  import opened Sorting
  import opened PriceHistory

  datatype StoreLatest = StoreLatest(
    store: Option<Id>, identity: Option<StoreIdentity>, date: Option<int>, price: Option<int>,
    range: Option<(int, int)>, condition: Option<Condition>, count: nat, sources: seq<Source>)
  {
    predicate Certain() { price.Some? }
  }

  predicate Timed(r: Observation) {
    r.precision.OnDateTime? && r.time.Some?
  }

  function ByPrice(r: Observation): Key {
    Key(r.price.GetOr(0), r.rowId.n)
  }

  function ByTime(r: Observation): Key {
    Key(if Timed(r) then r.time.value else -1, 0)
  }

  predicate OnePrice(rows: seq<Observation>) {
    rows != [] && forall i :: 0 <= i < |rows| ==> rows[i].price == rows[0].price
  }

  function AtTime(t: int): Observation -> bool {
    (r: Observation) => ByTime(r).major == t
  }

  /** The purchase that is provably the day's last, if there is one. */
  function Resolved(sameDay: seq<Observation>): (r: Option<Observation>)
    requires sameDay != []
    ensures r.Some? ==> r.value in sameDay
  {
    if |sameDay| == 1 then Some(sameDay[0])
    else if |Filter(sameDay, Timed)| == |sameDay| then
      var winners := Filter(sameDay, AtTime(ByTime(Largest(sameDay, ByTime)).major));
      FilterMembers(sameDay, AtTime(ByTime(Largest(sameDay, ByTime)).major));
      if OnePrice(winners) then Some(winners[0]) else None
    else if OnePrice(sameDay) then Some(sameDay[0]) else None
  }

  // ---- What "provably the last" means ----

  /** An order the day's purchases may have happened in, as far as the known times tell. */
  ghost predicate Consistent(order: seq<Observation>, sameDay: seq<Observation>) {
    && multiset(order) == multiset(sameDay)
    && forall i, j :: 0 <= i < j < |order| && Timed(order[i]) && Timed(order[j]) ==> order[i].time.value <= order[j].time.value
  }

  ghost predicate EndsAt(order: seq<Observation>, price: Option<int>) {
    order != [] && order[|order| - 1].price == price
  }

  /** Every possible order ends in this price. */
  ghost predicate Determined(sameDay: seq<Observation>, price: Option<int>) {
    forall order :: Consistent(order, sameDay) ==> EndsAt(order, price)
  }

  ghost predicate CouldBeLast(sameDay: seq<Observation>, r: Observation) {
    r in sameDay && (Timed(r) ==> forall s :: s in sameDay && Timed(s) ==> s.time.value <= r.time.value)
  }

  /** Every purchase that could be the last cost this much. */
  ghost predicate CandidatesCost(sameDay: seq<Observation>, price: Option<int>) {
    forall r :: CouldBeLast(sameDay, r) ==> r.price == price
  }

  lemma {:induction false} LastCouldBeLast(order: seq<Observation>, sameDay: seq<Observation>)
    requires Consistent(order, sameDay) && sameDay != []
    ensures order != [] && CouldBeLast(sameDay, order[|order| - 1])
  {
    SameElements(order, sameDay);
  }

  lemma {:induction false} TimesRise(order: seq<Observation>)
    requires Ordered(order, ByTime)
    ensures forall i, j :: 0 <= i < j < |order| && Timed(order[i]) && Timed(order[j]) ==> order[i].time.value <= order[j].time.value
  {
    forall i, j | 0 <= i < j < |order| && Timed(order[i]) && Timed(order[j]) ensures order[i].time.value <= order[j].time.value {
      assert !ByTime(order[j]).Before(ByTime(order[i]));
    }
  }

  lemma {:induction false} TakeOut(s: seq<Observation>, i: nat)
    requires i < |s|
    ensures multiset(s[..i] + s[i + 1..]) + multiset{s[i]} == multiset(s)
    ensures forall r :: r in s[..i] + s[i + 1..] ==> r in s
  {
    assert s == s[..i] + [s[i]] + s[i + 1..];
  }

  lemma {:induction false} LastFits(rest: seq<Observation>, sameDay: seq<Observation>, r: Observation)
    requires Ordered(rest, ByTime) && CouldBeLast(sameDay, r) && forall s :: s in rest ==> s in sameDay
    requires multiset(rest) + multiset{r} == multiset(sameDay)
    ensures Consistent(rest + [r], sameDay)
  {
    TimesRise(rest);
    var order := rest + [r];
    forall i, j | 0 <= i < j < |order| && Timed(order[i]) && Timed(order[j]) ensures order[i].time.value <= order[j].time.value {
      if j == |rest| { assert rest[i] in rest; }
    }
  }

  /** Sort the others by time, those without one first, and put `r` at the end. */
  lemma {:induction false} CandidateEndsAnOrder(sameDay: seq<Observation>, r: Observation) returns (order: seq<Observation>)
    requires CouldBeLast(sameDay, r)
    ensures Consistent(order, sameDay) && order != [] && order[|order| - 1] == r
  {
    var i :| 0 <= i < |sameDay| && sameDay[i] == r;
    var others := sameDay[..i] + sameDay[i + 1..];
    TakeOut(sameDay, i);
    SortSorts(others, ByTime);
    LastFits(Sort(others, ByTime), sameDay, r);
    order := Sort(others, ByTime) + [r];
  }

  lemma {:induction false} DeterminedIff(sameDay: seq<Observation>, price: Option<int>)
    requires sameDay != []
    ensures Determined(sameDay, price) <==> CandidatesCost(sameDay, price)
  {
    if Determined(sameDay, price) {
      forall r | CouldBeLast(sameDay, r) ensures r.price == price {
        var order := CandidateEndsAnOrder(sameDay, r);
        assert EndsAt(order, price);
      }
    }
    if CandidatesCost(sameDay, price) {
      forall order | Consistent(order, sameDay) ensures EndsAt(order, price) {
        LastCouldBeLast(order, sameDay);
      }
    }
  }

  ghost predicate AllTimed(rows: seq<Observation>) {
    forall r :: r in rows ==> Timed(r)
  }

  lemma {:induction false} AllTimedCounts(rows: seq<Observation>)
    ensures |Filter(rows, Timed)| == |rows| <==> AllTimed(rows)
  {
    if rows != [] {
      AllTimedCounts(rows[..|rows| - 1]);
      assert rows == rows[..|rows| - 1] + [rows[|rows| - 1]];
    }
  }

  lemma {:induction false} SomeoneIsLast(sameDay: seq<Observation>)
    requires sameDay != []
    ensures CouldBeLast(sameDay, Largest(sameDay, ByTime))
  {
    var r := Largest(sameDay, ByTime);
    forall s | s in sameDay && Timed(s) && Timed(r) ensures s.time.value <= r.time.value {
      assert !ByTime(r).Before(ByTime(s));
    }
  }

  /** With every time known, the winners are exactly the purchases that could be last. */
  lemma {:induction false} WinnersCouldBeLast(sameDay: seq<Observation>, r: Observation)
    requires sameDay != [] && AllTimed(sameDay)
    ensures r in Filter(sameDay, AtTime(ByTime(Largest(sameDay, ByTime)).major)) <==> CouldBeLast(sameDay, r)
  {
    var last := Largest(sameDay, ByTime);
    SomeoneIsLast(sameDay);
    FilterMember(sameDay, AtTime(ByTime(last).major), r);
    if CouldBeLast(sameDay, r) { assert !ByTime(last).Before(ByTime(r)); }
  }

  lemma {:induction false} OnePriceMeans(rows: seq<Observation>, r: Observation)
    requires r in rows
    ensures OnePrice(rows) <==> forall s :: s in rows ==> s.price == r.price
  {
    if forall s :: s in rows ==> s.price == r.price {
      forall i | 0 <= i < |rows| ensures rows[i].price == rows[0].price { assert rows[i] in rows && rows[0] in rows; }
    }
  }

  /** A price called certain is the last one in every order the known times allow. */
  lemma {:induction false} CertainIsSound(sameDay: seq<Observation>)
    requires sameDay != [] && Resolved(sameDay).Some?
    ensures Determined(sameDay, Resolved(sameDay).value.price)
  {
    var winner := Resolved(sameDay).value;
    DeterminedIff(sameDay, winner.price);
    AllTimedCounts(sameDay);
    if |sameDay| != 1 && AllTimed(sameDay) {
      var winners := Filter(sameDay, AtTime(ByTime(Largest(sameDay, ByTime)).major));
      OnePriceMeans(winners, winner);
      forall r | CouldBeLast(sameDay, r) ensures r.price == winner.price { WinnersCouldBeLast(sameDay, r); }
    } else {
      OnePriceMeans(sameDay, winner);
    }
  }

  lemma {:induction false} NoneTimedMeansAny(sameDay: seq<Observation>)
    requires sameDay != [] && Resolved(sameDay).None? && forall r :: r in sameDay ==> !Timed(r)
    ensures forall price :: !Determined(sameDay, price)
  {
    forall price ensures !Determined(sameDay, price) {
      DeterminedIff(sameDay, price);
      if Determined(sameDay, price) {
        assert CouldBeLast(sameDay, sameDay[0]);
        AllTimedCounts(sameDay);
        forall s | s in sameDay ensures s.price == sameDay[0].price { assert CouldBeLast(sameDay, s); }
        OnePriceMeans(sameDay, sameDay[0]);
      }
    }
  }

  lemma {:induction false} AllTimedMeansWinners(sameDay: seq<Observation>)
    requires sameDay != [] && Resolved(sameDay).None? && AllTimed(sameDay)
    ensures forall price :: !Determined(sameDay, price)
  {
    AllTimedCounts(sameDay);
    var last := Largest(sameDay, ByTime);
    var winners := Filter(sameDay, AtTime(ByTime(last).major));
    FilterMembers(sameDay, AtTime(ByTime(last).major));
    OnePriceMeans(winners, last);
    var other :| other in winners && other.price != last.price;
    WinnersCouldBeLast(sameDay, other);
    WinnersCouldBeLast(sameDay, last);
    forall price ensures !Determined(sameDay, price) { DeterminedIff(sameDay, price); }
  }

  /** When all of the day's times are known, or none, the price is called certain exactly when it is. */
  lemma {:induction false} CertainIsExact(sameDay: seq<Observation>)
    requires sameDay != [] && (AllTimed(sameDay) || forall r :: r in sameDay ==> !Timed(r))
    ensures Resolved(sameDay).Some? <==> exists price :: Determined(sameDay, price)
  {
    if Resolved(sameDay).Some? {
      CertainIsSound(sameDay);
    } else if AllTimed(sameDay) {
      AllTimedMeansWinners(sameDay);
    } else {
      NoneTimedMeansAny(sameDay);
    }
  }

  /** In general a determined price is missed exactly when some but not all times are known, the day had
      several prices, and still all purchases that could be last cost the same. */
  lemma {:induction false} CertainMisses(sameDay: seq<Observation>)
    requires sameDay != []
    ensures (Resolved(sameDay).None? && exists price :: Determined(sameDay, price)) <==>
              && !AllTimed(sameDay) && !OnePrice(sameDay)
              && exists price :: CandidatesCost(sameDay, price)
  {
    AllTimedCounts(sameDay);
    forall price ensures Determined(sameDay, price) <==> CandidatesCost(sameDay, price) {
      DeterminedIff(sameDay, price);
    }
    if Resolved(sameDay).None? && AllTimed(sameDay) { AllTimedMeansWinners(sameDay); }
    if price :| CandidatesCost(sameDay, price) { assert Determined(sameDay, price); }
  }

  function Purchase(id: nat, price: int, time: Option<nat>): Observation {
    Observation(Id(id), Some(price), PerPackage, Some(1), if time.Some? then OnDateTime else OnDate, time,
                Some(Id(9)), Some(Branch), NoCondition, Source(Id(id), 1, Id(id)), [])
  }

  /** At 10 o'clock it cost 20, at 11 it cost 25, and a receipt without a time says 25, too: whatever
      the order, the day ends at 25, but the answer is "uncertain". */
  lemma {:induction false} UncertainThoughDetermined()
    ensures var day := [Purchase(1, 20, Some(600)), Purchase(2, 25, Some(660)), Purchase(3, 25, None)];
            Resolved(day).None? && Determined(day, Some(25))
  {
    var day := [Purchase(1, 20, Some(600)), Purchase(2, 25, Some(660)), Purchase(3, 25, None)];
    AllTimedCounts(day);
    assert day[2] in day && !Timed(day[2]);
    forall r | CouldBeLast(day, r) ensures r.price == Some(25) { assert day[1] in day; }
    DeterminedIff(day, Some(25));
  }

  // ---- One store ----

  function OnDay(day: Option<int>): Observation -> bool {
    (r: Observation) => r.date == day
  }

  function SameDay(rows: seq<Observation>): seq<Observation>
    requires rows != []
  {
    Sort(Filter(rows, OnDay(Largest(rows, ByDate).date)), ByPrice)
  }

  function Sources(rows: seq<Observation>): seq<Source> {
    seq(|rows|, i requires 0 <= i < |rows| => rows[i].source)
  }

  function CommonCondition(rows: seq<Observation>): Option<Condition> {
    if rows != [] && forall i :: 0 <= i < |rows| ==> rows[i].condition == rows[0].condition then Some(rows[0].condition) else None
  }

  lemma {:induction false} SameDayExists(rows: seq<Observation>)
    requires rows != []
    ensures SameDay(rows) != [] && Ordered(SameDay(rows), ByPrice)
    ensures forall r :: r in SameDay(rows) <==> r in rows && r.date == Largest(rows, ByDate).date
  {
    var day := Filter(rows, OnDay(Largest(rows, ByDate).date));
    FilterMembers(rows, OnDay(Largest(rows, ByDate).date));
    assert Largest(rows, ByDate) in day;
    SortSorts(day, ByPrice);
  }

  function Latest(rows: seq<Observation>): StoreLatest
    requires rows != []
  {
    SameDayExists(rows);
    var sameDay := SameDay(rows);
    var certain := Resolved(sameDay);
    var reference := if certain.Some? then certain.value else sameDay[0];
    StoreLatest(reference.store, reference.identity, reference.date,
                if certain.Some? then certain.value.price else None,
                if certain.Some? then None else Some((sameDay[0].price.GetOr(0), sameDay[|sameDay| - 1].price.GetOr(0))),
                CommonCondition(sameDay), |sameDay|,
                if certain.Some? then [certain.value.source] else Sources(sameDay))
  }

  /** `low` and `high` are paid prices of the day and bound all of them. */
  ghost predicate Extremes(sameDay: seq<Observation>, low: int, high: int) {
    && (exists r :: r in sameDay && r.price == Some(low))
    && (exists r :: r in sameDay && r.price == Some(high))
    && forall r :: r in sameDay ==> low <= r.price.GetOr(0) <= high
  }

  lemma {:induction false} LatestIsLastDay(rows: seq<Observation>)
    requires rows != [] && forall r :: r in rows ==> Comparable(r) && r.date.Some?
    ensures Latest(rows).date.Some? && forall r :: r in rows ==> r.date.value <= Latest(rows).date.value
  {
    SameDayExists(rows);
    forall r | r in rows ensures r.date.value <= Latest(rows).date.value {
      assert !ByDate(Largest(rows, ByDate)).Before(ByDate(r));
      assert SameDay(rows)[0] in SameDay(rows);
    }
  }

  /** The reported day is the last one; a certain price is determined, an uncertain one is that day's range. */
  lemma {:induction false} LatestIsHonest(rows: seq<Observation>)
    requires rows != [] && forall r :: r in rows ==> Comparable(r) && r.date.Some?
    ensures Latest(rows).date.Some? && forall r :: r in rows ==> r.date.value <= Latest(rows).date.value
    ensures forall r :: r in SameDay(rows) <==> r in rows && r.date == Latest(rows).date
    ensures if Latest(rows).Certain() then Determined(SameDay(rows), Latest(rows).price)
            else Latest(rows).range.Some? && Extremes(SameDay(rows), Latest(rows).range.value.0, Latest(rows).range.value.1)
  {
    SameDayExists(rows);
    LatestIsLastDay(rows);
    var sameDay := SameDay(rows);
    if Resolved(sameDay).Some? {
      CertainIsSound(sameDay);
    } else {
      assert sameDay[0] in sameDay && sameDay[|sameDay| - 1] in sameDay;
      ExtremesBound(sameDay);
    }
  }

  lemma {:induction false} ExtremesBound(sameDay: seq<Observation>)
    requires sameDay != [] && Ordered(sameDay, ByPrice) && forall r :: r in sameDay ==> r.price.Some?
    ensures forall r :: r in sameDay ==> sameDay[0].price.value <= r.price.value <= sameDay[|sameDay| - 1].price.value
  {
    forall r | r in sameDay ensures sameDay[0].price.value <= r.price.value <= sameDay[|sameDay| - 1].price.value {
      var i :| 0 <= i < |sameDay| && sameDay[i] == r;
      assert i > 0 ==> !ByPrice(r).Before(ByPrice(sameDay[0]));
      assert i < |sameDay| - 1 ==> !ByPrice(sameDay[|sameDay| - 1]).Before(ByPrice(r));
      assert sameDay[0] in sameDay && sameDay[|sameDay| - 1] in sameDay;
    }
  }

  lemma {:induction false} DistinctByPrice(rows: seq<Observation>, some: seq<Observation>)
    requires DistinctRows(rows) && forall r :: r in some ==> r in rows
    ensures DistinctKeys(some, ByPrice)
  {
    forall r, s | r in some && s in some && ByPrice(r) == ByPrice(s) ensures r == s {
      assert Has(rows, r) && Has(rows, s);
    }
  }

  lemma {:induction false} LatestIgnoresOrder(a: seq<Observation>, b: seq<Observation>)
    requires multiset(a) == multiset(b) && DistinctRows(a) && a != []
    ensures b != [] && Latest(a) == Latest(b)
  {
    SameElements(a, b);
    DistinctByDate(a, a);
    LargestIgnoresOrder(a, b, ByDate);
    var onDay := OnDay(Largest(a, ByDate).date);
    FilterIgnoresOrder(a, b, onDay);
    FilterMembers(a, onDay);
    DistinctByPrice(a, Filter(a, onDay));
    SortIgnoresOrder(Filter(a, onDay), Filter(b, onDay), ByPrice);
  }

  // ---- All stores ----

  function AtStore(store: Option<Id>): Observation -> bool {
    (r: Observation) => Comparable(r) && r.store == store
  }

  /** `rank` orders the stores by their lower-cased names. */
  function ByName(rank: Option<Id> -> int): StoreLatest -> Key {
    (l: StoreLatest) => Key(rank(l.store), if l.store.Some? then l.store.value.n else -1)
  }

  /** What there is to say about a store: nothing, if it has no comparable purchase. */
  function Report(rows: seq<Observation>): Option<Id> -> Option<StoreLatest> {
    (store: Option<Id>) =>
      if Filter(rows, AtStore(store)) == [] then None else Some(Latest(Filter(rows, AtStore(store))))
  }

  ghost predicate Listed(result: seq<StoreLatest>, store: Option<Id>) {
    exists l :: l in result && l.store == store
  }

  /** Each store's report exactly once, by name. */
  ghost predicate IsReport(report: Option<Id> -> Option<StoreLatest>, rank: Option<Id> -> int, result: seq<StoreLatest>) {
    && (forall l :: l in result ==> report(l.store) == Some(l) && multiset(result)[l] == 1)
    && (forall store :: report(store).Some? ==> Listed(result, store))
    && Ordered(result, ByName(rank))
  }

  lemma {:induction false} LatestNamesStore(rows: seq<Observation>, store: Option<Id>)
    requires rows != [] && forall r :: r in rows ==> r.store == store
    ensures Latest(rows).store == store
  {
    SameDayExists(rows);
  }

  lemma {:induction false} ReportNamesStore(rows: seq<Observation>, store: Option<Id>)
    requires Report(rows)(store).Some?
    ensures Report(rows)(store).value.store == store
  {
    LatestNamesStore(Filter(rows, AtStore(store)), store) by { FilterMembers(rows, AtStore(store)); }
  }

  /** `latest` holds the report of each of `stores`, in that order. */
  ghost predicate Entries(report: Option<Id> -> Option<StoreLatest>, stores: seq<Option<Id>>, latest: seq<StoreLatest>) {
    && |latest| == |stores|
    && (forall i :: 0 <= i < |stores| ==> report(stores[i]) == Some(latest[i]) && latest[i].store == stores[i])
    && forall i, j :: 0 <= i < j < |stores| ==> stores[i] != stores[j]
  }

  lemma {:induction false} EachOnce(latest: seq<StoreLatest>, l: StoreLatest)
    requires forall i, j :: 0 <= i < j < |latest| ==> latest[i].store != latest[j].store
    ensures multiset(latest)[l] == if l in latest then 1 else 0
  {
    if latest != [] {
      var rest, last := latest[..|latest| - 1], latest[|latest| - 1];
      EachOnce(rest, l);
      assert latest == rest + [last];
      assert last !in rest;
    }
  }

  lemma {:induction false} SortedEntries(report: Option<Id> -> Option<StoreLatest>, rank: Option<Id> -> int, stores: seq<Option<Id>>, latest: seq<StoreLatest>)
    requires Entries(report, stores, latest) && forall store :: report(store).Some? ==> store in stores
    ensures IsReport(report, rank, Sort(latest, ByName(rank)))
  {
    SortSorts(latest, ByName(rank));
    forall l | l in latest ensures report(l.store) == Some(l) && multiset(latest)[l] == 1 {
      EachOnce(latest, l);
    }
    forall store | report(store).Some? ensures Listed(Sort(latest, ByName(rank)), store) {
      var i :| 0 <= i < |stores| && stores[i] == store;
      assert latest[i] in latest;
    }
  }

  /** `stores` lists the keys of `grouped`, which holds each store's purchases in their order. */
  ghost predicate Groups(rows: seq<Observation>, stores: seq<Option<Id>>, grouped: map<Option<Id>, seq<Observation>>) {
    && (forall s :: s in grouped <==> s in stores)
    && (forall s :: GroupOf(rows, grouped, s))
    && forall i, j :: 0 <= i < j < |stores| ==> stores[i] != stores[j]
  }

  ghost predicate GroupOf(rows: seq<Observation>, grouped: map<Option<Id>, seq<Observation>>, store: Option<Id>) {
    var group := Filter(rows, AtStore(store));
    if store in grouped then grouped[store] == group && group != [] else group == []
  }

  method GroupByStore(rows: seq<Observation>) returns (stores: seq<Option<Id>>, grouped: map<Option<Id>, seq<Observation>>)
    ensures Groups(rows, stores, grouped)
  {
    stores, grouped := [], map[];
    for i := 0 to |rows|
      invariant Groups(rows[..i], stores, grouped)
    {
      var row := rows[i];
      ghost var before, seen := grouped, rows[..i + 1];
      if Comparable(row) {
        if row.store !in grouped { stores := stores + [row.store]; }
        grouped := grouped[row.store := (if row.store in grouped then grouped[row.store] else []) + [row]];
      }
      assert seen[..i] == rows[..i];
      forall s ensures GroupOf(seen, grouped, s) { assert GroupOf(rows[..i], before, s); }
    }
    assert rows[..|rows|] == rows;
  }

  lemma {:induction false} NextEntry(report: Option<Id> -> Option<StoreLatest>, stores: seq<Option<Id>>, latest: seq<StoreLatest>, i: nat, l: StoreLatest)
    requires i < |stores| && Entries(report, stores[..i], latest)
    requires report(stores[i]) == Some(l) && l.store == stores[i]
    requires forall k, j :: 0 <= k < j < |stores| ==> stores[k] != stores[j]
    ensures Entries(report, stores[..i + 1], latest + [l])
  {
  }

  lemma {:induction false} ReportOfGroup(rows: seq<Observation>, grouped: map<Option<Id>, seq<Observation>>, store: Option<Id>)
    requires store in grouped && GroupOf(rows, grouped, store)
    ensures Report(rows)(store) == Some(Latest(grouped[store])) && Latest(grouped[store]).store == store
  {
    ReportNamesStore(rows, store);
  }

  lemma {:induction false} ReportsAreGrouped(rows: seq<Observation>, stores: seq<Option<Id>>, grouped: map<Option<Id>, seq<Observation>>)
    requires Groups(rows, stores, grouped)
    ensures forall s :: Report(rows)(s).Some? ==> s in stores
  {
    forall s | Report(rows)(s).Some? ensures s in stores { assert GroupOf(rows, grouped, s); }
  }

  method CollectLatest(rows: seq<Observation>, stores: seq<Option<Id>>, grouped: map<Option<Id>, seq<Observation>>,
                       ghost report: Option<Id> -> Option<StoreLatest>)
    returns (latest: seq<StoreLatest>)
    requires forall i, j :: 0 <= i < j < |stores| ==> stores[i] != stores[j]
    requires forall s :: s in stores ==>
      s in grouped && grouped[s] != [] && report(s) == Some(Latest(grouped[s])) && report(s).value.store == s
    ensures Entries(report, stores, latest)
  {
    latest := [];
    for i := 0 to |stores|
      invariant Entries(report, stores[..i], latest)
    {
      assert stores[i] in stores;
      var l := Latest(grouped[stores[i]]);
      NextEntry(report, stores, latest, i, l);
      latest := latest + [l];
    }
    assert stores[..|stores|] == stores;
  }

  method LatestPerStore(rows: seq<Observation>, rank: Option<Id> -> int) returns (result: seq<StoreLatest>)
    requires WellFilled(rows)
    ensures IsReport(Report(rows), rank, result)
  {
    var stores, grouped := GroupByStore(rows);
    forall s | s in stores
      ensures s in grouped && grouped[s] != [] && Report(rows)(s) == Some(Latest(grouped[s])) && Report(rows)(s).value.store == s
    {
      assert GroupOf(rows, grouped, s);
      ReportOfGroup(rows, grouped, s);
    }
    var latest := CollectLatest(rows, stores, grouped, Report(rows));
    ReportsAreGrouped(rows, stores, grouped);
    SortedEntries(Report(rows), rank, stores, latest);
    result := Sort(latest, ByName(rank));
  }

  lemma {:induction false} ReportIgnoresOrder(a: seq<Observation>, b: seq<Observation>, store: Option<Id>)
    requires multiset(a) == multiset(b) && DistinctRows(a)
    ensures Report(a)(store) == Report(b)(store)
  {
    var mine, other := Filter(a, AtStore(store)), Filter(b, AtStore(store));
    FilterIgnoresOrder(a, b, AtStore(store));
    if mine != [] {
      FilterMembers(a, AtStore(store));
      DistinctSome(a, mine);
      LatestIgnoresOrder(mine, other);
    }
  }

  lemma {:induction false} DistinctSome(rows: seq<Observation>, some: seq<Observation>)
    requires DistinctRows(rows) && forall r :: r in some ==> r in rows
    ensures DistinctRows(some)
  {
    forall r, s | Has(some, r) && Has(some, s) && r.rowId == s.rowId ensures r == s {
      assert Has(rows, r) && Has(rows, s);
    }
  }

  lemma {:induction false} SameStoreKey(a: Option<Id>, b: Option<Id>)
    requires (if a.Some? then a.value.n else -1) == (if b.Some? then b.value.n else -1)
    ensures a == b
  {
  }

  lemma {:induction false} OneReport(f: Option<Id> -> Option<StoreLatest>, g: Option<Id> -> Option<StoreLatest>, rank: Option<Id> -> int,
                  x: seq<StoreLatest>, y: seq<StoreLatest>)
    requires IsReport(f, rank, x) && IsReport(g, rank, y) && forall s :: f(s) == g(s)
    ensures x == y
  {
    forall l ensures multiset(x)[l] == multiset(y)[l] {
      if l in x { assert g(l.store) == Some(l) && Listed(y, l.store); }
      if l in y { assert f(l.store) == Some(l) && Listed(x, l.store); }
      assert l in x <==> l in multiset(x);
      assert l in y <==> l in multiset(y);
    }
    forall l, m | l in x && m in x && ByName(rank)(l) == ByName(rank)(m) ensures l == m {
      SameStoreKey(l.store, m.store);
    }
    OrderedIsUnique(x, y, ByName(rank));
  }

  /** There is one answer, and the order of the rows has no part in it. */
  lemma {:induction false} LatestPerStoreIsUnique(a: seq<Observation>, b: seq<Observation>, rank: Option<Id> -> int, x: seq<StoreLatest>, y: seq<StoreLatest>)
    requires multiset(a) == multiset(b) && DistinctRows(a)
    requires IsReport(Report(a), rank, x) && IsReport(Report(b), rank, y)
    ensures x == y
  {
    forall s ensures Report(a)(s) == Report(b)(s) { ReportIgnoresOrder(a, b, s); }
    OneReport(Report(a), Report(b), rank, x, y);
  }

  // ---- What an answer says ----

  /** The rows of one day, cheapest first and by row id among equals. */
  ghost predicate IsDay(rows: seq<Observation>, date: Option<int>, sameDay: seq<Observation>) {
    && (forall r :: multiset(sameDay)[r] == if r.date == date then multiset(rows)[r] else 0)
    && forall i, j :: 0 <= i < j < |sameDay| ==>
         var a, b := sameDay[i], sameDay[j];
         a.price.GetOr(0) < b.price.GetOr(0) || (a.price.GetOr(0) == b.price.GetOr(0) && a.rowId.n <= b.rowId.n)
  }

  /** One of the last when all times of the day are known, and any purchase of it otherwise. */
  ghost predicate MayStand(sameDay: seq<Observation>, r: Observation) {
    AllTimed(sameDay) ==> forall s :: s in sameDay ==> s.time.value <= r.time.GetOr(0)
  }

  /** The purchase a certain answer names: the first of those that may stand for the day. */
  ghost predicate IsStanding(sameDay: seq<Observation>, k: nat) {
    k < |sameDay| && MayStand(sameDay, sameDay[k]) && forall i :: 0 <= i < k ==> !MayStand(sameDay, sameDay[i])
  }

  ghost predicate SaysCertain(l: StoreLatest, r: Observation) {
    && l.price == r.price && l.range == None && l.store == r.store && l.identity == r.identity && l.sources == [r.source]
  }

  ghost predicate SaysRange(l: StoreLatest, sameDay: seq<Observation>)
    requires sameDay != []
  {
    && l.price == None && l.store == sameDay[0].store && l.identity == sameDay[0].identity
    && l.range == Some((sameDay[0].price.GetOr(0), sameDay[|sameDay| - 1].price.GetOr(0)))
    && |l.sources| == |sameDay| && forall i :: 0 <= i < |sameDay| ==> l.sources[i] == sameDay[i].source
  }

  /** The condition of all purchases of the day, if they have one in common. */
  ghost predicate SaysCondition(l: StoreLatest, sameDay: seq<Observation>) {
    match l.condition
    case Some(c) => forall r :: r in sameDay ==> r.condition == c
    case None => exists r, s :: r in sameDay && s in sameDay && r.condition != s.condition
  }

  ghost predicate Says(l: StoreLatest, rows: seq<Observation>, sameDay: seq<Observation>) {
    && sameDay != [] && IsDay(rows, l.date, sameDay) && l.count == |sameDay| && SaysCondition(l, sameDay)
    && if l.Certain() then exists k: nat :: IsStanding(sameDay, k) && SaysCertain(l, sameDay[k]) else SaysRange(l, sameDay)
  }

  lemma {:induction false} FirstOfFilter(s: seq<Observation>, keep: Observation -> bool) returns (k: nat)
    requires Filter(s, keep) != []
    ensures k < |s| && s[k] == Filter(s, keep)[0] && keep(s[k]) && forall i :: 0 <= i < k ==> !keep(s[i])
  {
    var rest := s[..|s| - 1];
    if Filter(rest, keep) != [] {
      k := FirstOfFilter(rest, keep);
    } else {
      k := |rest|;
      FilterEmpty(rest, keep);
      forall i | 0 <= i < k ensures !keep(s[i]) { assert rest[i] in rest; }
    }
  }

  lemma {:induction false} SameDayIsDay(rows: seq<Observation>)
    requires rows != []
    ensures IsDay(rows, Largest(rows, ByDate).date, SameDay(rows))
  {
    var date := Largest(rows, ByDate).date;
    var day := Filter(rows, OnDay(date));
    SortSorts(day, ByPrice);
    forall r ensures multiset(SameDay(rows))[r] == if r.date == date then multiset(rows)[r] else 0 {
      FilterCounts(rows, OnDay(date), r);
    }
    var sameDay := SameDay(rows);
    forall i, j | 0 <= i < j < |sameDay|
      ensures var a, b := sameDay[i], sameDay[j];
              a.price.GetOr(0) < b.price.GetOr(0) || (a.price.GetOr(0) == b.price.GetOr(0) && a.rowId.n <= b.rowId.n)
    {
      assert !ByPrice(sameDay[j]).Before(ByPrice(sameDay[i]));
    }
  }

  lemma {:induction false} ConditionIsSaid(sameDay: seq<Observation>)
    requires sameDay != []
    ensures match CommonCondition(sameDay)
            case Some(c) => forall r :: r in sameDay ==> r.condition == c
            case None => exists r, s :: r in sameDay && s in sameDay && r.condition != s.condition
  {
    if CommonCondition(sameDay).None? {
      var i :| 0 <= i < |sameDay| && sameDay[i].condition != sameDay[0].condition;
      assert sameDay[i] in sameDay && sameDay[0] in sameDay;
    }
  }

  /** A certain answer is about the first purchase that may stand for the day. */
  lemma {:induction false} ResolvedStands(sameDay: seq<Observation>) returns (k: nat)
    requires sameDay != [] && Resolved(sameDay).Some?
    ensures IsStanding(sameDay, k) && sameDay[k] == Resolved(sameDay).value
  {
    AllTimedCounts(sameDay);
    if |sameDay| == 1 {
      k := 0;
      assert forall s :: s in sameDay ==> s == sameDay[0];
    } else if AllTimed(sameDay) {
      var latest := ByTime(Largest(sameDay, ByTime)).major;
      k := FirstOfFilter(sameDay, AtTime(latest));
      assert Largest(sameDay, ByTime) in sameDay;
      forall s | s in sameDay ensures Timed(s) && s.time.value <= latest {
        assert !ByTime(Largest(sameDay, ByTime)).Before(ByTime(s));
      }
      forall i | 0 <= i < k ensures !MayStand(sameDay, sameDay[i]) {
        assert sameDay[i] in sameDay && !AtTime(latest)(sameDay[i]);
      }
    } else {
      k := 0;
    }
  }

  lemma {:induction false} CertainIsSaid(rows: seq<Observation>, sameDay: seq<Observation>, l: StoreLatest)
    requires rows != [] && sameDay != [] && sameDay == SameDay(rows) && l == Latest(rows) && l.Certain()
    ensures exists k: nat :: IsStanding(sameDay, k) && SaysCertain(l, sameDay[k])
  {
    var k := ResolvedStands(sameDay);
    assert IsStanding(sameDay, k) && SaysCertain(l, sameDay[k]);
  }

  lemma {:induction false} RangeIsSaid(rows: seq<Observation>, sameDay: seq<Observation>, l: StoreLatest)
    requires rows != [] && sameDay != [] && sameDay == SameDay(rows) && l == Latest(rows) && Resolved(sameDay).None?
    ensures SaysRange(l, sameDay)
  {
  }

  /** Every field of a store's entry, in the terms of that day's purchases in their order. */
  lemma {:induction false} LatestAnswers(rows: seq<Observation>)
    requires rows != [] && forall r :: r in rows ==> Comparable(r) && r.date.Some?
    ensures Says(Latest(rows), rows, SameDay(rows))
  {
    var sameDay, l := SameDay(rows), Latest(rows);
    SameDayExists(rows);
    SameDayIsDay(rows);
    ConditionIsSaid(sameDay);
    assert sameDay[0] in sameDay;
    assert l.date == sameDay[0].date && l.count == |sameDay| && l.condition == CommonCondition(sameDay);
    if Resolved(sameDay).Some? { CertainIsSaid(rows, sameDay, l); } else { RangeIsSaid(rows, sameDay, l); }
  }

  /** Entries come in the order of the stores' names, and of their ids among stores named alike. */
  lemma {:induction false} ReportInOrder(report: Option<Id> -> Option<StoreLatest>, rank: Option<Id> -> int, result: seq<StoreLatest>, i: nat, j: nat)
    requires IsReport(report, rank, result) && i < j < |result|
    ensures var a, b := result[i].store, result[j].store;
            rank(a) < rank(b) || (rank(a) == rank(b) && (a.Some? && b.Some? ==> a.value.n <= b.value.n))
  {
    assert !ByName(rank)(result[j]).Before(ByName(rank)(result[i]));
  }
}
