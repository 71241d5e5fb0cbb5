/** Reading purchases back: what the revisions published, and the lines they could not publish. */
module PriceObservations {
  import opened Basics
  import opened Pricing
  import opened Sorting
  import opened PriceHistory
  import opened ReceiptStatus
  import opened Receipts
  import opened ReceiptLaws

  /** The rows a uuid is drawn for and that a reader ever sees: neither kind is rewritten. */
  datatype RowRef = LineRef(key: RevisionKey, position: nat) | PriceRef(key: RevisionKey, line: Id)

  ghost predicate Injective(uuid: RowRef -> Id) {
    forall a, b :: uuid(a) == uuid(b) ==> a == b
  }

  /** A price joined with its revision and its store. */
  datatype JoinedPrice = JoinedPrice(row: PriceRow, time: Option<nat>, identity: StoreIdentity)

  /** A line joined with its revision and, if it has one, its store. */
  datatype JoinedLine = JoinedLine(key: RevisionKey, revision: Revision, line: Line, identity: Option<StoreIdentity>)

  // ---- Reasons ----

  predicate NotConditional(r: Reason) {
    !r.Conditional?
  }

  predicate NotUndated(r: Reason) {
    !r.DateUnknown?
  }

  function LineReasons(line: Line, conditional: bool): seq<Reason> {
    if conditional && line.price.Some? then Filter(line.reasons, NotConditional) else line.reasons
  }

  predicate Undated(date: Option<int>, precision: DatePrecision) {
    date.None? || precision.UnknownPrecision?
  }

  function RankingReasons(own: seq<Reason>, date: Option<int>, precision: DatePrecision, identity: Option<StoreIdentity>): seq<Reason> {
    Filter(own, NotUndated) + When(Undated(date, precision), DateUnknown) + When(identity != Some(Branch), StoreNotBranch)
  }

  // ---- Rows as purchases ----

  function FromPrice(uuid: RowRef -> Id, x: JoinedPrice): Observation {
    var p := x.row;
    Observation(uuid(PriceRef(p.key, p.line)), Some(p.price), p.basis, p.date, p.precision, x.time, p.store, Some(x.identity),
                p.condition, Source(p.key.receipt, p.key.number, p.line),
                RankingReasons([], p.date, p.precision, Some(x.identity)))
  }

  function FromLine(uuid: RowRef -> Id, x: JoinedLine, conditional: bool): Observation {
    var l, v := x.line, x.revision;
    Observation(uuid(LineRef(x.key, l.position)), l.price, l.basis, v.date, v.precision, v.time,
                if x.identity.Some? then v.store else None, x.identity, l.input.condition,
                Source(x.key.receipt, x.key.number, l.input.id),
                RankingReasons(LineReasons(l, conditional), v.date, v.precision, x.identity))
  }

  // ---- What the two queries return ----

  ghost predicate JoinsPrice(acc: Account, x: JoinedPrice) {
    && x.row in acc.prices && x.row.current
    && x.row.key in acc.revisions && acc.revisions[x.row.key].time == x.time
    && x.row.store.Some? && x.row.store.value in acc.stores && acc.stores[x.row.store.value] == x.identity
  }

  ghost predicate JoinsLine(acc: Account, x: JoinedLine) {
    && x.key in acc.revisions && acc.revisions[x.key] == x.revision && x.revision.status.ConfirmedRevision?
    && x.key.receipt in acc.receipts && acc.receipts[x.key.receipt].status.Confirmed?
    && acc.receipts[x.key.receipt].version == x.key.number
    && x.line.position < |x.revision.lines| && x.revision.lines[x.line.position] == x.line
    && x.identity == (if x.revision.store.Some? && x.revision.store.value in acc.stores
                      then Some(acc.stores[x.revision.store.value]) else None)
  }

  /** Every matching row as often as the tables hold it, in whatever order. */
  ghost predicate IsPriceQuery(acc: Account, products: set<Id>, rows: seq<JoinedPrice>) {
    forall x :: multiset(rows)[x] == if JoinsPrice(acc, x) && x.row.product.Some? && x.row.product.value in products
                                     then multiset(acc.prices)[x.row] else 0
  }

  ghost predicate IsLineQuery(acc: Account, products: set<Id>, rows: seq<JoinedLine>) {
    forall x :: multiset(rows)[x] == if JoinsLine(acc, x) && x.line.input.product.Some? && x.line.input.product.value in products
                                     then 1 else 0
  }

  // ---- Loading ----

  function PriceIs(product: Option<Id>): JoinedPrice -> bool {
    (x: JoinedPrice) => x.row.product == product
  }

  function LineIs(product: Option<Id>, seen: set<(RevisionKey, Id)>): JoinedLine -> bool {
    (x: JoinedLine) => x.line.input.product == product && (x.key, x.line.input.id) !in seen
  }

  function FromPrices(uuid: RowRef -> Id, rows: seq<JoinedPrice>): seq<Observation> {
    seq(|rows|, i requires 0 <= i < |rows| => FromPrice(uuid, rows[i]))
  }

  function FromLines(uuid: RowRef -> Id, rows: seq<JoinedLine>, conditional: bool): seq<Observation> {
    seq(|rows|, i requires 0 <= i < |rows| => FromLine(uuid, rows[i], conditional))
  }

  function Seen(rows: seq<JoinedPrice>): set<(RevisionKey, Id)> {
    set x | x in rows :: (x.row.key, x.row.line)
  }

  function Joined(uuid: RowRef -> Id, prices: seq<JoinedPrice>, lines: seq<JoinedLine>, conditional: bool): seq<Observation> {
    FromPrices(uuid, prices) + FromLines(uuid, lines, conditional)
  }

  function PricesOf(prices: seq<JoinedPrice>, product: Option<Id>): seq<JoinedPrice> {
    Filter(prices, PriceIs(product))
  }

  /** The product's lines that none of the prices came from. */
  function LinesOf(prices: seq<JoinedPrice>, lines: seq<JoinedLine>, product: Option<Id>): seq<JoinedLine> {
    Filter(lines, LineIs(product, Seen(prices)))
  }

  /** A product's purchases: its published prices, then the lines none of the prices came from. */
  function Loaded(uuid: RowRef -> Id, prices: seq<JoinedPrice>, lines: seq<JoinedLine>, conditional: bool, product: Option<Id>): seq<Observation> {
    Joined(uuid, PricesOf(prices, product), LinesOf(prices, lines, product), conditional)
  }

  type Grouped = map<Option<Id>, seq<Observation>>

  function Get(grouped: Grouped, product: Option<Id>): seq<Observation> {
    if product in grouped then grouped[product] else []
  }

  function GroupOfPrices(uuid: RowRef -> Id, rows: seq<JoinedPrice>, p: Option<Id>): seq<Observation> {
    FromPrices(uuid, Filter(rows, PriceIs(p)))
  }

  function GroupOfLines(uuid: RowRef -> Id, rows: seq<JoinedLine>, conditional: bool, seen: set<(RevisionKey, Id)>, p: Option<Id>): seq<Observation> {
    FromLines(uuid, Filter(rows, LineIs(p, seen)), conditional)
  }

  lemma {:induction false} NextPrice(uuid: RowRef -> Id, rows: seq<JoinedPrice>, i: nat, p: Option<Id>)
    requires i < |rows|
    ensures GroupOfPrices(uuid, rows[..i + 1], p) ==
              GroupOfPrices(uuid, rows[..i], p) + (if PriceIs(p)(rows[i]) then [FromPrice(uuid, rows[i])] else [])
  {
    assert rows[..i + 1][..i] == rows[..i];
  }

  lemma {:induction false} NextLine(uuid: RowRef -> Id, rows: seq<JoinedLine>, conditional: bool, seen: set<(RevisionKey, Id)>, i: nat, p: Option<Id>)
    requires i < |rows|
    ensures GroupOfLines(uuid, rows[..i + 1], conditional, seen, p) ==
              GroupOfLines(uuid, rows[..i], conditional, seen, p)
              + (if LineIs(p, seen)(rows[i]) then [FromLine(uuid, rows[i], conditional)] else [])
  {
    assert rows[..i + 1][..i] == rows[..i];
  }

  method GroupPrices(uuid: RowRef -> Id, rows: seq<JoinedPrice>) returns (grouped: Grouped)
    ensures forall p :: Get(grouped, p) == GroupOfPrices(uuid, rows, p)
  {
    grouped := map[];
    for i := 0 to |rows|
      invariant forall p :: Get(grouped, p) == GroupOfPrices(uuid, rows[..i], p)
    {
      var product := rows[i].row.product;
      ghost var before, group := grouped, GroupOfPrices(uuid, rows[..i + 1], product);
      NextPrice(uuid, rows, i, product);
      grouped := grouped[product := Get(grouped, product) + [FromPrice(uuid, rows[i])]];
      forall p ensures Get(grouped, p) == GroupOfPrices(uuid, rows[..i + 1], p) {
        assert Get(before, p) == GroupOfPrices(uuid, rows[..i], p);
        NextPrice(uuid, rows, i, p);
      }
    }
    assert rows[..|rows|] == rows;
  }

  ghost predicate LineGrouped(uuid: RowRef -> Id, rows: seq<JoinedLine>, conditional: bool, seen: set<(RevisionKey, Id)>,
                              published: Grouped, grouped: Grouped, p: Option<Id>) {
    Get(grouped, p) == Get(published, p) + GroupOfLines(uuid, rows, conditional, seen, p)
  }

  lemma {:induction false} NextLineGrouped(uuid: RowRef -> Id, rows: seq<JoinedLine>, conditional: bool, seen: set<(RevisionKey, Id)>,
                        published: Grouped, before: Grouped, grouped: Grouped, i: nat, p: Option<Id>)
    requires i < |rows| && LineGrouped(uuid, rows[..i], conditional, seen, published, before, p)
    requires Get(grouped, p) == Get(before, p) + (if LineIs(p, seen)(rows[i]) then [FromLine(uuid, rows[i], conditional)] else [])
    ensures LineGrouped(uuid, rows[..i + 1], conditional, seen, published, grouped, p)
  {
    NextLine(uuid, rows, conditional, seen, i, p);
  }

  method GroupLines(uuid: RowRef -> Id, rows: seq<JoinedLine>, conditional: bool, seen: set<(RevisionKey, Id)>, published: Grouped)
    returns (grouped: Grouped)
    ensures forall p :: LineGrouped(uuid, rows, conditional, seen, published, grouped, p)
  {
    grouped := published;
    for i := 0 to |rows|
      invariant forall p :: LineGrouped(uuid, rows[..i], conditional, seen, published, grouped, p)
    {
      var product := rows[i].line.input.product;
      ghost var before, read := grouped, rows[..i + 1];
      if (rows[i].key, rows[i].line.input.id) !in seen {
        grouped := grouped[product := Get(grouped, product) + [FromLine(uuid, rows[i], conditional)]];
      }
      forall p ensures LineGrouped(uuid, read, conditional, seen, published, grouped, p) {
        assert LineGrouped(uuid, rows[..i], conditional, seen, published, before, p);
        NextLineGrouped(uuid, rows, conditional, seen, published, before, grouped, i, p);
      }
    }
    assert rows[..|rows|] == rows;
  }

  /** `prices` and `lines` are what the two queries returned. */
  method Observations(uuid: RowRef -> Id, prices: seq<JoinedPrice>, lines: seq<JoinedLine>, conditional: bool) returns (grouped: Grouped)
    ensures forall p :: Get(grouped, p) == Loaded(uuid, prices, lines, conditional, p)
  {
    var published := GroupPrices(uuid, prices);
    grouped := GroupLines(uuid, lines, conditional, Seen(prices), published);
    forall p ensures Get(grouped, p) == Loaded(uuid, prices, lines, conditional, p) {
      assert LineGrouped(uuid, lines, conditional, Seen(prices), published, grouped, p);
    }
  }
}
