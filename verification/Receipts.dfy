/** One account's receipts as a value: numbered revisions, the prices they publish and what each
    request does to them. The service class is proved against these functions. */
module Receipts {
  import opened Basics
  import opened Pricing
  import opened Sorting
  import opened PriceHistory
  import opened ReceiptStatus

  datatype RevisionStatus = DraftRevision | ConfirmedRevision

  datatype Receipt = Receipt(status: Status, version: nat)

  datatype InputLine = InputLine(
    id: Id, product: Option<Id>, quantity: Option<real>, unit: QuantityUnit, lineType: LineType,
    net: Option<real>, condition: Condition)

  datatype Request = Request(
    mid: Id, expectedVersion: nat, store: Option<Id>, date: Option<int>, time: Option<nat>,
    precision: DatePrecision, printedTotal: Option<real>, lines: seq<InputLine>, acceptGap: bool)

  datatype Operation = SaveDraft | Confirm | Revise

  datatype Balance = Balanced | GapAccepted | Gap | Unverifiable

  datatype TotalReason = MissingPrintedTotal | UnresolvedLineAmounts

  /** Sums are in hundredths of a krone. */
  datatype Reconciliation = Reconciliation(
    balance: Balance, printed: Option<real>, computed: int, difference: Option<int>, reason: Option<TotalReason>)

  datatype Line = Line(
    input: InputLine, position: nat, basis: Basis, price: Option<int>, eligible: bool, dated: bool, reasons: seq<Reason>)

  datatype Revision = Revision(
    status: RevisionStatus, operation: Operation, mid: Id, store: Option<Id>, date: Option<int>, time: Option<nat>,
    precision: DatePrecision, reconciliation: Reconciliation, lines: seq<Line>)

  datatype RevisionKey = RevisionKey(receipt: Id, number: nat)

  datatype PriceRow = PriceRow(
    key: RevisionKey, line: Id, product: Option<Id>, store: Option<Id>, price: int, basis: Basis, unit: QuantityUnit,
    date: Option<int>, precision: DatePrecision, condition: Condition, dated: bool, current: bool)

  datatype Reply = Reply(key: RevisionKey, status: RevisionStatus, priceDataVersion: nat, reconciliation: Reconciliation)

  datatype MutationKey = MutationKey(op: Operation, mid: Id)

  /** The stored digest stands for the payload. */
  datatype Record = Record(digest: Request, receipt: Id, reply: Reply)

  /** Rows of other accounts are not in these maps: they answer like unknown ones. */
  datatype Account = Account(
    receipts: map<Id, Receipt>, revisions: map<RevisionKey, Revision>, prices: seq<PriceRow>,
    records: map<MutationKey, Record>, ledger: Option<nat>,
    stores: map<Id, StoreIdentity>, products: map<Id, IdentityStatus>)

  datatype Rejection =
    | MutationConflict | NotFound | StateConflict(status: Status) | VersionConflict(current: nat)
    | DuplicateLine | ReconciliationGap(difference: int)

  datatype Outcome = Accepted(acc: Account, reply: Reply) | Replayed(reply: Reply) | Refused(code: Rejection)

  /** Everything but the mutation id itself. */
  function Digest(q: Request): Request {
    q.(mid := Id(0))
  }

  function AllowedStatus(op: Operation): Status {
    if op.Revise? then Confirmed else ReadyForReview
  }

  function PriceDataVersion(acc: Account): nat {
    acc.ledger.GetOr(1)
  }

  // ---- Reconciliation ----

  predicate Reconciled(line: InputLine) {
    !line.lineType.UnknownType?
  }

  function Total(lines: seq<InputLine>): real {
    if lines == [] then 0.0
    else
      var last := lines[|lines| - 1];
      Total(lines[..|lines| - 1]) + (if Reconciled(last) then last.net.GetOr(0.0) else 0.0)
  }

  predicate Unresolved(lines: seq<InputLine>) {
    exists i :: 0 <= i < |lines| && Reconciled(lines[i]) && lines[i].net.None?
  }

  function Abs(x: int): nat {
    if x < 0 then -x else x
  }

  /** Whether the lines add up to the printed total; a gap is only refused when confirming. */
  function Reconcile(lines: seq<InputLine>, printed: Option<real>, acceptGap: bool, confirming: bool): (Reconciliation, bool) {
    var computed := HalfEven(Total(lines) * 100.0);
    if printed.None? then (Reconciliation(Unverifiable, None, computed, None, Some(MissingPrintedTotal)), true)
    else
      var difference := HalfEven(computed as real - printed.value * 100.0);
      var balance := if Abs(difference) <= 1 then Balanced else if acceptGap then GapAccepted else Gap;
      var reason := if Unresolved(lines) then Some(UnresolvedLineAmounts) else None;
      (Reconciliation(balance, printed, computed, Some(difference), reason), !(balance.Gap? && confirming))
  }

  function RequestReconciliation(op: Operation, q: Request): (Reconciliation, bool) {
    Reconcile(q.lines, q.printedTotal, !op.SaveDraft? && q.acceptGap, !op.SaveDraft?)
  }

  // ---- Lines ----

  function IdentityOf(acc: Account, product: Option<Id>): Option<IdentityStatus> {
    if product.Some? && product.value in acc.products then Some(acc.products[product.value]) else None
  }

  function Qualified(acc: Account, q: Request, line: InputLine, position: nat): Line {
    var result := EvaluateLine(PricingLine(line.lineType, true, line.quantity, line.unit, None, line.net, line.condition,
                                           line.product, IdentityOf(acc, line.product), q.precision));
    var eligible := result.eligible && q.store.Some?;
    Line(line, position, result.basis, result.price, eligible, result.eligibleDated && eligible,
         result.reasons + When(q.store.None?, StoreUnknown))
  }

  function QualifiedLines(acc: Account, q: Request): seq<Line> {
    seq(|q.lines|, i requires 0 <= i < |q.lines| => Qualified(acc, q, q.lines[i], i))
  }

  // ---- Published prices ----

  function PriceOf(key: RevisionKey, revision: Revision, line: Line): PriceRow
    requires line.price.Some?
  {
    PriceRow(key, line.input.id, line.input.product, revision.store, line.price.value, line.basis, line.input.unit,
             revision.date, revision.precision, line.input.condition, line.dated, true)
  }

  predicate Publishes(line: Line) {
    line.eligible && line.price.Some?
  }

  function Published(key: RevisionKey, revision: Revision, lines: seq<Line>): seq<PriceRow> {
    if lines == [] then []
    else
      var last := lines[|lines| - 1];
      Published(key, revision, lines[..|lines| - 1]) + (if Publishes(last) then [PriceOf(key, revision, last)] else [])
  }

  function CurrentOf(receipt: Id): PriceRow -> bool {
    (p: PriceRow) => p.key.receipt == receipt && p.current
  }

  function RetiredRow(p: PriceRow, receipt: Id): PriceRow {
    if p.key.receipt == receipt then p.(current := false) else p
  }

  function Retired(prices: seq<PriceRow>, receipt: Id): seq<PriceRow> {
    seq(|prices|, i requires 0 <= i < |prices| => RetiredRow(prices[i], receipt))
  }

  /** The receipt's earlier prices stop counting; those of the new revision start to. */
  function Republished(prices: seq<PriceRow>, key: RevisionKey, revision: Revision): seq<PriceRow> {
    Retired(prices, key.receipt) + (if revision.store.None? then [] else Published(key, revision, revision.lines))
  }

  // ---- Requests ----

  predicate UniqueLineIds(lines: seq<InputLine>) {
    forall i, j :: 0 <= i < j < |lines| ==> lines[i].id != lines[j].id
  }

  predicate OwnsProducts(acc: Account, lines: seq<InputLine>) {
    forall i :: 0 <= i < |lines| && lines[i].product.Some? ==> lines[i].product.value in acc.products
  }

  function NextKey(acc: Account, r: Id): RevisionKey
    requires r in acc.receipts
  {
    RevisionKey(r, acc.receipts[r].version + 1)
  }

  function RequestError(acc: Account, op: Operation, r: Id, q: Request): Option<Rejection> {
    if r !in acc.receipts then Some(NotFound)
    else if acc.receipts[r].status != AllowedStatus(op) then Some(StateConflict(acc.receipts[r].status))
    else if q.expectedVersion != acc.receipts[r].version then Some(VersionConflict(acc.receipts[r].version))
    else if q.store.Some? && q.store.value !in acc.stores then Some(NotFound)
    else if !OwnsProducts(acc, q.lines) then Some(NotFound)
    else if !UniqueLineIds(q.lines) then Some(DuplicateLine)
    else if !RequestReconciliation(op, q).1 then Some(ReconciliationGap(RequestReconciliation(op, q).0.difference.GetOr(0)))
    else if NextKey(acc, r) in acc.revisions && acc.revisions[NextKey(acc, r)].status.ConfirmedRevision? then
      Some(VersionConflict(acc.receipts[r].version))
    else None
  }

  function NewRevision(acc: Account, op: Operation, q: Request): Revision {
    Revision(if op.SaveDraft? then DraftRevision else ConfirmedRevision, op, q.mid, q.store, q.date, q.time, q.precision,
             RequestReconciliation(op, q).0, QualifiedLines(acc, q))
  }

  /** The account with the revision written and, unless it is a draft, published. */
  function Written(acc: Account, op: Operation, r: Id, q: Request): Account
    requires r in acc.receipts
  {
    var key, revision := NextKey(acc, r), NewRevision(acc, op, q);
    var acc1 := acc.(revisions := acc.revisions[key := revision], ledger := Some(PriceDataVersion(acc)));
    if op.SaveDraft? then acc1
    else acc1.(prices := Republished(acc.prices, key, revision),
               ledger := Some(PriceDataVersion(acc) + 1),
               receipts := acc.receipts[r := Receipt(Confirmed, key.number)])
  }

  function ReplyTo(acc: Account, op: Operation, r: Id, q: Request): Reply
    requires r in acc.receipts
  {
    Reply(NextKey(acc, r), NewRevision(acc, op, q).status, PriceDataVersion(Written(acc, op, r, q)), RequestReconciliation(op, q).0)
  }

  function Apply(acc: Account, op: Operation, r: Id, q: Request): Outcome {
    var mutation := MutationKey(op, q.mid);
    if mutation in acc.records then
      if acc.records[mutation].digest == Digest(q) && acc.records[mutation].receipt == r then Replayed(acc.records[mutation].reply)
      else Refused(MutationConflict)
    else if RequestError(acc, op, r, q).Some? then Refused(RequestError(acc, op, r, q).value)
    else
      var written := Written(acc, op, r, q);
      var reply := ReplyTo(acc, op, r, q);
      Accepted(written.(records := acc.records[mutation := Record(Digest(q), r, reply)]), reply)
  }

  function After(acc: Account, op: Operation, r: Id, q: Request): Account {
    match Apply(acc, op, r, q)
    case Accepted(acc', _) => acc'
    case _ => acc
  }
}
