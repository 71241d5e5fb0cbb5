/** What each receipt request answers and writes: the first check it fails, or every field of the rows it leaves. */
module ReceiptAnswers {
  import opened Basics
  import opened Pricing
  import opened PricingAnswers
  import opened PriceHistory
  import opened ReceiptStatus
  import opened Receipts
  import opened ReceiptLaws

  // ---- When a request is taken ----

  function StatusOf(acc: Account, r: Id): Status {
    if r in acc.receipts then acc.receipts[r].status else Uploaded
  }

  function VersionOf(acc: Account, r: Id): nat {
    if r in acc.receipts then acc.receipts[r].version else 0
  }

  /** The number the next revision gets. */
  function NextKeyOf(acc: Account, r: Id): RevisionKey {
    RevisionKey(r, VersionOf(acc, r) + 1)
  }

  /** How far the sum of the lines is from the printed total, in hundredths, each rounded on its own. */
  function Difference(q: Request): int {
    if q.printedTotal.Some? then HalfEven(HalfEven(SumOf(q.lines) * 100.0) as real - q.printedTotal.value * 100.0) else 0
  }

  predicate AddsUp(q: Request) {
    q.printedTotal.Some? ==> -1 <= Difference(q) <= 1
  }

  predicate Accepts(status: Status, op: Operation) {
    match op
    case SaveDraft => status == ReadyForReview
    case Confirm => status == ReadyForReview
    case Revise => status == Confirmed
  }

  predicate KnowsProducts(acc: Account, lines: seq<InputLine>) {
    forall line :: line in lines && line.product.Some? ==> line.product.value in acc.products
  }

  predicate DistinctIds(lines: seq<InputLine>) {
    forall i, j :: 0 <= i < |lines| && 0 <= j < |lines| && i != j ==> lines[i].id != lines[j].id
  }

  /** The checks in their order. The last one only fails in a race that no sequence of requests leads to. */
  function Refusal(acc: Account, op: Operation, r: Id, q: Request): Option<Rejection> {
    Must(r in acc.receipts, NotFound,
    Must(Accepts(StatusOf(acc, r), op), StateConflict(StatusOf(acc, r)),
    Must(q.expectedVersion == VersionOf(acc, r), VersionConflict(VersionOf(acc, r)),
    Must(q.store.Some? ==> q.store.value in acc.stores, NotFound,
    Must(KnowsProducts(acc, q.lines), NotFound,
    Must(DistinctIds(q.lines), DuplicateLine,
    Must(op.SaveDraft? || q.acceptGap || AddsUp(q), ReconciliationGap(Difference(q)),
    Must(!IsConfirmed(acc, NextKeyOf(acc, r)), VersionConflict(VersionOf(acc, r)), None))))))))
  }

  lemma {:induction false} RefusalIs(acc: Account, op: Operation, r: Id, q: Request)
    ensures RequestError(acc, op, r, q) == Refusal(acc, op, r, q)
  {
    TotalIsSum(q.lines);
    assert KnowsProducts(acc, q.lines) <==> OwnsProducts(acc, q.lines) by {
      if OwnsProducts(acc, q.lines) {
        forall line | line in q.lines && line.product.Some? ensures line.product.value in acc.products {
          var i :| 0 <= i < |q.lines| && q.lines[i] == line;
        }
      }
    }
    assert DistinctIds(q.lines) <==> UniqueLineIds(q.lines);
  }

  lemma {:induction false} NoRaceInARun(acc: Account, r: Id)
    requires Inv(acc) && r in acc.receipts
    ensures !IsConfirmed(acc, NextKeyOf(acc, r))
  {
    assert Numbered(acc, NextKeyOf(acc, r));
  }

  // ---- What it writes ----

  /** The totals as they are stored: the sum, its distance from the printed total, and what is made of it. */
  ghost predicate IsReconciliation(x: Reconciliation, op: Operation, q: Request) {
    && x.printed == q.printedTotal && RoundsToEven(x.computed, SumOf(q.lines) * 100.0)
    && if q.printedTotal.None? then x.balance == Unverifiable && x.difference == None && x.reason == Some(MissingPrintedTotal)
       else
         && x.difference.Some? && RoundsToEven(x.difference.value, x.computed as real - q.printedTotal.value * 100.0)
         && x.balance == (if -1 <= x.difference.value <= 1 then Balanced
                          else if q.acceptGap && op != SaveDraft then GapAccepted else Gap)
         && x.reason == (if exists line :: line in q.lines && line.lineType != LineType.UnknownType && line.net == None
                         then Some(UnresolvedLineAmounts) else None)
  }

  lemma {:induction false} ReconciliationAnswers(op: Operation, q: Request)
    ensures IsReconciliation(RequestReconciliation(op, q).0, op, q)
  {
    var x := RequestReconciliation(op, q).0;
    TotalIsSum(q.lines);
    HalfEvenRounds(SumOf(q.lines) * 100.0, x.computed);
    if q.printedTotal.Some? { HalfEvenRounds(x.computed as real - q.printedTotal.value * 100.0, x.difference.value); }
    UnresolvedMeans(q.lines);
  }

  lemma {:induction false} UnresolvedMeans(lines: seq<InputLine>)
    ensures Unresolved(lines) <==> exists line :: line in lines && line.lineType != LineType.UnknownType && line.net == None
  {
    if i :| 0 <= i < |lines| && Reconciled(lines[i]) && lines[i].net.None? { assert lines[i] in lines; }
    if line :| line in lines && line.lineType != LineType.UnknownType && line.net == None {
      var i :| 0 <= i < |lines| && lines[i] == line;
      assert Reconciled(lines[i]);
    }
  }

  /** The line as it is priced: in kroner, without a package count, with the status of the account's product. */
  function Priced(acc: Account, q: Request, line: InputLine): PricingLine {
    PricingLine(
      lineType := line.lineType, nok := true, quantity := line.quantity, unit := line.unit, packages := None,
      net := line.net, condition := line.condition, product := line.product,
      identity := if line.product.Some? && line.product.value in acc.products then Some(acc.products[line.product.value]) else None,
      precision := q.precision)
  }

  /** A stored line: as it came, in its place, with what its evaluation says; without a store it counts nowhere. */
  ghost predicate IsLine(acc: Account, q: Request, l: Line, i: nat)
    requires i < |q.lines|
  {
    var line := Priced(acc, q, q.lines[i]);
    && l.input == q.lines[i] && l.position == i && l.basis == BasisOf(line.unit)
    && (l.price.Some? <==> line.net.Some? && exists d :: Divides(line, d)) && (l.price.Some? ==> IsPrice(line, l.price.value))
    && (l.eligible <==> q.store.Some? && forall x :: Applies(line, x) ==> x == DateUnknown)
    && (l.dated <==> q.store.Some? && forall x :: !Applies(line, x))
    && InPlace(l.reasons) && forall x :: x in l.reasons <==> Applies(line, x) || (x == StoreUnknown && q.store.None?)
  }

  lemma {:induction false} QualifiedIsEvaluated(acc: Account, q: Request, i: nat)
    requires i < |q.lines|
    ensures var l, result := Qualified(acc, q, q.lines[i], i), EvaluateLine(Priced(acc, q, q.lines[i]));
            && l.input == q.lines[i] && l.position == i && l.basis == result.basis && l.price == result.price
            && l.eligible == (result.eligible && q.store.Some?) && l.dated == (result.eligibleDated && q.store.Some?)
            && l.reasons == result.reasons + When(q.store.None?, StoreUnknown)
  {
  }

  lemma {:induction false} WithStore(line: PricingLine, reasons: seq<Reason>, noStore: bool)
    requires InPlace(reasons) && forall x :: x in reasons <==> Applies(line, x)
    ensures InPlace(reasons + When(noStore, StoreUnknown))
    ensures forall x :: x in reasons + When(noStore, StoreUnknown) <==> Applies(line, x) || (x == StoreUnknown && noStore)
  {
    OneMore(reasons, When(noStore, StoreUnknown), 7);
  }

  lemma {:induction false} QualifiedAnswers(acc: Account, q: Request, i: nat)
    requires i < |q.lines|
    ensures IsLine(acc, q, Qualified(acc, q, q.lines[i], i), i)
  {
    var line := Priced(acc, q, q.lines[i]);
    LineAnswers(line);
    QualifiedIsEvaluated(acc, q, i);
    WithStore(line, EvaluateLine(line).reasons, q.store.None?);
  }

  ghost predicate IsRevision(acc: Account, v: Revision, op: Operation, q: Request) {
    && v.status == (if op == SaveDraft then DraftRevision else ConfirmedRevision) && v.operation == op && v.mid == q.mid
    && v.store == q.store && v.date == q.date && v.time == q.time && v.precision == q.precision
    && IsReconciliation(v.reconciliation, op, q)
    && |v.lines| == |q.lines| && forall i :: 0 <= i < |q.lines| ==> IsLine(acc, q, v.lines[i], i)
  }

  ghost predicate IsRetired(p: PriceRow, p': PriceRow) {
    && p'.key == p.key && p'.line == p.line && p'.product == p.product && p'.store == p.store && p'.price == p.price
    && p'.basis == p.basis && p'.unit == p.unit && p'.date == p.date && p'.precision == p.precision
    && p'.condition == p.condition && p'.dated == p.dated && !p'.current
  }

  ghost predicate IsPriceRow(p: PriceRow, key: RevisionKey, v: Revision, l: Line) {
    && p.key == key && p.line == l.input.id && p.product == l.input.product && p.store == v.store && l.price == Some(p.price)
    && p.basis == l.basis && p.unit == l.input.unit && p.date == v.date && p.precision == v.precision
    && p.condition == l.input.condition && p.dated == l.dated && p.current
  }

  /** `from` names the eligible, priced lines in their order. */
  ghost predicate Chooses(from: seq<nat>, lines: seq<Line>) {
    && (forall k :: 0 <= k < |from| ==> from[k] < |lines|) && (forall k, l :: 0 <= k < l < |from| ==> from[k] < from[l])
    && forall i :: 0 <= i < |lines| ==> (i in from <==> lines[i].eligible && lines[i].price.Some?)
  }

  ghost predicate RowsFrom(rows: seq<PriceRow>, key: RevisionKey, v: Revision, lines: seq<Line>, from: seq<nat>) {
    && Chooses(from, lines) && |rows| == |from|
    && forall k :: 0 <= k < |rows| ==> IsPriceRow(rows[k], key, v, lines[from[k]])
  }

  /** One row for each eligible, priced line, in their order. */
  ghost predicate ArePrices(rows: seq<PriceRow>, key: RevisionKey, v: Revision, lines: seq<Line>) {
    exists from :: RowsFrom(rows, key, v, lines, from)
  }

  lemma {:induction false} ChooseLast(from: seq<nat>, lines: seq<Line>, last: Line)
    requires Chooses(from, lines)
    ensures Chooses(if last.eligible && last.price.Some? then from + [|lines|] else from, lines + [last])
  {
    var from' := if last.eligible && last.price.Some? then from + [|lines|] else from;
    forall i | 0 <= i <= |lines| ensures i in from' <==> (lines + [last])[i].eligible && (lines + [last])[i].price.Some? {
      assert i in from' <==> i in from || (i == |lines| && last.eligible && last.price.Some?);
    }
  }

  lemma {:induction false} RowsLast(rows: seq<PriceRow>, key: RevisionKey, v: Revision, lines: seq<Line>, last: Line, from: seq<nat>)
    requires RowsFrom(rows, key, v, lines, from)
    ensures ArePrices(rows + (if Publishes(last) then [PriceOf(key, v, last)] else []), key, v, lines + [last])
  {
    ChooseLast(from, lines, last);
    var rows' := rows + (if Publishes(last) then [PriceOf(key, v, last)] else []);
    var from' := if last.eligible && last.price.Some? then from + [|lines|] else from;
    forall k | 0 <= k < |rows'| ensures IsPriceRow(rows'[k], key, v, (lines + [last])[from'[k]]) {
      if k < |from| { assert IsPriceRow(rows[k], key, v, lines[from[k]]); }
    }
    assert RowsFrom(rows', key, v, lines + [last], from');
  }

  lemma {:induction false} PublishedArePrices(key: RevisionKey, v: Revision, lines: seq<Line>)
    ensures ArePrices(Published(key, v, lines), key, v, lines)
  {
    if lines == [] {
      assert RowsFrom([], key, v, lines, []);
    } else {
      var before, last := lines[..|lines| - 1], lines[|lines| - 1];
      PublishedArePrices(key, v, before);
      var from :| RowsFrom(Published(key, v, before), key, v, before, from);
      RowsLast(Published(key, v, before), key, v, before, last, from);
      assert before + [last] == lines;
    }
  }

  /** The receipt's earlier prices no longer count; those of the new revision, if it has a store, come after them. */
  ghost predicate PricesReplaced(prices: seq<PriceRow>, prices': seq<PriceRow>, key: RevisionKey, v: Revision) {
    && |prices| <= |prices'|
    && (forall i :: 0 <= i < |prices| ==>
          if prices[i].key.receipt == key.receipt then IsRetired(prices[i], prices'[i]) else prices'[i] == prices[i])
    && if v.store.None? then |prices'| == |prices| else ArePrices(prices'[|prices|..], key, v, v.lines)
  }

  lemma {:induction false} RepublishedReplaces(prices: seq<PriceRow>, key: RevisionKey, v: Revision)
    ensures PricesReplaced(prices, Republished(prices, key, v), key, v)
  {
    PublishedArePrices(key, v, v.lines);
    var prices' := Republished(prices, key, v);
    if v.store.Some? { assert prices'[|prices|..] == Published(key, v, v.lines); }
  }

  /** The revision an accepted request leaves under the next number. */
  ghost predicate LeavesRevision(acc: Account, acc': Account, op: Operation, r: Id, q: Request) {
    var key := NextKeyOf(acc, r);
    && key in acc'.revisions && acc'.revisions == acc.revisions[key := acc'.revisions[key]]
    && IsRevision(acc, acc'.revisions[key], op, q) && acc'.stores == acc.stores && acc'.products == acc.products
  }

  /** A draft leaves receipts and prices alone; a confirmation moves the receipt, its prices and the account's version on. */
  ghost predicate LeavesBook(acc: Account, acc': Account, op: Operation, r: Id) {
    var key, version := NextKeyOf(acc, r), if acc.ledger.Some? then acc.ledger.value else 1;
    if op == SaveDraft then acc'.receipts == acc.receipts && acc'.prices == acc.prices && acc'.ledger == Some(version)
    else
      && acc'.receipts == acc.receipts[r := Receipt(Confirmed, VersionOf(acc, r) + 1)] && acc'.ledger == Some(version + 1)
      && key in acc'.revisions && PricesReplaced(acc.prices, acc'.prices, key, acc'.revisions[key])
  }

  ghost predicate IsReply(acc': Account, key: RevisionKey, reply: Reply) {
    && reply.key == key && key in acc'.revisions && reply.status == acc'.revisions[key].status
    && Some(reply.priceDataVersion) == acc'.ledger && reply.reconciliation == acc'.revisions[key].reconciliation
  }

  ghost predicate Leaves(acc: Account, acc': Account, op: Operation, r: Id, q: Request, reply: Reply) {
    && LeavesRevision(acc, acc', op, r, q) && LeavesBook(acc, acc', op, r)
    && IsReply(acc', NextKeyOf(acc, r), reply) && IsRecorded(acc, acc', op, r, q, reply)
  }

  ghost predicate IsRecorded(acc: Account, acc': Account, op: Operation, r: Id, q: Request, reply: Reply) {
    var m := MutationKey(op, q.mid);
    && m in acc'.records && acc'.records == acc.records[m := acc'.records[m]]
    && acc'.records[m].digest.(mid := q.mid) == q && acc'.records[m].receipt == r && acc'.records[m].reply == reply
  }

  lemma {:induction false} NewRevisionAnswers(acc: Account, op: Operation, q: Request)
    ensures IsRevision(acc, NewRevision(acc, op, q), op, q)
  {
    ReconciliationAnswers(op, q);
    var v := NewRevision(acc, op, q);
    assert v.lines == QualifiedLines(acc, q);
    forall i | 0 <= i < |q.lines| ensures IsLine(acc, q, v.lines[i], i) { QualifiedAnswers(acc, q, i); }
  }

  lemma {:induction false} RevisionLeft(acc: Account, acc': Account, v: Revision, op: Operation, r: Id, q: Request)
    requires acc'.revisions == acc.revisions[NextKeyOf(acc, r) := v] && acc'.stores == acc.stores && acc'.products == acc.products
    requires IsRevision(acc, v, op, q)
    ensures LeavesRevision(acc, acc', op, r, q)
  {
  }

  lemma {:induction false} WrittenRows(acc: Account, op: Operation, r: Id, q: Request)
    requires r in acc.receipts
    ensures var acc' := Written(acc, op, r, q);
            && acc'.revisions == acc.revisions[NextKeyOf(acc, r) := NewRevision(acc, op, q)]
            && acc'.stores == acc.stores && acc'.products == acc.products
  {
  }

  lemma {:induction false} DraftWritten(acc: Account, r: Id, q: Request)
    requires r in acc.receipts
    ensures var acc' := Written(acc, SaveDraft, r, q);
            acc'.receipts == acc.receipts && acc'.prices == acc.prices && acc'.ledger == Some(PriceDataVersion(acc))
  {
  }

  lemma {:induction false} ConfirmationWritten(acc: Account, op: Operation, r: Id, q: Request)
    requires r in acc.receipts && op != SaveDraft
    ensures var acc' := Written(acc, op, r, q);
            && acc'.receipts == acc.receipts[r := Receipt(Confirmed, NextKeyOf(acc, r).number)]
            && acc'.ledger == Some(PriceDataVersion(acc) + 1)
            && acc'.prices == Republished(acc.prices, NextKeyOf(acc, r), NewRevision(acc, op, q))
  {
  }

  lemma {:induction false} RevisionWritten(acc: Account, acc': Account, v: Revision, op: Operation, r: Id, q: Request)
    requires v == NewRevision(acc, op, q)
    requires acc'.revisions == acc.revisions[NextKeyOf(acc, r) := v] && acc'.stores == acc.stores && acc'.products == acc.products
    ensures LeavesRevision(acc, acc', op, r, q)
  {
    NewRevisionAnswers(acc, op, q);
    RevisionLeft(acc, acc', v, op, r, q);
  }

  lemma {:induction false} BookWritten(acc: Account, acc': Account, v: Revision, op: Operation, r: Id)
    requires NextKeyOf(acc, r) in acc'.revisions && acc'.revisions[NextKeyOf(acc, r)] == v
    requires if op == SaveDraft
             then acc'.receipts == acc.receipts && acc'.prices == acc.prices && acc'.ledger == Some(PriceDataVersion(acc))
             else
               && acc'.receipts == acc.receipts[r := Receipt(Confirmed, NextKeyOf(acc, r).number)]
               && acc'.ledger == Some(PriceDataVersion(acc) + 1)
               && acc'.prices == Republished(acc.prices, NextKeyOf(acc, r), v)
    ensures LeavesBook(acc, acc', op, r)
  {
    RepublishedReplaces(acc.prices, NextKeyOf(acc, r), v);
  }

  lemma {:induction false} Recorded(acc: Account, acc1: Account, op: Operation, r: Id, q: Request, reply: Reply)
    requires LeavesRevision(acc, acc1, op, r, q) && LeavesBook(acc, acc1, op, r) && IsReply(acc1, NextKeyOf(acc, r), reply)
    ensures Leaves(acc, acc1.(records := acc.records[MutationKey(op, q.mid) := Record(Digest(q), r, reply)]), op, r, q, reply)
  {
    assert Digest(q).(mid := q.mid) == q;
  }

  /** A request whose id is new is refused with the first check it fails and taken exactly if it fails none; a draft and a
      confirmation take a receipt ready for review, a revision a confirmed one. */
  lemma {:induction false} RequestAnswers(acc: Account, op: Operation, r: Id, q: Request)
    requires MutationKey(op, q.mid) !in acc.records
    ensures match Apply(acc, op, r, q)
            case Refused(code) => Refusal(acc, op, r, q) == Some(code) && After(acc, op, r, q) == acc
            case Accepted(acc', reply) =>
              Refusal(acc, op, r, q) == None && Leaves(acc, acc', op, r, q, reply) && After(acc, op, r, q) == acc'
            case Replayed(_) => false
  {
    RefusalIs(acc, op, r, q);
    if RequestError(acc, op, r, q).None? {
      WrittenRows(acc, op, r, q);
      RevisionWritten(acc, Written(acc, op, r, q), NewRevision(acc, op, q), op, r, q);
      if op == SaveDraft { DraftWritten(acc, r, q); } else { ConfirmationWritten(acc, op, r, q); }
      BookWritten(acc, Written(acc, op, r, q), NewRevision(acc, op, q), op, r);
      Recorded(acc, Written(acc, op, r, q), op, r, q, ReplyTo(acc, op, r, q));
    }
  }

  /** A request whose id is recorded gets the stored reply if it is the same in all but the id and for the same receipt,
      and is refused otherwise; neither writes anything. */
  lemma {:induction false} RepeatAnswers(acc: Account, op: Operation, r: Id, q: Request)
    requires MutationKey(op, q.mid) in acc.records
    ensures var record := acc.records[MutationKey(op, q.mid)];
            && After(acc, op, r, q) == acc
            && Apply(acc, op, r, q) == if record.digest == q.(mid := Id(0)) && record.receipt == r then Replayed(record.reply)
                                       else Refused(MutationConflict)
  {
  }
}
