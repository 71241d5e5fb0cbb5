/** The receipt service as it runs: one request at a time updates the account's rows in place. */
module ReceiptRevisionService {
  import opened Basics
  import opened Pricing
  import opened Sorting
  import opened PriceHistory
  import opened ReceiptStatus
  import opened Receipts

  datatype Answer = Done(reply: Reply) | Stored(reply: Reply) | Denied(code: Rejection)

  predicate IsQualified(line: Line, acc: Account, q: Request, i: nat) {
    i < |q.lines| && line == Qualified(acc, q, q.lines[i], i)
  }

  lemma {:induction false} QualifiedAll(lines: seq<Line>, acc: Account, q: Request)
    requires |lines| == |q.lines| && forall k :: 0 <= k < |lines| ==> IsQualified(lines[k], acc, q, k)
    ensures lines == QualifiedLines(acc, q)
  {
    var all := QualifiedLines(acc, q);
    forall k | 0 <= k < |lines| ensures lines[k] == all[k] { assert IsQualified(lines[k], acc, q, k); }
  }

  class Service {
    var receipts: map<Id, Receipt>
    var revisions: map<RevisionKey, Revision>
    var prices: seq<PriceRow>
    var records: map<MutationKey, Record>
    var ledger: Option<nat>
    const stores: map<Id, StoreIdentity>
    const products: map<Id, IdentityStatus>

    function State(): Account
      reads this
    {
      Account(receipts, revisions, prices, records, ledger, stores, products)
    }

    constructor (stores: map<Id, StoreIdentity>, products: map<Id, IdentityStatus>)
      ensures State() == Account(map[], map[], [], map[], None, stores, products)
    {
      receipts, revisions, prices, records, ledger := map[], map[], [], map[], None;
      this.stores, this.products := stores, products;
    }

    /** The account's version, written down as 1 the first time anyone asks. */
    method Ledger() returns (n: nat)
      modifies this`ledger
      ensures ledger == Some(n) && n == PriceDataVersion(old(State()))
    {
      if ledger.None? { ledger := Some(1); }
      n := ledger.value;
    }

    method BumpPriceDataVersion() returns (n: nat)
      modifies this`ledger
      ensures ledger == Some(n) && n == PriceDataVersion(old(State())) + 1
    {
      n := Ledger();
      n := n + 1;
      ledger := Some(n);
    }

    method QualifyLine(q: Request, line: InputLine, position: nat) returns (l: Line)
      ensures l == Qualified(State(), q, line, position)
    {
      var identity := if line.product.Some? && line.product.value in products then Some(products[line.product.value]) else None;
      var result := EvaluateLine(PricingLine(line.lineType, true, line.quantity, line.unit, None, line.net, line.condition,
                                             line.product, identity, q.precision));
      var reasons := result.reasons;
      if q.store.None? { reasons := reasons + [StoreUnknown]; }
      var eligible := result.eligible && q.store.Some?;
      l := Line(line, position, result.basis, result.price, eligible, result.eligibleDated && eligible, reasons);
    }

    method Qualify(q: Request) returns (lines: seq<Line>)
      ensures lines == QualifiedLines(State(), q)
    {
      lines := [];
      for i := 0 to |q.lines|
        invariant |lines| == i
        invariant forall k :: 0 <= k < i ==> IsQualified(lines[k], State(), q, k)
      {
        var line := QualifyLine(q, q.lines[i], i);
        assert IsQualified(line, State(), q, i);
        lines := lines + [line];
      }
      QualifiedAll(lines, State(), q);
    }

    method PublishPrices(key: RevisionKey, revision: Revision)
      modifies this`prices
      ensures prices == Republished(old(prices), key, revision)
    {
      var kept := [];
      for i := 0 to |prices|
        invariant |kept| == i && forall k :: 0 <= k < i ==> kept[k] == RetiredRow(prices[k], key.receipt)
      {
        var p := prices[i];
        if p.key.receipt == key.receipt && p.current { p := p.(current := false); }
        kept := kept + [p];
      }
      prices := kept;
      if revision.store.None? { return; }
      for i := 0 to |revision.lines|
        invariant prices == kept + Published(key, revision, revision.lines[..i])
      {
        var line := revision.lines[i];
        assert revision.lines[..i + 1][..i] == revision.lines[..i];
        if line.eligible && line.price.Some? { prices := prices + [PriceOf(key, revision, line)]; }
      }
      assert revision.lines[..|revision.lines|] == revision.lines;
    }

    /** The effect of a confirmation beside the revision itself. */
    method Publish(r: Id, key: RevisionKey, revision: Revision) returns (version: nat)
      modifies this
      ensures State() == old(State()).(prices := Republished(old(prices), key, revision),
                                       ledger := Some(PriceDataVersion(old(State())) + 1),
                                       receipts := old(receipts)[r := Receipt(Confirmed, key.number)])
      ensures version == PriceDataVersion(old(State())) + 1
    {
      PublishPrices(key, revision);
      version := BumpPriceDataVersion();
      receipts := receipts[r := Receipt(Confirmed, key.number)];
    }

    /** The sum of the known amounts of the lines whose kind is known. */
    method ComputedTotal(lines: seq<InputLine>) returns (total: real)
      ensures total == Total(lines)
    {
      total := 0.0;
      for i := 0 to |lines|
        invariant total == Total(lines[..i])
      {
        assert lines[..i + 1][..i] == lines[..i];
        if !lines[i].lineType.UnknownType? && lines[i].net.Some? { total := total + lines[i].net.value; }
      }
      assert lines[..|lines|] == lines;
    }

    method ReconcileTotals(op: Operation, q: Request) returns (reconciliation: Reconciliation, holds: bool)
      ensures (reconciliation, holds) == RequestReconciliation(op, q)
    {
      var total := ComputedTotal(q.lines);
      var computed := HalfEven(total * 100.0);
      if q.printedTotal.None? { return Reconciliation(Unverifiable, None, computed, None, Some(MissingPrintedTotal)), true; }
      var reason := if Unresolved(q.lines) then Some(UnresolvedLineAmounts) else None;
      var difference := HalfEven(computed as real - q.printedTotal.value * 100.0);
      var balance := Gap;
      if -1 <= difference <= 1 {
        balance := Balanced;
      } else if !op.SaveDraft? && q.acceptGap {
        balance := GapAccepted;
      }
      holds := balance != Gap || op.SaveDraft?;
      reconciliation := Reconciliation(balance, q.printedTotal, computed, Some(difference), reason);
    }

    /** The checks a request has to pass before anything is written. */
    method Check(op: Operation, r: Id, q: Request) returns (error: Option<Rejection>)
      ensures error == RequestError(State(), op, r, q)
    {
      if r !in receipts { return Some(NotFound); }
      var allowed := match op case SaveDraft => ReadyForReview case Confirm => ReadyForReview case Revise => Confirmed;
      if receipts[r].status != allowed { return Some(StateConflict(receipts[r].status)); }
      if q.expectedVersion != receipts[r].version { return Some(VersionConflict(receipts[r].version)); }
      if q.store.Some? && q.store.value !in stores { return Some(NotFound); }
      if !OwnsProducts(State(), q.lines) { return Some(NotFound); }
      if !UniqueLineIds(q.lines) { return Some(DuplicateLine); }
      var reconciliation, holds := ReconcileTotals(op, q);
      if !holds { return Some(ReconciliationGap(reconciliation.difference.GetOr(0))); }
      var next := RevisionKey(r, receipts[r].version + 1);
      if next in revisions && revisions[next].status.ConfirmedRevision? { return Some(VersionConflict(receipts[r].version)); }
      return None;
    }

    /** Writes the revision after every check has passed. */
    method Write(op: Operation, r: Id, q: Request) returns (reply: Reply)
      requires RequestError(State(), op, r, q).None?
      modifies this
      ensures State() == Written(old(State()), op, r, q) && reply == ReplyTo(old(State()), op, r, q)
    {
      var reconciliation, _ := ReconcileTotals(op, q);
      var lines := Qualify(q);
      var key := RevisionKey(r, receipts[r].version + 1);
      var confirming := !op.SaveDraft?;
      var revision := Revision(if confirming then ConfirmedRevision else DraftRevision, op, q.mid, q.store, q.date, q.time,
                               q.precision, reconciliation, lines);
      revisions := revisions[key := revision];
      var version := Ledger();
      if confirming { version := Publish(r, key, revision); }
      reply := Reply(key, revision.status, version, reconciliation);
    }

    method Apply(op: Operation, r: Id, q: Request) returns (answer: Answer)
      modifies this
      ensures State() == After(old(State()), op, r, q)
      ensures match Receipts.Apply(old(State()), op, r, q)
              case Accepted(_, reply) => answer == Done(reply)
              case Replayed(reply) => answer == Stored(reply)
              case Refused(code) => answer == Denied(code)
    {
      var mutation := MutationKey(op, q.mid);
      if mutation in records {
        var record := records[mutation];
        return if record.digest != Digest(q) || record.receipt != r then Denied(MutationConflict) else Stored(record.reply);
      }
      var error := Check(op, r, q);
      if error.Some? { return Denied(error.value); }
      var reply := Write(op, r, q);
      records := records[mutation := Record(Digest(q), r, reply)];
      return Done(reply);
    }
  }
}
