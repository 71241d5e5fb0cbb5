/** What every run of receipt requests keeps: numbered revisions that never change once confirmed, one
    current price per eligible line, and a version that counts the confirmations. */
module ReceiptLaws {
  import opened Basics
  import opened Pricing
  import opened Sorting
  import opened PriceHistory
  import opened ReceiptStatus
  import opened Receipts

  // ---- Lines ----

  ghost predicate OnlyReasons(reasons: seq<Reason>, allowed: set<Reason>) {
    forall r :: r in reasons ==> r in allowed
  }

  ghost predicate SoundLine(revision: Revision, l: Line) {
    && (l.eligible ==> l.price.Some? && l.input.product.Some? && revision.store.Some?)
    && (l.eligible <==> OnlyReasons(l.reasons, {DateUnknown}))
    && (l.dated <==> l.reasons == [])
    && (OnlyReasons(l.reasons, {DateUnknown, Conditional}) ==> l.price.Some?)
    && (DateUnknown in l.reasons <==> revision.precision.UnknownPrecision?)
    && (StoreUnknown in l.reasons <==> revision.store.None?)
  }

  /** Every reason concerns the line itself, and a line without a price has one that no filter removes. */
  lemma {:induction false} OwnReasonsAreOwn(line: PricingLine)
    requires line.nok
    ensures forall r :: r in OwnReasons(line) ==> r != DateUnknown && r != StoreUnknown
    ensures EvaluateLine(line).price.None? ==> exists r :: r in OwnReasons(line) && r != Conditional
  {
    var quantityReason := BasisAndDivisor(line).2;
    if quantityReason.Some? { assert quantityReason.value in OwnReasons(line); }
    if line.net.None? { assert DiscountUnknown in OwnReasons(line); }
  }

  lemma {:induction false} WithDate(own: seq<Reason>, all: seq<Reason>, undated: bool)
    requires all == own + When(undated, DateUnknown) && forall r :: r in own ==> r != DateUnknown && r != StoreUnknown
    ensures OnlyReasons(all, {DateUnknown}) <==> own == []
    ensures OnlyReasons(all, {DateUnknown, Conditional}) ==> forall r :: r in own ==> r == Conditional
    ensures (DateUnknown in all <==> undated) && StoreUnknown !in all
  {
    forall r ensures r in all <==> r in own || (undated && r == DateUnknown) { }
    if own != [] { assert own[0] in own && own[0] in all; }
  }

  lemma {:induction false} ReasonsDecide(line: PricingLine)
    requires line.nok
    ensures var result := EvaluateLine(line);
            && (result.eligible <==> OnlyReasons(result.reasons, {DateUnknown}))
            && (OnlyReasons(result.reasons, {DateUnknown, Conditional}) ==> result.price.Some?)
            && (DateUnknown in result.reasons <==> line.precision.UnknownPrecision?)
            && StoreUnknown !in result.reasons
  {
    OwnReasonsAreOwn(line);
    WithDate(OwnReasons(line), EvaluateLine(line).reasons, line.precision.UnknownPrecision?);
  }

  lemma {:induction false} DatedIff(line: PricingLine)
    ensures EvaluateLine(line).eligibleDated <==> EvaluateLine(line).reasons == []
  {
  }

  lemma {:induction false} QualifiedIsSound(acc: Account, op: Operation, q: Request, i: nat)
    requires i < |q.lines|
    ensures SoundLine(NewRevision(acc, op, q), Qualified(acc, q, q.lines[i], i))
  {
    var line := q.lines[i];
    var priced := PricingLine(line.lineType, true, line.quantity, line.unit, None, line.net, line.condition,
                              line.product, IdentityOf(acc, line.product), q.precision);
    var result := EvaluateLine(priced);
    ReasonsDecide(priced);
    EligibleIff(priced);
    DatedIff(priced);
    var l := Qualified(acc, q, line, i);
    if q.store.None? {
      assert l.reasons == result.reasons + [StoreUnknown];
      assert l.reasons[|result.reasons|] == StoreUnknown;
      forall r ensures r in l.reasons <==> r in result.reasons || r == StoreUnknown { }
    } else {
      assert l.reasons == result.reasons;
    }
  }

  // ---- Totals ----

  lemma {:induction false} HalfEvenIsNear(x: real)
    ensures -0.5 <= HalfEven(x) as real - x <= 0.5
  {
  }

  /** What a line adds to the total: nothing while its kind or its amount is unknown. */
  function AmountOf(line: InputLine): real {
    if line.lineType == LineType.UnknownType || line.net == None then 0.0 else line.net.value
  }

  function SumOf(lines: seq<InputLine>): real {
    if lines == [] then 0.0 else AmountOf(lines[0]) + SumOf(lines[1..])
  }

  lemma {:induction false} SumOfAppend(lines: seq<InputLine>, last: InputLine)
    ensures SumOf(lines + [last]) == SumOf(lines) + AmountOf(last)
  {
    if lines == [] {
      assert SumOf([]) == 0.0 && [last][1..] == [];
    } else {
      assert (lines + [last])[1..] == lines[1..] + [last];
      SumOfAppend(lines[1..], last);
    }
  }

  lemma {:induction false} TotalIsSum(lines: seq<InputLine>)
    ensures Total(lines) == SumOf(lines)
  {
    if lines != [] {
      TotalIsSum(lines[..|lines| - 1]);
      SumOfAppend(lines[..|lines| - 1], lines[|lines| - 1]);
      assert lines == lines[..|lines| - 1] + [lines[|lines| - 1]];
    }
  }

  /** How far the lines are from the printed total, in hundredths. */
  function TotalGap(q: Request): real {
    (SumOf(q.lines) - q.printedTotal.GetOr(0.0)) * 100.0
  }

  /** Balanced means within two hundredths of the printed total, and a gap within one is balanced when the
      lines add up to whole hundredths. Only a larger, unaccepted gap refuses a confirmation; a draft is
      never refused for it. */
  lemma {:induction false} TotalsAreHonest(op: Operation, q: Request)
    requires q.printedTotal.Some?
    ensures RequestReconciliation(op, q).0.balance.Balanced? ==> -2.0 <= TotalGap(q) <= 2.0
    ensures -1.0 <= TotalGap(q) <= 1.0 && SumOf(q.lines) * 100.0 == HalfEven(SumOf(q.lines) * 100.0) as real ==>
      RequestReconciliation(op, q).0.balance.Balanced?
    ensures RequestReconciliation(op, q).1 <==>
      op.SaveDraft? || q.acceptGap || RequestReconciliation(op, q).0.balance.Balanced?
  {
    TotalIsSum(q.lines);
    var total := SumOf(q.lines) * 100.0;
    HalfEvenIsNear(total);
    HalfEvenIsNear(HalfEven(total) as real - q.printedTotal.value * 100.0);
    assert TotalGap(q) == total - q.printedTotal.value * 100.0;
  }

  // ---- The invariant ----

  ghost predicate SoundRevision(acc: Account, revision: Revision) {
    && (forall i :: 0 <= i < |revision.lines| ==> revision.lines[i].position == i && SoundLine(revision, revision.lines[i]))
    && (forall i, j :: 0 <= i < j < |revision.lines| ==> revision.lines[i].input.id != revision.lines[j].input.id)
    && (revision.store.Some? ==> revision.store.value in acc.stores)
    && (revision.status.ConfirmedRevision? ==> !revision.reconciliation.balance.Gap?)
  }

  predicate IsConfirmed(acc: Account, k: RevisionKey) {
    k in acc.revisions && acc.revisions[k].status.ConfirmedRevision?
  }

  ghost function ConfirmedKeys(acc: Account): set<RevisionKey> {
    set k | k in acc.revisions && acc.revisions[k].status.ConfirmedRevision?
  }

  /** The confirmed revisions of a receipt are 1 to its version; a draft can only be the next one. */
  ghost predicate Numbered(acc: Account, k: RevisionKey) {
    && (k in acc.revisions ==>
          && k.receipt in acc.receipts && k.number >= 1 && SoundRevision(acc, acc.revisions[k])
          && (acc.revisions[k].status.DraftRevision? ==> k.number == acc.receipts[k.receipt].version + 1))
    && (IsConfirmed(acc, k) <==> k.receipt in acc.receipts && 1 <= k.number <= acc.receipts[k.receipt].version)
  }

  predicate HasCurrent(acc: Account, r: Id) {
    r in acc.receipts && acc.receipts[r].version >= 1 && RevisionKey(r, acc.receipts[r].version) in acc.revisions
  }

  function CurrentKey(acc: Account, r: Id): RevisionKey
    requires r in acc.receipts
  {
    RevisionKey(r, acc.receipts[r].version)
  }

  /** One current price for each eligible line of the receipt's current revision, and no other. */
  ghost predicate PricesMatch(acc: Account, r: Id) {
    Filter(acc.prices, CurrentOf(r)) ==
    if HasCurrent(acc, r) then
      var revision := acc.revisions[CurrentKey(acc, r)];
      Published(CurrentKey(acc, r), revision, revision.lines)
    else []
  }

  ghost predicate Inv(acc: Account) {
    && (forall k :: Numbered(acc, k))
    && (forall r :: PricesMatch(acc, r))
    && (forall r :: r in acc.receipts && acc.receipts[r].version >= 1 ==> acc.receipts[r].status.Confirmed?)
    && PriceDataVersion(acc) == 1 + |ConfirmedKeys(acc)|
  }

  lemma {:induction false} NewAccount(stores: map<Id, StoreIdentity>, products: map<Id, IdentityStatus>)
    ensures Inv(Account(map[], map[], [], map[], None, stores, products))
  {
    assert ConfirmedKeys(Account(map[], map[], [], map[], None, stores, products)) == {};
  }

  // ---- Later accounts ----

  /** What prices are read from is the same. */
  ghost predicate SameBook(a: Account, b: Account) {
    && a.prices == b.prices
    && (forall k :: IsConfirmed(a, k) <==> IsConfirmed(b, k))
    && (forall r :: r in a.receipts ==> r in b.receipts && a.receipts[r].version == b.receipts[r].version)
    && (forall r :: r in b.receipts && r !in a.receipts ==> b.receipts[r].version == 0)
  }

  ghost predicate ReceiptGrows(a: Account, b: Account, r: Id)
    requires r in a.receipts
  {
    r in b.receipts && a.receipts[r].version <= b.receipts[r].version && (a.receipts[r].status.Confirmed? ==> b.receipts[r].status.Confirmed?)
  }

  /** Nothing confirmed changes or disappears, and the price data version moves whenever the prices do. */
  ghost predicate Extends(a: Account, b: Account) {
    && a.stores == b.stores && a.products == b.products
    && (forall r :: r in a.receipts ==> ReceiptGrows(a, b, r))
    && (forall k :: IsConfirmed(a, k) ==> IsConfirmed(b, k) && b.revisions[k] == a.revisions[k])
    && (forall m :: m in a.records ==> m in b.records && b.records[m] == a.records[m])
    && PriceDataVersion(a) <= PriceDataVersion(b)
    && (PriceDataVersion(a) == PriceDataVersion(b) ==> SameBook(a, b))
  }

  lemma {:induction false} ExtendsTransitive(a: Account, b: Account, c: Account)
    requires Extends(a, b) && Extends(b, c)
    ensures Extends(a, c)
  {
    forall r | r in a.receipts ensures ReceiptGrows(a, c, r) { assert ReceiptGrows(a, b, r) && ReceiptGrows(b, c, r); }
    if PriceDataVersion(a) == PriceDataVersion(c) {
      forall r | r in c.receipts && r !in a.receipts ensures c.receipts[r].version == 0 { assert r in b.receipts || r !in b.receipts; }
    }
  }

  // ---- Prices ----

  lemma {:induction false} FilterJoins(a: seq<PriceRow>, b: seq<PriceRow>, keep: PriceRow -> bool)
    ensures Filter(a + b, keep) == Filter(a, keep) + Filter(b, keep)
  {
    if b == [] {
      assert a + b == a;
    } else {
      assert (a + b)[..|a + b| - 1] == a + b[..|b| - 1];
      FilterJoins(a, b[..|b| - 1], keep);
    }
  }

  lemma {:induction false} FilterNone(s: seq<PriceRow>, keep: PriceRow -> bool)
    requires forall p :: p in s ==> !keep(p)
    ensures Filter(s, keep) == []
  {
    if s != [] { FilterNone(s[..|s| - 1], keep); }
  }

  lemma {:induction false} PublishedRows(k: RevisionKey, revision: Revision, lines: seq<Line>)
    ensures forall p :: p in Published(k, revision, lines) ==> p.key == k && p.current
  {
    if lines != [] { PublishedRows(k, revision, lines[..|lines| - 1]); }
  }

  lemma {:induction false} NothingWithoutStore(k: RevisionKey, revision: Revision, lines: seq<Line>)
    requires revision.store.None? && forall i :: 0 <= i < |lines| ==> SoundLine(revision, lines[i])
    ensures Published(k, revision, lines) == []
  {
    if lines != [] { NothingWithoutStore(k, revision, lines[..|lines| - 1]); }
  }

  lemma {:induction false} RepublishedCurrent(prices: seq<PriceRow>, k: RevisionKey, revision: Revision, r: Id)
    requires forall i :: 0 <= i < |revision.lines| ==> SoundLine(revision, revision.lines[i])
    ensures Filter(Republished(prices, k, revision), CurrentOf(r)) ==
              if r == k.receipt then Published(k, revision, revision.lines) else Filter(prices, CurrentOf(r))
  {
    var retired := Retired(prices, k.receipt);
    if revision.store.None? { NothingWithoutStore(k, revision, revision.lines); }
    var added := Published(k, revision, revision.lines);
    PublishedRows(k, revision, revision.lines);
    FilterJoins(retired, added, CurrentOf(r));
    if r == k.receipt {
      FilterNone(retired, CurrentOf(r));
      FilterKeepsAll(added, CurrentOf(r));
    } else {
      FilterAgrees(retired, prices, CurrentOf(r), CurrentOf(r));
      FilterNone(added, CurrentOf(r));
    }
  }

  // ---- One accepted request ----

  lemma {:induction false} NewRevisionIsSound(acc: Account, op: Operation, r: Id, q: Request)
    requires RequestError(acc, op, r, q).None?
    ensures SoundRevision(acc, NewRevision(acc, op, q))
  {
    var revision := NewRevision(acc, op, q);
    assert revision.lines == QualifiedLines(acc, q);
    forall i | 0 <= i < |revision.lines| ensures revision.lines[i].position == i && SoundLine(revision, revision.lines[i]) {
      assert revision.lines[i] == Qualified(acc, q, q.lines[i], i);
      QualifiedIsSound(acc, op, q, i);
    }
    forall i, j | 0 <= i < j < |revision.lines| ensures revision.lines[i].input.id != revision.lines[j].input.id {
      assert revision.lines[i].input == q.lines[i] && revision.lines[j].input == q.lines[j];
    }
  }

  lemma {:induction false} DraftNumbers(acc: Account, r: Id, q: Request, k: RevisionKey)
    requires Inv(acc) && RequestError(acc, SaveDraft, r, q).None?
    ensures Numbered(Written(acc, SaveDraft, r, q), k) && (IsConfirmed(Written(acc, SaveDraft, r, q), k) <==> IsConfirmed(acc, k))
  {
    NewRevisionIsSound(acc, SaveDraft, r, q);
    assert Numbered(acc, k);
  }

  lemma {:induction false} DraftPrices(acc: Account, r: Id, q: Request, x: Id)
    requires Inv(acc) && RequestError(acc, SaveDraft, r, q).None?
    ensures PricesMatch(Written(acc, SaveDraft, r, q), x)
  {
    assert PricesMatch(acc, x);
    if x in acc.receipts { assert Numbered(acc, CurrentKey(acc, x)); }
  }

  lemma {:induction false} DraftKeeps(acc: Account, r: Id, q: Request)
    requires Inv(acc) && RequestError(acc, SaveDraft, r, q).None?
    ensures var acc' := Written(acc, SaveDraft, r, q); Inv(acc') && Extends(acc, acc') && SameBook(acc, acc')
  {
    var acc' := Written(acc, SaveDraft, r, q);
    forall k ensures Numbered(acc', k) && (IsConfirmed(acc', k) <==> IsConfirmed(acc, k)) { DraftNumbers(acc, r, q, k); }
    forall x ensures PricesMatch(acc', x) { DraftPrices(acc, r, q, x); }
    assert ConfirmedKeys(acc') == ConfirmedKeys(acc);
  }

  lemma {:induction false} ConfirmedNumbers(acc: Account, op: Operation, r: Id, q: Request, k: RevisionKey)
    requires Inv(acc) && !op.SaveDraft? && RequestError(acc, op, r, q).None?
    ensures Numbered(Written(acc, op, r, q), k)
    ensures IsConfirmed(Written(acc, op, r, q), k) <==> IsConfirmed(acc, k) || k == NextKey(acc, r)
    ensures IsConfirmed(acc, k) ==> k != NextKey(acc, r)
  {
    NewRevisionIsSound(acc, op, r, q);
    assert Numbered(acc, k) && Numbered(acc, NextKey(acc, r));
  }

  lemma {:induction false} ConfirmedPrices(acc: Account, op: Operation, r: Id, q: Request, x: Id)
    requires Inv(acc) && !op.SaveDraft? && RequestError(acc, op, r, q).None?
    ensures PricesMatch(Written(acc, op, r, q), x)
  {
    NewRevisionIsSound(acc, op, r, q);
    RepublishedCurrent(acc.prices, NextKey(acc, r), NewRevision(acc, op, q), x);
    assert PricesMatch(acc, x);
  }

  lemma {:induction false} ConfirmCounts(acc: Account, op: Operation, r: Id, q: Request)
    requires Inv(acc) && !op.SaveDraft? && RequestError(acc, op, r, q).None?
    ensures |ConfirmedKeys(Written(acc, op, r, q))| == |ConfirmedKeys(acc)| + 1
  {
    var acc' := Written(acc, op, r, q);
    forall k ensures k in ConfirmedKeys(acc') <==> k in ConfirmedKeys(acc) || k == NextKey(acc, r) {
      ConfirmedNumbers(acc, op, r, q, k);
    }
    ConfirmedNumbers(acc, op, r, q, NextKey(acc, r));
    assert ConfirmedKeys(acc') == ConfirmedKeys(acc) + {NextKey(acc, r)};
  }

  lemma {:induction false} ConfirmExtends(acc: Account, op: Operation, r: Id, q: Request)
    requires Inv(acc) && !op.SaveDraft? && RequestError(acc, op, r, q).None?
    ensures Extends(acc, Written(acc, op, r, q))
  {
    forall k | IsConfirmed(acc, k)
      ensures IsConfirmed(Written(acc, op, r, q), k) && Written(acc, op, r, q).revisions[k] == acc.revisions[k]
    {
      ConfirmedNumbers(acc, op, r, q, k);
    }
  }

  lemma {:induction false} ConfirmKeeps(acc: Account, op: Operation, r: Id, q: Request)
    requires Inv(acc) && !op.SaveDraft? && RequestError(acc, op, r, q).None?
    ensures var acc' := Written(acc, op, r, q);
            Inv(acc') && Extends(acc, acc') && PriceDataVersion(acc') == PriceDataVersion(acc) + 1
  {
    var acc' := Written(acc, op, r, q);
    forall k ensures Numbered(acc', k) { ConfirmedNumbers(acc, op, r, q, k); }
    forall x ensures PricesMatch(acc', x) { ConfirmedPrices(acc, op, r, q, x); }
    ConfirmCounts(acc, op, r, q);
    ConfirmExtends(acc, op, r, q);
  }

  // ---- Runs ----

  /** A request, or a status the upload, the worker or the old confirmation gives a receipt. */
  datatype Event =
    | Upload(receipt: Id)
    | WorkerSets(receipt: Id, status: Status)
    | ConfirmV1(receipt: Id)
    | Ask(op: Operation, receipt: Id, request: Request)

  function Step(acc: Account, e: Event): Account {
    match e
    case Upload(r) => if r in acc.receipts then acc else acc.(receipts := acc.receipts[r := Receipt(Uploaded, 0)])
    case WorkerSets(r, status) =>
      if r in acc.receipts && !acc.receipts[r].status.ReadyForReview? && !acc.receipts[r].status.Confirmed? && !status.Confirmed?
      then acc.(receipts := acc.receipts[r := Receipt(status, acc.receipts[r].version)]) else acc
    case ConfirmV1(r) =>
      if r in acc.receipts && acc.receipts[r].status.ReadyForReview?
      then acc.(receipts := acc.receipts[r := Receipt(Confirmed, acc.receipts[r].version)]) else acc
    case Ask(op, r, q) => After(acc, op, r, q)
  }

  ghost function Run(acc: Account, events: seq<Event>): Account
    decreases |events|
  {
    if events == [] then acc else Run(Step(acc, events[0]), events[1..])
  }

  predicate IsConfirmation(acc: Account, e: Event) {
    e.Ask? && !e.op.SaveDraft? && Apply(acc, e.op, e.receipt, e.request).Accepted?
  }

  ghost function Confirmations(acc: Account, events: seq<Event>): nat
    decreases |events|
  {
    if events == [] then 0
    else (if IsConfirmation(acc, events[0]) then 1 else 0) + Confirmations(Step(acc, events[0]), events[1..])
  }

  lemma {:induction false} StatusKeeps(acc: Account, acc': Account, r: Id, status: Status)
    requires Inv(acc) && acc' == acc.(receipts := acc.receipts[r := Receipt(status, if r in acc.receipts then acc.receipts[r].version else 0)])
    requires r in acc.receipts && acc.receipts[r].version >= 1 ==> status.Confirmed?
    requires r in acc.receipts && acc.receipts[r].status.Confirmed? ==> status.Confirmed?
    ensures Inv(acc') && Extends(acc, acc') && SameBook(acc, acc')
  {
    forall k ensures Numbered(acc', k) { assert Numbered(acc, k); }
    forall x ensures PricesMatch(acc', x) { assert PricesMatch(acc, x); }
    assert ConfirmedKeys(acc') == ConfirmedKeys(acc);
    forall x | x in acc.receipts ensures ReceiptGrows(acc, acc', x) { }
  }

  lemma {:induction false} RecordKeeps(acc: Account, acc': Account, m: MutationKey, record: Record)
    requires Inv(acc') && Extends(acc, acc') && acc'.records == acc.records && m !in acc.records
    ensures var acc2 := acc'.(records := acc.records[m := record]); Inv(acc2) && Extends(acc, acc2) && PriceDataVersion(acc2) == PriceDataVersion(acc')
  {
    var acc2 := acc'.(records := acc.records[m := record]);
    forall k ensures Numbered(acc2, k) { assert Numbered(acc', k); }
    forall x ensures PricesMatch(acc2, x) { assert PricesMatch(acc', x); }
    assert ConfirmedKeys(acc2) == ConfirmedKeys(acc');
    forall r | r in acc.receipts ensures ReceiptGrows(acc, acc2, r) { assert ReceiptGrows(acc, acc', r); }
  }

  lemma {:induction false} AfterKeeps(acc: Account, op: Operation, r: Id, q: Request)
    requires Inv(acc)
    ensures var acc' := After(acc, op, r, q);
            && Inv(acc') && Extends(acc, acc')
            && PriceDataVersion(acc') == PriceDataVersion(acc) + (if IsConfirmation(acc, Ask(op, r, q)) then 1 else 0)
  {
    if Apply(acc, op, r, q).Accepted? {
      if op.SaveDraft? { DraftKeeps(acc, r, q); } else { ConfirmKeeps(acc, op, r, q); }
      RecordKeeps(acc, Written(acc, op, r, q), MutationKey(op, q.mid), Record(Digest(q), r, ReplyTo(acc, op, r, q)));
    }
  }

  lemma {:induction false} StepKeeps(acc: Account, e: Event)
    requires Inv(acc)
    ensures Inv(Step(acc, e)) && Extends(acc, Step(acc, e))
    ensures PriceDataVersion(Step(acc, e)) == PriceDataVersion(acc) + (if IsConfirmation(acc, e) then 1 else 0)
  {
    match e
    case Upload(r) => if r !in acc.receipts { StatusKeeps(acc, Step(acc, e), r, Uploaded); }
    case WorkerSets(r, status) => if Step(acc, e) != acc { StatusKeeps(acc, Step(acc, e), r, status); }
    case ConfirmV1(r) => if Step(acc, e) != acc { StatusKeeps(acc, Step(acc, e), r, Confirmed); }
    case Ask(op, r, q) => AfterKeeps(acc, op, r, q);
  }

  /** Any run keeps the invariant and everything confirmed, and the price data version grows by exactly
      the confirmations and revisions it accepts. */
  lemma {:induction false} RunKeeps(acc: Account, events: seq<Event>)
    requires Inv(acc)
    ensures Inv(Run(acc, events)) && Extends(acc, Run(acc, events))
    ensures PriceDataVersion(Run(acc, events)) == PriceDataVersion(acc) + Confirmations(acc, events)
    decreases |events|
  {
    if events != [] {
      StepKeeps(acc, events[0]);
      RunKeeps(Step(acc, events[0]), events[1..]);
      ExtendsTransitive(acc, Step(acc, events[0]), Run(acc, events));
    }
  }

  // ---- Idempotency and versions ----

  lemma {:induction false} SameDigest(q: Request, q': Request)
    requires q'.mid == q.mid
    ensures Digest(q') == Digest(q) <==> q' == q
  {
    assert Digest(q').(mid := q.mid) == q' && Digest(q).(mid := q.mid) == q;
  }

  /** Once accepted, a mutation id never takes effect again, whatever happens in between: the same request
      is answered with the stored reply, any other is refused. */
  lemma {:induction false} AtMostOnce(acc: Account, op: Operation, r: Id, q: Request, events: seq<Event>, r': Id, q': Request)
    requires Inv(acc) && Apply(acc, op, r, q).Accepted? && q'.mid == q.mid
    ensures var later := Run(After(acc, op, r, q), events);
            Apply(later, op, r', q') ==
              if q' == q && r' == r then Replayed(Apply(acc, op, r, q).reply) else Refused(MutationConflict)
  {
    AfterKeeps(acc, op, r, q);
    RunKeeps(After(acc, op, r, q), events);
    assert MutationKey(op, q.mid) in After(acc, op, r, q).records;
    SameDigest(q, q');
  }

  lemma {:induction false} VersionHasPassed(acc: Account, later: Account, op: Operation, r: Id, q: Request)
    requires Extends(acc, later) && r in acc.receipts && q.expectedVersion < acc.receipts[r].version
    ensures !Apply(later, op, r, q).Accepted?
  {
    assert ReceiptGrows(acc, later, r);
  }

  /** Of two requests based on the same version of a receipt, at most one confirmation is accepted, and
      no draft after it. */
  lemma {:induction false} OneConfirmationPerVersion(acc: Account, op: Operation, r: Id, q: Request, events: seq<Event>, op': Operation, q': Request)
    requires Inv(acc) && !op.SaveDraft? && Apply(acc, op, r, q).Accepted? && q'.expectedVersion == q.expectedVersion
    ensures !Apply(Run(After(acc, op, r, q), events), op', r, q').Accepted?
  {
    var acc' := After(acc, op, r, q);
    AfterKeeps(acc, op, r, q);
    RunKeeps(acc', events);
    assert r in acc'.receipts && acc'.receipts[r].version == q.expectedVersion + 1;
    VersionHasPassed(acc', Run(acc', events), op', r, q');
  }
}
