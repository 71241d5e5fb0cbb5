/** What the outbox guarantees over any run: late workers change nothing, a result is stored once, and
    every job comes to an end. */
module OcrGuarantees {
  import opened Basics
  import opened ReceiptStatus
  import opened OcrOutbox
  import opened OcrRuns

  // ---- Superseded attempts ----

  /** No job of `r` that is still active can be reached with attempt `a`, now or ever. */
  ghost predicate Superseded(db: Db, r: Id, a: Id) {
    a in db.attempts && forall j :: j in ActiveJobs(db.jobs, r) ==> db.jobs[j].attempt != Some(a)
  }

  /** An active job keeps its attempt, loses none, and gets one only from a claim. */
  lemma {:induction false} StepAttempt(db: Db, e: Event, j: Id)
    requires j in Step(db, e).jobs && Step(db, e).jobs[j].Active()
    ensures var job := Step(db, e).jobs[j];
            || job.attempt.None? || (e.Claims? && job.attempt == Some(e.attempt))
            || (j in db.jobs && db.jobs[j].Active() && db.jobs[j].receipt == job.receipt && db.jobs[j].attempt == job.attempt)
  {
    match e
    case Claims(r, attempt, now) =>
    case Completes(r, attempt) =>
    case Fails(r, attempt, code, permanent) =>
    case _ =>
  }

  lemma {:induction false} StaysSuperseded(db: Db, e: Event, r: Id, a: Id)
    requires Valid(db, e) && Superseded(db, r, a)
    ensures Superseded(Step(db, e), r, a)
  {
    forall j | j in ActiveJobs(Step(db, e).jobs, r) ensures Step(db, e).jobs[j].attempt != Some(a) { StepAttempt(db, e, j); }
  }

  lemma {:induction false} SupersededIsRefused(db: Db, r: Id, a: Id, code: ErrorCode, permanent: bool)
    requires Superseded(db, r, a)
    ensures Complete(db, r, a) == db && Fail(db, r, a, code, permanent) == db
  {
  }

  /** A claim takes the job over: whatever happens later, the attempt that held it before can neither
      complete nor fail anything. */
  lemma {:induction false} LateWorkerChangesNothing(db: Db, r: Id, a: Id, events: seq<Event>, code: ErrorCode, permanent: bool)
    requires Inv(db) && ValidRun(db, events) && Superseded(db, r, a)
    ensures var later := Run(db, events); Complete(later, r, a) == later && Fail(later, r, a, code, permanent) == later
    decreases |events|
  {
    if events == [] {
      SupersededIsRefused(db, r, a, code, permanent);
    } else {
      StepKeeps(db, events[0]);
      StaysSuperseded(db, events[0], r, a);
      LateWorkerChangesNothing(Step(db, events[0]), r, a, events[1..], code, permanent);
    }
  }

  lemma {:induction false} ClaimSupersedes(db: Db, r: Id, a: Id, attempt: Id, now: int)
    requires Inv(db) && attempt !in db.attempts && a in db.attempts && Claim(db, r, attempt, now).1
    ensures Superseded(Claim(db, r, attempt, now).0, r, a)
  {
    var db' := Claim(db, r, attempt, now).0;
    forall j | j in ActiveJobs(db'.jobs, r) ensures db'.jobs[j].attempt != Some(a) {
      assert One(db, r);
      assert j in ActiveJobs(db.jobs, r);
    }
  }

  // ---- Work in hand ----

  /** A worker with attempt `a` has the job of a receipt that is there, for an account that is not deleted. */
  ghost predicate Holds(db: Db, r: Id, a: Id) {
    r in db.receipts && exists j :: j in ActiveJobs(db.jobs, r) && HoldsJob(db, j, a)
  }

  ghost predicate HoldsJob(db: Db, j: Id, a: Id) {
    j in db.jobs && db.jobs[j].attempt == Some(a) && db.jobs[j].user in db.users
  }

  /** What can take the work out of its hands: a claim that finds the job free, its own report, a deletion. */
  ghost predicate Disturbs(db: Db, e: Event, r: Id, a: Id) {
    || (e.Claims? && e.r == r && exists j :: FreeClaim(db, e, j))
    || (e.Completes? && e.r == r && e.attempt == a)
    || (e.Fails? && e.r == r && e.attempt == a)
    || e == DeletesReceipt(r)
    || (r in db.receipts && e == DeletesAccount(db.receipts[r].user))
  }

  ghost predicate Undisturbed(db: Db, events: seq<Event>, r: Id, a: Id)
    decreases |events|
  {
    events != [] ==> !Disturbs(db, events[0], r, a) && Undisturbed(Step(db, events[0]), events[1..], r, a)
  }

  lemma {:induction false} ClaimHolds(db: Db, r: Id, a: Id, now: int)
    requires Inv(db) && Claim(db, r, a, now).1
    ensures Holds(Claim(db, r, a, now).0, r, a) && Claim(db, r, a, now).0.receipts[r].status.Processing?
  {
    var j := ActiveJob(db, r).value;
    assert j in ActiveJobs(Claim(db, r, a, now).0.jobs, r);
  }

  lemma {:induction false} ClaimHoldsOn(db: Db, e: Event, r: Id, a: Id, j: Id)
    requires Inv(db) && Valid(db, e) && r in db.receipts && ActiveJob(db, r) == Some(j) && j in ActiveJobs(db.jobs, r) && e.Claims?
    requires HoldsJob(db, j, a) && JobOk(db, j) && !Disturbs(db, e, r, a)
    ensures j in ActiveJobs(Step(db, e).jobs, r) && HoldsJob(Step(db, e), j, a)
  {
    if e.r == r { assert !FreeClaim(db, e, j); }
  }

  lemma {:induction false} ReportHoldsOn(db: Db, e: Event, r: Id, a: Id, j: Id)
    requires Valid(db, e) && r in db.receipts && ActiveJob(db, r) == Some(j) && j in ActiveJobs(db.jobs, r) && (e.Completes? || e.Fails?)
    requires HoldsJob(db, j, a) && !Disturbs(db, e, r, a)
    ensures j in ActiveJobs(Step(db, e).jobs, r) && HoldsJob(Step(db, e), j, a)
  {
  }

  lemma {:induction false} JobHoldsOn(db: Db, e: Event, r: Id, a: Id, j: Id)
    requires Inv(db) && Valid(db, e) && r in db.receipts && ActiveJob(db, r) == Some(j) && j in ActiveJobs(db.jobs, r)
    requires HoldsJob(db, j, a) && JobOk(db, j) && !Disturbs(db, e, r, a)
    ensures j in ActiveJobs(Step(db, e).jobs, r) && HoldsJob(Step(db, e), j, a)
  {
    if e.Claims? {
      ClaimHoldsOn(db, e, r, a, j);
    } else if e.Completes? || e.Fails? {
      ReportHoldsOn(db, e, r, a, j);
    }
  }

  lemma {:induction false} ReceiptStays(db: Db, e: Event, r: Id)
    requires r in db.receipts && e != DeletesReceipt(r)
    ensures r in Step(db, e).receipts
  {
  }

  lemma {:induction false} HoldsOn(db: Db, e: Event, r: Id, a: Id)
    requires Inv(db) && Valid(db, e) && Holds(db, r, a) && !Disturbs(db, e, r, a)
    ensures Holds(Step(db, e), r, a)
  {
    var j :| j in ActiveJobs(db.jobs, r) && HoldsJob(db, j, a);
    assert One(db, r) && JobOk(db, j);
    ActiveJobIs(db, r, j);
    JobHoldsOn(db, e, r, a, j);
    ReceiptStays(db, e, r);
  }

  /** Completing job `j` now stores its result and ends it. */
  ghost predicate Finishes(db: Db, r: Id, a: Id, j: Id) {
    var db' := Complete(db, r, a);
    && StoresResult(db, Completes(r, a), j)
    && j in db'.jobs && db'.jobs[j].status.Done? && r in db'.receipts && db'.receipts[r].status.ReadyForReview?
  }

  /** Failing job `j` now ends it, or puts it and its receipt back in line. */
  ghost predicate FailsOrWaits(db: Db, r: Id, a: Id, j: Id, code: ErrorCode, permanent: bool) {
    var db' := Fail(db, r, a, code, permanent);
    && j in db.jobs && j in db'.jobs && db'.jobs[j].error == Some(code) && r in db'.receipts
    && if permanent || db.jobs[j].count >= MAX_ATTEMPTS then db'.jobs[j].status.FailedPermanent? && db'.receipts[r].status.Failed?
       else db'.jobs[j].status.Pending? && db'.receipts[r].status.Uploaded?
  }

  ghost predicate WorkCounts(db: Db, r: Id, a: Id, code: ErrorCode, permanent: bool) {
    exists j :: Finishes(db, r, a, j) && FailsOrWaits(db, r, a, j, code, permanent)
  }

  lemma {:induction false} HeldWorkCountsNow(db: Db, r: Id, a: Id, code: ErrorCode, permanent: bool)
    requires Inv(db) && Holds(db, r, a)
    ensures WorkCounts(db, r, a, code, permanent)
  {
    var j :| j in ActiveJobs(db.jobs, r) && HoldsJob(db, j, a);
    assert One(db, r) && JobOk(db, j);
    ActiveJobIs(db, r, j);
    assert Finishes(db, r, a, j);
    assert FailsOrWaits(db, r, a, j, code, permanent);
  }

  /** Work that nothing disturbed is never lost: whatever else happens meanwhile, its completion is stored and ends
      the job, and its failure ends the job or puts it back in line. */
  lemma {:induction false} HeldWorkCounts(db: Db, r: Id, a: Id, events: seq<Event>, code: ErrorCode, permanent: bool)
    requires Inv(db) && ValidRun(db, events) && Holds(db, r, a) && Undisturbed(db, events, r, a)
    ensures WorkCounts(Run(db, events), r, a, code, permanent)
    decreases |events|
  {
    if events == [] {
      HeldWorkCountsNow(db, r, a, code, permanent);
    } else {
      StepKeeps(db, events[0]);
      HoldsOn(db, events[0], r, a);
      HeldWorkCounts(Step(db, events[0]), r, a, events[1..], code, permanent);
    }
  }

  // ---- One result ----

  /** `e` stores job `j`'s result. */
  ghost predicate StoresResult(db: Db, e: Event, j: Id) {
    && e.Completes? && AttemptJob(db, e.r, e.attempt) == Some(j) && j in db.jobs
    && db.jobs[j].user in db.users && db.jobs[j].receipt in db.receipts
  }

  ghost function Results(db: Db, events: seq<Event>, j: Id): nat
    decreases |events|
  {
    if events == [] then 0
    else (if StoresResult(db, events[0], j) then 1 else 0) + Results(Step(db, events[0]), events[1..], j)
  }

  lemma {:induction false} EndedStays(db: Db, e: Event, j: Id)
    requires j in db.jobs && !db.jobs[j].Active() && Valid(db, e)
    ensures j in Step(db, e).jobs && Step(db, e).jobs[j] == db.jobs[j] && !StoresResult(db, e, j)
  {
  }

  lemma {:induction false} NoResultAfterEnd(db: Db, events: seq<Event>, j: Id)
    requires j in db.jobs && !db.jobs[j].Active() && ValidRun(db, events)
    ensures Results(db, events, j) == 0
    decreases |events|
  {
    if events != [] {
      EndedStays(db, events[0], j);
      NoResultAfterEnd(Step(db, events[0]), events[1..], j);
    }
  }

  lemma {:induction false} StoringEnds(db: Db, e: Event, j: Id)
    requires StoresResult(db, e, j)
    ensures var db' := Step(db, e);
            && j in db'.jobs && db'.jobs[j].status.Done?
            && db.jobs[j].receipt in db'.receipts && db'.receipts[db.jobs[j].receipt].status.ReadyForReview?
  {
  }

  /** Over any run a job stores at most one result. */
  lemma {:induction false} OneResultPerJob(db: Db, events: seq<Event>, j: Id)
    requires ValidRun(db, events)
    ensures Results(db, events, j) <= 1
    decreases |events|
  {
    if events != [] {
      if StoresResult(db, events[0], j) {
        StoringEnds(db, events[0], j);
        NoResultAfterEnd(Step(db, events[0]), events[1..], j);
      } else {
        OneResultPerJob(Step(db, events[0]), events[1..], j);
      }
    }
  }

  // ---- Reviewed receipts ----

  predicate Reviewed(db: Db, r: Id) {
    r in db.receipts && (db.receipts[r].status.ReadyForReview? || db.receipts[r].status.Confirmed?)
  }

  ghost predicate TouchesResult(db: Db, e: Event, r: Id) {
    exists j :: StoresResult(db, e, j) && db.jobs[j].receipt == r
  }

  ghost predicate NeverStores(db: Db, events: seq<Event>, r: Id)
    decreases |events|
  {
    events != [] ==> !TouchesResult(db, events[0], r) && NeverStores(Step(db, events[0]), events[1..], r)
  }

  lemma {:induction false} NoActiveJobOnReviewed(db: Db, r: Id)
    requires Inv(db) && Reviewed(db, r)
    ensures ActiveJobs(db.jobs, r) == {}
  {
    forall j | j in db.jobs ensures j !in ActiveJobs(db.jobs, r) { assert JobOk(db, j); }
  }

  lemma {:induction false} ReviewedStep(db: Db, e: Event, r: Id)
    requires Inv(db) && Valid(db, e) && Reviewed(db, r) && e != DeletesReceipt(r)
    ensures Reviewed(Step(db, e), r) && !TouchesResult(db, e, r)
    ensures db.receipts[r].status.Confirmed? ==> Step(db, e).receipts[r].status.Confirmed?
  {
    NoActiveJobOnReviewed(db, r);
  }

  /** A receipt the user may be reviewing, or has confirmed, keeps that status and its contents, whatever
      workers still come back; only the user confirms or deletes it. */
  lemma {:induction false} ReviewIsNeverOverwritten(db: Db, events: seq<Event>, r: Id)
    requires Inv(db) && ValidRun(db, events) && Reviewed(db, r) && DeletesReceipt(r) !in events
    ensures Reviewed(Run(db, events), r) && NeverStores(db, events, r)
    ensures db.receipts[r].status.Confirmed? ==> Run(db, events).receipts[r].status.Confirmed?
    decreases |events|
  {
    if events != [] {
      StepKeeps(db, events[0]);
      ReviewedStep(db, events[0], r);
      ReviewIsNeverOverwritten(Step(db, events[0]), events[1..], r);
    }
  }

  // ---- Progress ----

  /** How many claims of a free job can still find it. */
  function Remaining(job: Job): int {
    if job.Active() then MAX_ATTEMPTS + 1 - job.count else 0
  }

  ghost predicate FreeClaim(db: Db, e: Event, j: Id) {
    e.Claims? && ActiveJob(db, e.r) == Some(j) && j in db.jobs && !Leased(db.jobs[j], e.now)
  }

  ghost function FreeClaims(db: Db, events: seq<Event>, j: Id): nat
    decreases |events|
  {
    if events == [] then 0
    else (if FreeClaim(db, events[0], j) then 1 else 0) + FreeClaims(Step(db, events[0]), events[1..], j)
  }

  lemma {:induction false} StepProgress(db: Db, e: Event, j: Id)
    requires Inv(db) && Valid(db, e) && j in db.jobs
    ensures j in Step(db, e).jobs
    ensures Remaining(Step(db, e).jobs[j]) + (if FreeClaim(db, e, j) then 1 else 0) <= Remaining(db.jobs[j])
  {
    assert JobOk(db, j);
    if e.Claims? && ActiveJobs(db.jobs, e.r) != {} { assert JobOk(db, ActiveJob(db, e.r).value); }
  }

  /** Each claim that finds the job free uses up one of its attempts or ends it, and nothing gives one back:
      after at most one claim more than the maximum, the job has ended. */
  lemma {:induction false} JobsEnd(db: Db, events: seq<Event>, j: Id)
    requires Inv(db) && ValidRun(db, events) && j in db.jobs
    ensures j in Run(db, events).jobs
    ensures FreeClaims(db, events, j) + Remaining(Run(db, events).jobs[j]) <= Remaining(db.jobs[j])
    ensures FreeClaims(db, events, j) > MAX_ATTEMPTS ==> !Run(db, events).jobs[j].Active()
    decreases |events|
  {
    RunKeeps(db, events);
    assert JobOk(db, j);
    if events != [] {
      StepProgress(db, events[0], j);
      StepKeeps(db, events[0]);
      JobsEnd(Step(db, events[0]), events[1..], j);
      assert JobOk(Run(db, events), j);
    }
  }

  /** When a job has ended and its receipt still waits, with its account alive, another job is at it. */
  lemma {:induction false} EndedIsAnswered(db: Db, j: Id)
    requires Inv(db) && j in db.jobs && !db.jobs[j].Active()
    ensures var r := db.jobs[j].receipt;
            r in db.receipts && db.receipts[r].user in db.users && Waiting(db.receipts[r].status) ==>
              exists i :: i != j && i in ActiveJobs(db.jobs, r)
  {
    var r := db.jobs[j].receipt;
    assert Served(db, r);
    if ActiveJobs(db.jobs, r) != {} {
      var i :| i in ActiveJobs(db.jobs, r);
      assert i != j;
    }
  }

  /** When the job has to be picked up again. */
  function DueAt(job: Job, minAge: int): int
    requires Timely(job) && job.Active()
  {
    match job.status
    case Pending => job.created + minAge
    case Published => job.published.value + minAge
    case InProcess => job.lease.value
  }

  /** A reconciliation selects an active job exactly from its due time on, and a worker it reaches then,
      at any later time, finds the job free. */
  lemma {:induction false} DueIsPickedUp(db: Db, j: Id, reached: set<Id>, now: int, minAge: int, later: int)
    requires Inv(db) && j in db.jobs && db.jobs[j].Active() && minAge > 0 && now <= later
    ensures JobOk(db, j) && (Overdue(db.jobs[j], now, minAge) <==> DueAt(db.jobs[j], minAge) <= now)
    ensures Overdue(db.jobs[j], now, minAge) ==>
      forall attempt :: FreeClaim(Reconcile(db, reached, now, minAge), Claims(db.jobs[j].receipt, attempt, later), j)
  {
    assert JobOk(db, j);
    if Overdue(db.jobs[j], now, minAge) {
      var db' := Reconcile(db, reached, now, minAge);
      var r := db.jobs[j].receipt;
      ReconcileKeeps(db, reached, now, minAge);
      assert One(db', r);
      assert j in ActiveJobs(db'.jobs, r);
      ActiveJobIs(db', r, j);
    }
  }

  // ---- Every job ends ----

  /** Any events at all, among them whatever becomes of earlier claims, then a reconciliation and a worker's claim. */
  datatype Round = Round(events: seq<Event>, reached: set<Id>, now: int, minAge: int, attempt: Id, later: int)

  ghost function RoundEvents(db: Db, j: Id, x: Round): seq<Event>
    requires j in db.jobs
  {
    x.events + [Reconciles(x.reached, x.now, x.minAge), Claims(db.jobs[j].receipt, x.attempt, x.later)]
  }

  /** The reconciliation comes once the job, if it is still active, has waited long enough: `minAge` seconds after it was
      queued or published, or when the lease of its last claim has run out. */
  ghost predicate FairRound(db: Db, j: Id, x: Round)
    requires j in db.jobs
  {
    && ValidRun(db, RoundEvents(db, j, x)) && x.minAge > 0 && x.now <= x.later
    && var db1 := Run(db, x.events);
       j in db1.jobs && db1.jobs[j].Active() && Timely(db1.jobs[j]) ==> DueAt(db1.jobs[j], x.minAge) <= x.now
  }

  ghost function AfterRounds(db: Db, j: Id, rounds: seq<Round>): Db
    requires j in db.jobs
    decreases |rounds|
  {
    if rounds == [] then db
    else
      var db1 := Run(db, RoundEvents(db, j, rounds[0]));
      if j in db1.jobs then AfterRounds(db1, j, rounds[1..]) else db1
  }

  ghost predicate AllFair(db: Db, j: Id, rounds: seq<Round>)
    requires j in db.jobs
    decreases |rounds|
  {
    rounds != [] ==>
      FairRound(db, j, rounds[0]) &&
      var db1 := Run(db, RoundEvents(db, j, rounds[0]));
      j in db1.jobs && AllFair(db1, j, rounds[1..])
  }

  lemma {:induction false} RunAppends(db: Db, a: seq<Event>, b: seq<Event>)
    ensures Run(db, a + b) == Run(Run(db, a), b)
    ensures ValidRun(db, a + b) <==> ValidRun(db, a) && ValidRun(Run(db, a), b)
    decreases |a|
  {
    if a == [] {
      assert a + b == b;
    } else {
      assert (a + b)[0] == a[0] && (a + b)[1..] == a[1..] + b;
      RunAppends(Step(db, a[0]), a[1..], b);
    }
  }

  lemma {:induction false} KeepsReceipt(db: Db, events: seq<Event>, j: Id)
    requires j in db.jobs && Inv(db) && ValidRun(db, events)
    ensures j in Run(db, events).jobs && Run(db, events).jobs[j].receipt == db.jobs[j].receipt
    decreases |events|
  {
    if events != [] {
      StepKeeps(db, events[0]);
      StepKeepsReceipt(db, events[0], j);
      KeepsReceipt(Step(db, events[0]), events[1..], j);
    }
  }

  lemma {:induction false} StepKeepsReceipt(db: Db, e: Event, j: Id)
    requires j in db.jobs && Valid(db, e)
    ensures j in Step(db, e).jobs && Step(db, e).jobs[j].receipt == db.jobs[j].receipt
  {
  }

  lemma {:induction false} TwoEvents(db: Db, e: Event, f: Event)
    ensures Run(db, [e, f]) == Step(Step(db, e), f)
    ensures ValidRun(db, [e, f]) <==> Valid(db, e) && Valid(Step(db, e), f)
  {
    var db1 := Step(db, e);
    assert [e, f][1..] == [f] && [f][1..] == [];
    assert Run(db1, [f]) == Run(Step(db1, f), []) && (ValidRun(db1, [f]) <==> Valid(db1, f) && ValidRun(Step(db1, f), []));
  }

  /** The reconciliation and the claim of a fair round use up an attempt of the job, unless it has ended. */
  lemma {:induction false} PickedUp(db: Db, j: Id, x: Round)
    requires Inv(db) && j in db.jobs && x.minAge > 0 && x.now <= x.later && Timely(db.jobs[j])
    requires db.jobs[j].Active() ==> DueAt(db.jobs[j], x.minAge) <= x.now
    requires Valid(Step(db, Reconciles(x.reached, x.now, x.minAge)), Claims(db.jobs[j].receipt, x.attempt, x.later))
    ensures var db' := Step(Step(db, Reconciles(x.reached, x.now, x.minAge)), Claims(db.jobs[j].receipt, x.attempt, x.later));
            j in db'.jobs && (Remaining(db'.jobs[j]) < Remaining(db.jobs[j]) || !db'.jobs[j].Active())
  {
    var e, f := Reconciles(x.reached, x.now, x.minAge), Claims(db.jobs[j].receipt, x.attempt, x.later);
    StepProgress(db, e, j);
    StepKeeps(db, e);
    StepProgress(Step(db, e), f, j);
    if db.jobs[j].Active() {
      DueIsPickedUp(db, j, x.reached, x.now, x.minAge, x.later);
    } else {
      EndedStays(db, e, j);
      EndedStays(Step(db, e), f, j);
    }
  }

  lemma {:induction false} RoundProgress(db: Db, j: Id, x: Round)
    requires Inv(db) && j in db.jobs && FairRound(db, j, x)
    ensures var db' := Run(db, RoundEvents(db, j, x));
            && Inv(db') && j in db'.jobs
            && (Remaining(db'.jobs[j]) < Remaining(db.jobs[j]) || !db'.jobs[j].Active())
  {
    var e, f := Reconciles(x.reached, x.now, x.minAge), Claims(db.jobs[j].receipt, x.attempt, x.later);
    var db1 := Run(db, x.events);
    RunAppends(db, x.events, [e, f]);
    TwoEvents(db1, e, f);
    RunKeeps(db, RoundEvents(db, j, x));
    RunKeeps(db, x.events);
    KeepsReceipt(db, x.events, j);
    JobsEnd(db, x.events, j);
    assert JobOk(db1, j);
    PickedUp(db1, j, x);
  }

  /** Every job comes to an end: whatever becomes of its claims, be it completion, failure, loss of the worker or
      deletions, as many fair rounds as the job has attempts left end it. No job survives more of them than the maximum
      and one, and a receipt that still waits then has another job. */
  lemma {:induction false} EveryJobEnds(db: Db, j: Id, rounds: seq<Round>)
    requires Inv(db) && j in db.jobs && AllFair(db, j, rounds) && |rounds| >= Remaining(db.jobs[j])
    ensures var db' := AfterRounds(db, j, rounds);
            && Inv(db') && j in db'.jobs && !db'.jobs[j].Active()
            && var r := db'.jobs[j].receipt;
               r in db'.receipts && db'.receipts[r].user in db'.users && Waiting(db'.receipts[r].status) ==>
                 exists i :: i != j && i in ActiveJobs(db'.jobs, r)
    decreases |rounds|
  {
    assert JobOk(db, j);
    if rounds == [] {
      EndedIsAnswered(db, j);
    } else {
      var db1 := Run(db, RoundEvents(db, j, rounds[0]));
      RoundProgress(db, j, rounds[0]);
      EveryJobEnds(db1, j, rounds[1..]);
    }
  }

  // ---- How often a job can change ----

  /** Attempts left, then how far the job is from being claimed again. */
  function Rank(job: Job): int {
    if !job.Active() then 0
    else 3 * Remaining(job) + if job.status.InProcess? then 2 else if job.status.Pending? then 1 else 0
  }

  /** A failure reported by an attempt that has already reported one: the job is no longer in its hands. */
  ghost predicate ReportsAgain(db: Db, e: Event, j: Id) {
    e.Fails? && AttemptJob(db, e.r, e.attempt) == Some(j) && j in db.jobs && !db.jobs[j].status.InProcess?
  }

  /** Every event leaves a job alone or lowers its rank, unless an attempt reports its failure twice. */
  lemma {:induction false} StepDescends(db: Db, e: Event, j: Id)
    requires Inv(db) && Valid(db, e) && j in db.jobs && !ReportsAgain(db, e, j)
    ensures j in Step(db, e).jobs
    ensures Step(db, e).jobs[j] == db.jobs[j] || 0 <= Rank(Step(db, e).jobs[j]) < Rank(db.jobs[j])
  {
    assert JobOk(db, j);
    if e.Claims? && ActiveJobs(db.jobs, e.r) != {} { assert JobOk(db, ActiveJob(db, e.r).value); }
  }

  ghost function JobChanges(db: Db, events: seq<Event>, j: Id): nat
    decreases |events|
  {
    if events == [] then 0
    else
      var db1 := Step(db, events[0]);
      (if j in db.jobs && j in db1.jobs && db1.jobs[j] != db.jobs[j] then 1 else 0) + JobChanges(db1, events[1..], j)
  }

  ghost predicate ReportsOnce(db: Db, events: seq<Event>, j: Id)
    decreases |events|
  {
    events != [] ==> !ReportsAgain(db, events[0], j) && ReportsOnce(Step(db, events[0]), events[1..], j)
  }

  /** If no attempt reports a failure twice, a job changes at most as often as its rank says, in any run. */
  lemma {:induction false} FewChanges(db: Db, events: seq<Event>, j: Id)
    requires Inv(db) && ValidRun(db, events) && j in db.jobs && ReportsOnce(db, events, j)
    ensures j in Run(db, events).jobs
    ensures 0 <= Rank(Run(db, events).jobs[j]) && JobChanges(db, events, j) + Rank(Run(db, events).jobs[j]) <= Rank(db.jobs[j])
    decreases |events|
  {
    assert JobOk(db, j);
    if events != [] {
      StepDescends(db, events[0], j);
      StepKeeps(db, events[0]);
      FewChanges(Step(db, events[0]), events[1..], j);
    }
  }
}
