/** What each call of the OCR outbox answers and writes, in the terms of the tables alone, and how long a claim keeps
    other workers away. */
module OcrAnswers {
  import opened Basics
  import opened ReceiptStatus
  import opened OcrOutbox
  import opened OcrRuns

  // ---- Rows before and after ----

  /** A job of the receipt that has not ended. */
  ghost predicate IsOpen(db: Db, j: Id, r: Id) {
    j in db.jobs && db.jobs[j].receipt == r && (db.jobs[j].status.Pending? || db.jobs[j].status.Published? || db.jobs[j].status.InProcess?)
  }

  ghost predicate OnlyJob(db: Db, db': Db, j: Id) {
    j in db'.jobs && db'.jobs == db.jobs[j := db'.jobs[j]] && db'.users == db.users
  }

  /** The receipt, if it is there, has the new status; nothing else about receipts changes. */
  ghost predicate ReceiptBecomes(db: Db, db': Db, r: Id, status: Status) {
    if r in db.receipts then db'.receipts == db.receipts[r := ReceiptRow(db.receipts[r].user, status)] else db'.receipts == db.receipts
  }

  /** Whose job it is and when it was queued; no call changes that. */
  ghost predicate SameJob(job: Job, job': Job) {
    job'.user == job.user && job'.receipt == job.receipt && job'.created == job.created && job'.published == job.published
  }

  /** The job has another status, and another error code if there is a new one. */
  ghost predicate Moved(job: Job, job': Job, status: JobStatus, error: Option<ErrorCode>) {
    && SameJob(job, job') && job'.status == status && job'.error == (if error.Some? then error else job.error)
    && job'.attempt == job.attempt && job'.lease == job.lease && job'.count == job.count
  }

  ghost predicate IsNewJob(job: Job, user: Id, r: Id, now: int) {
    && job.user == user && job.receipt == r && job.status.Pending? && job.attempt.None? && job.lease.None? && job.count == 0
    && job.error.None? && job.created == now && job.published.None?
  }

  lemma {:induction false} OpenIsActive(db: Db, r: Id, j: Id)
    requires One(db, r)
    ensures IsOpen(db, j, r) <==> ActiveJob(db, r) == Some(j)
  {
    if ActiveJobs(db.jobs, r) != {} {
      var i := ActiveJob(db, r).value;
      assert i in ActiveJobs(db.jobs, r) && IsOpen(db, i, r);
    }
    if IsOpen(db, j, r) { assert j in ActiveJobs(db.jobs, r); }
  }

  // ---- Claims ----

  /** The worker gets the job: a new attempt of five minutes. */
  ghost predicate IsClaimed(job: Job, job': Job, attempt: Id, now: int) {
    && SameJob(job, job') && job'.status.InProcess? && job'.error == job.error
    && job'.attempt == Some(attempt) && job'.lease == Some(now + 300) && job'.count == job.count + 1
  }

  /** A claim that finds the job free: the first thing that stands in its way ends the job, or the worker gets it. */
  ghost predicate FreeClaimed(db: Db, db': Db, got: bool, j: Id, r: Id, attempt: Id, now: int)
    requires j in db.jobs
  {
    var job := db.jobs[j];
    OnlyJob(db, db', j) && var job' := db'.jobs[j];
    if job.user !in db.users then
      !got && Moved(job, job', FailedPermanent, Some(AccountDeleted)) && db'.receipts == db.receipts && db'.attempts == db.attempts
    else if r !in db.receipts then
      !got && Moved(job, job', FailedPermanent, Some(ReceiptMissing)) && db'.receipts == db.receipts && db'.attempts == db.attempts
    else if db.receipts[r].status.ReadyForReview? || db.receipts[r].status.Confirmed? then
      !got && Moved(job, job', Done, None) && db'.receipts == db.receipts && db'.attempts == db.attempts
    else if job.count >= 5 then
      && !got && Moved(job, job', FailedPermanent, Some(MaxAttempts)) && ReceiptBecomes(db, db', r, Failed)
      && db'.attempts == db.attempts
    else
      && got && IsClaimed(job, job', attempt, now) && ReceiptBecomes(db, db', r, Processing)
      && db'.attempts == db.attempts + {attempt}
  }

  /** A claim is turned away while the job's lease runs, and otherwise decides what becomes of the job. */
  lemma {:induction false} ClaimAnswers(db: Db, r: Id, attempt: Id, now: int)
    requires One(db, r)
    ensures var (db', got) := Claim(db, r, attempt, now);
            && ((forall j :: !IsOpen(db, j, r)) ==> db' == db && !got)
            && forall j :: IsOpen(db, j, r) ==>
                 if db.jobs[j].status.InProcess? && db.jobs[j].lease.Some? && now < db.jobs[j].lease.value then db' == db && !got
                 else FreeClaimed(db, db', got, j, r, attempt, now)
  {
    if ActiveJobs(db.jobs, r) != {} { OpenIsActive(db, r, ActiveJob(db, r).value); }
    forall j | IsOpen(db, j, r) ensures ActiveJob(db, r) == Some(j) { OpenIsActive(db, r, j); }
  }

  // ---- How long a claim lasts ----

  /** Nothing the attempt itself reports, and every claim of the receipt comes before `until`. */
  ghost predicate LeavesAlone(e: Event, r: Id, a: Id, until: int) {
    && !(e.Completes? && e.r == r && e.attempt == a) && !(e.Fails? && e.r == r && e.attempt == a)
    && (e.Claims? && e.r == r ==> e.now < until)
  }

  ghost predicate InHand(db: Db, j: Id, r: Id, a: Id, job: Job, until: int) {
    && j in db.jobs && db.jobs[j] == job && job.receipt == r
    && job.status.InProcess? && job.attempt == Some(a) && job.lease == Some(until)
  }

  lemma {:induction false} InHandStep(db: Db, e: Event, j: Id, r: Id, a: Id, job: Job, until: int)
    requires Inv(db) && Valid(db, e) && InHand(db, j, r, a, job, until) && LeavesAlone(e, r, a, until)
    ensures InHand(Step(db, e), j, r, a, job, until)
  {
    assert One(db, r) && IsOpen(db, j, r);
    OpenIsActive(db, r, j);
    if e.Claims? {
      assert One(db, e.r);
      ClaimAnswers(db, e.r, e.attempt, e.now);
      if ActiveJobs(db.jobs, e.r) != {} { OpenIsActive(db, e.r, ActiveJob(db, e.r).value); }
    }
  }

  lemma {:induction false} InHandRun(db: Db, events: seq<Event>, j: Id, r: Id, a: Id, job: Job, until: int)
    requires Inv(db) && ValidRun(db, events) && InHand(db, j, r, a, job, until)
    requires forall i :: 0 <= i < |events| ==> LeavesAlone(events[i], r, a, until)
    ensures Inv(Run(db, events)) && InHand(Run(db, events), j, r, a, job, until)
    decreases |events|
  {
    if events != [] {
      StepKeeps(db, events[0]);
      InHandStep(db, events[0], j, r, a, job, until);
      InHandRun(Step(db, events[0]), events[1..], j, r, a, job, until);
    }
  }

  lemma {:induction false} ClaimedIsInHand(db: Db, r: Id, a: Id, t: int, j: Id)
    requires One(db, r) && IsOpen(db, j, r) && Claim(db, r, a, t).1
    ensures var claimed := Claim(db, r, a, t).0;
            InHand(claimed, j, r, a, claimed.jobs[j], t + 300) && claimed.jobs[j].count == db.jobs[j].count + 1
  {
    ClaimAnswers(db, r, a, t);
  }

  lemma {:induction false} HeldClaim(db: Db, r: Id, a: Id, j: Id, job: Job, until: int, attempt: Id, now: int)
    requires One(db, r) && j in db.jobs && JobOk(db, j) && InHand(db, j, r, a, job, until)
    ensures now < until ==> Claim(db, r, attempt, now) == (db, false)
    ensures until <= now ==>
              && FreeClaimed(db, Claim(db, r, attempt, now).0, Claim(db, r, attempt, now).1, j, r, attempt, now)
              && (Claim(db, r, attempt, now).1 <==> job.user in db.users && r in db.receipts && job.count < 5)
  {
    assert IsOpen(db, j, r);
    ClaimAnswers(db, r, attempt, now);
  }

  /** A claim that succeeded at `t` keeps every other claim of the receipt away for five minutes, in any run in which the
      attempt does not report; whoever is deleted meanwhile, those claims change nothing. From then on a claim gets the
      job exactly if the account and the receipt are still there and an attempt is left, and otherwise ends it. */
  lemma {:induction false} LeaseHolds(db: Db, r: Id, a: Id, t: int, j: Id, events: seq<Event>, attempt: Id, now: int)
    requires Inv(db) && Valid(db, Claims(r, a, t)) && IsOpen(db, j, r) && Claim(db, r, a, t).1
    requires ValidRun(Claim(db, r, a, t).0, events)
    requires forall i :: 0 <= i < |events| ==> LeavesAlone(events[i], r, a, t + 300)
    ensures var claimed := Claim(db, r, a, t).0;
            var later := Run(claimed, events);
            && IsOpen(later, j, r) && later.jobs[j] == claimed.jobs[j] && claimed.jobs[j].count == db.jobs[j].count + 1
            && (now < t + 300 ==> Claim(later, r, attempt, now) == (later, false))
            && (t + 300 <= now ==>
                  && FreeClaimed(later, Claim(later, r, attempt, now).0, Claim(later, r, attempt, now).1, j, r, attempt, now)
                  && (Claim(later, r, attempt, now).1 <==>
                        later.jobs[j].user in later.users && r in later.receipts && db.jobs[j].count < 4))
  {
    var claimed := Claim(db, r, a, t).0;
    var later := Run(claimed, events);
    assert One(db, r);
    ClaimedIsInHand(db, r, a, t, j);
    StepKeeps(db, Claims(r, a, t));
    InHandRun(claimed, events, j, r, a, claimed.jobs[j], t + 300);
    assert One(later, r) && JobOk(later, j) && IsOpen(later, j, r);
    HeldClaim(later, r, a, j, claimed.jobs[j], t + 300, attempt, now);
  }

  // ---- Reports ----

  /** A completion ends the job with the receipt ready for review, unless the account or the receipt is gone. */
  ghost predicate Completed(db: Db, db': Db, j: Id, r: Id)
    requires j in db.jobs
  {
    if db.jobs[j].user in db.users && r !in db.receipts then db' == db
    else
      OnlyJob(db, db', j) && db'.attempts == db.attempts &&
      if db.jobs[j].user !in db.users then
        Moved(db.jobs[j], db'.jobs[j], FailedPermanent, Some(AccountDeleted)) && db'.receipts == db.receipts
      else
        Moved(db.jobs[j], db'.jobs[j], Done, None) && ReceiptBecomes(db, db', r, ReadyForReview)
  }

  lemma {:induction false} CompleteAnswers(db: Db, r: Id, attempt: Id)
    requires One(db, r)
    ensures var db' := Complete(db, r, attempt);
            && ((forall j :: IsOpen(db, j, r) ==> db.jobs[j].attempt != Some(attempt)) ==> db' == db)
            && forall j :: IsOpen(db, j, r) && db.jobs[j].attempt == Some(attempt) ==> Completed(db, db', j, r)
  {
    if ActiveJobs(db.jobs, r) != {} { OpenIsActive(db, r, ActiveJob(db, r).value); }
    forall j | IsOpen(db, j, r) ensures ActiveJob(db, r) == Some(j) { OpenIsActive(db, r, j); }
  }

  /** A failure ends the job and fails the receipt if it is permanent or was the fifth attempt; otherwise both wait again. */
  ghost predicate FailedOrWaits(db: Db, db': Db, j: Id, r: Id, code: ErrorCode, permanent: bool)
    requires j in db.jobs
  {
    OnlyJob(db, db', j) && db'.attempts == db.attempts &&
    var job, job' := db.jobs[j], db'.jobs[j];
    if permanent || job.count >= 5 then
      Moved(job, job', FailedPermanent, Some(code)) && ReceiptBecomes(db, db', r, Failed)
    else
      && SameJob(job, job') && job'.status.Pending? && job'.error == Some(code) && job'.lease.None?
      && job'.attempt == job.attempt && job'.count == job.count
      && if r in db.receipts && db.receipts[r].status.Processing? then ReceiptBecomes(db, db', r, Uploaded) else db'.receipts == db.receipts
  }

  lemma {:induction false} FailJobAnswers(db: Db, j: Id, r: Id, code: ErrorCode, permanent: bool)
    requires IsOpen(db, j, r)
    ensures FailedOrWaits(db, FailJob(db, j, code, permanent), j, r, code, permanent)
  {
  }

  lemma {:induction false} FailAnswers(db: Db, r: Id, attempt: Id, code: ErrorCode, permanent: bool)
    requires One(db, r)
    ensures (forall j :: IsOpen(db, j, r) ==> db.jobs[j].attempt != Some(attempt)) ==> Fail(db, r, attempt, code, permanent) == db
    ensures forall j :: IsOpen(db, j, r) && db.jobs[j].attempt == Some(attempt) ==>
              FailedOrWaits(db, Fail(db, r, attempt, code, permanent), j, r, code, permanent)
  {
    if ActiveJobs(db.jobs, r) != {} { OpenIsActive(db, r, ActiveJob(db, r).value); }
    forall j | IsOpen(db, j, r) && db.jobs[j].attempt == Some(attempt)
      ensures Fail(db, r, attempt, code, permanent) == FailJob(db, j, code, permanent)
      ensures FailedOrWaits(db, FailJob(db, j, code, permanent), j, r, code, permanent)
    {
      OpenIsActive(db, r, j);
      FailJobAnswers(db, j, r, code, permanent);
    }
  }

  // ---- Queueing and publishing ----

  /** An upload, a retry and the answer to a receipt without a job queue the same new job. */
  ghost predicate Queued(db: Db, db': Db, user: Id, r: Id, id: Id, now: int) {
    OnlyJob(db, db', id) && IsNewJob(db'.jobs[id], user, r, now) && db'.attempts == db.attempts
  }

  lemma {:induction false} UploadAnswers(db: Db, user: Id, r: Id, id: Id, now: int)
    requires Valid(db, Uploads(user, r, id, now))
    ensures var db' := Upload(db, user, r, id, now);
            Queued(db, db', user, r, id, now) && db'.receipts == db.receipts[r := ReceiptRow(user, Uploaded)]
  {
  }

  lemma {:induction false} NoneOpen(db: Db, r: Id)
    ensures (forall j :: !IsOpen(db, j, r)) <==> ActiveJobs(db.jobs, r) == {}
  {
    if ActiveJobs(db.jobs, r) != {} {
      var j :| j in ActiveJobs(db.jobs, r);
      assert IsOpen(db, j, r);
    }
    forall j | IsOpen(db, j, r) ensures j in ActiveJobs(db.jobs, r) {}
  }

  /** Only a failed receipt whose image is still there is retried; it waits again, with a new job unless one is open. */
  lemma {:induction false} RetryAnswers(db: Db, r: Id, image: bool, id: Id, now: int)
    ensures var db' := Retry(db, r, image, id, now);
            if r !in db.receipts || !db.receipts[r].status.Failed? || !image then db' == db
            else
              && ReceiptBecomes(db, db', r, Uploaded)
              && if forall j :: !IsOpen(db, j, r) then Queued(db, db', db.receipts[r].user, r, id, now)
                 else db'.jobs == db.jobs && db'.users == db.users && db'.attempts == db.attempts
  {
    NoneOpen(db, r);
  }

  lemma {:induction false} EnqueueMissingAnswers(db: Db, r: Id, id: Id, now: int)
    ensures var db' := EnqueueMissing(db, r, id, now);
            if r in db.receipts && db.receipts[r].status.Uploaded? && db.receipts[r].user in db.users && r !in ReceiptsWithJobs(db)
            then Queued(db, db', db.receipts[r].user, r, id, now) && db'.receipts == db.receipts
            else db' == db
  {
    if r !in ReceiptsWithJobs(db) {
      forall j | j in db.jobs ensures db.jobs[j].receipt != r { assert db.jobs[j].receipt in ReceiptsWithJobs(db); }
    }
  }

  ghost function ReceiptsWithJobs(db: Db): set<Id> {
    set j | j in db.jobs :: db.jobs[j].receipt
  }

  /** A pending job whose message the broker took is marked so; no other job is. */
  ghost predicate IsPublished(job: Job, job': Job, now: int) {
    && job'.user == job.user && job'.receipt == job.receipt && job'.created == job.created && job'.status.Published?
    && job'.published == Some(now) && job'.attempt == job.attempt && job'.lease == job.lease && job'.count == job.count
    && job'.error == job.error
  }

  lemma {:induction false} PublishAnswers(db: Db, r: Id, delivered: bool, now: int)
    requires One(db, r)
    ensures var db' := Publish(db, r, delivered, now);
            && db'.jobs.Keys == db.jobs.Keys && db'.receipts == db.receipts && db'.users == db.users && db'.attempts == db.attempts
            && forall j :: j in db.jobs ==>
                 if IsOpen(db, j, r) && delivered && db.jobs[j].status.Pending? then IsPublished(db.jobs[j], db'.jobs[j], now)
                 else db'.jobs[j] == db.jobs[j]
  {
    if ActiveJobs(db.jobs, r) != {} { OpenIsActive(db, r, ActiveJob(db, r).value); }
    forall j | IsOpen(db, j, r) ensures ActiveJob(db, r) == Some(j) { OpenIsActive(db, r, j); }
  }

  /** What a reconciliation sends again: jobs queued or published at least `minAge` seconds ago, all of them when it is not
      positive, and jobs in process whose lease has run out. */
  ghost predicate SentAgain(job: Job, now: int, minAge: int) {
    || (job.status.Pending? && (minAge <= 0 || job.created + minAge <= now))
    || (job.status.Published? && (minAge <= 0 || (job.published.Some? && job.published.value + minAge <= now)))
    || (job.status.InProcess? && job.lease.Some? && job.lease.value <= now)
  }

  lemma {:induction false} ReconcileAnswers(db: Db, delivered: set<Id>, now: int, minAge: int)
    ensures var db' := Reconcile(db, delivered, now, minAge);
            && db'.jobs.Keys == db.jobs.Keys && db'.receipts == db.receipts && db'.users == db.users && db'.attempts == db.attempts
            && forall j :: j in db.jobs ==>
                 && (j in OverdueJobs(db.jobs, now, minAge) <==> SentAgain(db.jobs[j], now, minAge))
                 && if SentAgain(db.jobs[j], now, minAge) && j in delivered && db.jobs[j].status.Pending?
                    then IsPublished(db.jobs[j], db'.jobs[j], now) else db'.jobs[j] == db.jobs[j]
  {
  }

  /** Only a receipt ready for review is confirmed. */
  lemma {:induction false} ConfirmAnswers(db: Db, r: Id)
    ensures var db' := ConfirmReceipt(db, r);
            && db'.jobs == db.jobs && db'.users == db.users && db'.attempts == db.attempts
            && if r in db.receipts && db.receipts[r].status.ReadyForReview? then ReceiptBecomes(db, db', r, Confirmed) else db' == db
  {
  }

  /** A deletion takes away its receipt, or its account, and nothing else. */
  lemma {:induction false} DeletionAnswers(db: Db, r: Id, user: Id)
    ensures var a, b := Step(db, DeletesReceipt(r)), Step(db, DeletesAccount(user));
            && r !in a.receipts && (forall x :: x != r ==> (x in a.receipts <==> x in db.receipts))
            && (forall x :: x in a.receipts ==> a.receipts[x] == db.receipts[x])
            && user !in b.users && (forall v :: v != user ==> (v in b.users <==> v in db.users))
            && a.jobs == db.jobs && a.users == db.users && b.jobs == db.jobs && b.receipts == db.receipts
  {
  }
}
