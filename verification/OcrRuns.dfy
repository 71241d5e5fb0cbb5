/** Runs of the OCR outbox: uploads, deliveries, reconciliations, workers that come back late, retries,
    confirmations and deletions, in any order. */
module OcrRuns {
  import opened Basics
  import opened ReceiptStatus
  import opened OcrOutbox

  datatype Event =
    | Uploads(user: Id, r: Id, job: Id, now: int)
    | Publishes(r: Id, delivered: bool, now: int)
    | Reconciles(reached: set<Id>, now: int, minAge: int)
    | Claims(r: Id, attempt: Id, now: int)
    | Completes(r: Id, attempt: Id)
    | Fails(r: Id, attempt: Id, code: ErrorCode, permanent: bool)
    | EnqueuesMissing(r: Id, job: Id, now: int)
    | Retries(r: Id, image: bool, job: Id, now: int)
    | Confirms(r: Id)
    | DeletesReceipt(r: Id)
    | DeletesAccount(user: Id)

  /** Drawn ids are new. */
  ghost predicate Valid(db: Db, e: Event) {
    match e
    case Uploads(user, r, job, _) =>
      job !in db.jobs && r !in db.receipts && forall j :: j in db.jobs ==> db.jobs[j].receipt != r
    case Claims(_, attempt, _) => attempt !in db.attempts
    case EnqueuesMissing(_, job, _) => job !in db.jobs
    case Retries(_, _, job, _) => job !in db.jobs
    case _ => true
  }

  ghost function Step(db: Db, e: Event): Db {
    match e
    case Uploads(user, r, job, now) => Upload(db, user, r, job, now)
    case Publishes(r, delivered, now) => Publish(db, r, delivered, now)
    case Reconciles(reached, now, minAge) => Reconcile(db, reached, now, minAge)
    case Claims(r, attempt, now) => Claim(db, r, attempt, now).0
    case Completes(r, attempt) => Complete(db, r, attempt)
    case Fails(r, attempt, code, permanent) => Fail(db, r, attempt, code, permanent)
    case EnqueuesMissing(r, job, now) => EnqueueMissing(db, r, job, now)
    case Retries(r, image, job, now) => Retry(db, r, image, job, now)
    case Confirms(r) => ConfirmReceipt(db, r)
    case DeletesReceipt(r) => db.(receipts := db.receipts - {r})
    case DeletesAccount(user) => db.(users := db.users - {user})
  }

  ghost function Run(db: Db, events: seq<Event>): Db
    decreases |events|
  {
    if events == [] then db else Run(Step(db, events[0]), events[1..])
  }

  ghost predicate ValidRun(db: Db, events: seq<Event>)
    decreases |events|
  {
    events != [] ==> Valid(db, events[0]) && ValidRun(Step(db, events[0]), events[1..])
  }

  // ---- The invariant ----

  predicate Waiting(status: Status) {
    status.Uploaded? || status.Processing?
  }

  ghost predicate One(db: Db, r: Id) {
    forall i, j :: i in ActiveJobs(db.jobs, r) && j in ActiveJobs(db.jobs, r) ==> i == j
  }

  /** The attempts are bounded, and each status has the time that will get the job picked up again. */
  predicate Timely(job: Job) {
    && job.count <= MAX_ATTEMPTS
    && (job.status.Published? ==> job.published.Some?)
    && (job.status.InProcess? ==> job.lease.Some? && job.attempt.Some?)
  }

  /** A receipt with an active job is waiting, and both belong to one account. */
  ghost predicate JobOk(db: Db, j: Id)
    requires j in db.jobs
  {
    var job := db.jobs[j];
    && Timely(job) && (job.attempt.Some? ==> job.attempt.value in db.attempts)
    && (job.Active() && job.receipt in db.receipts ==>
          Waiting(db.receipts[job.receipt].status) && db.receipts[job.receipt].user == job.user)
  }

  /** A waiting receipt of a live account has a job. */
  ghost predicate Served(db: Db, r: Id) {
    r in db.receipts && db.receipts[r].user in db.users && Waiting(db.receipts[r].status) ==> ActiveJobs(db.jobs, r) != {}
  }

  ghost predicate Inv(db: Db) {
    && (forall r :: One(db, r))
    && (forall j :: j in db.jobs ==> JobOk(db, j))
    && (forall r :: Served(db, r))
  }

  lemma {:induction false} ActiveJobIs(db: Db, r: Id, j: Id)
    requires One(db, r) && j in ActiveJobs(db.jobs, r)
    ensures ActiveJob(db, r) == Some(j)
  {
  }

  // ---- One job moves ----

  /** `db'` is `db` with job `j` and the status of its receipt changed. */
  ghost predicate Moves(db: Db, db': Db, j: Id) {
    && j in db.jobs && j in db'.jobs && db'.jobs == db.jobs[j := db'.jobs[j]]
    && db.jobs[j].Active() && db'.jobs[j].receipt == db.jobs[j].receipt && db'.jobs[j].user == db.jobs[j].user
    && db'.users == db.users && db.attempts <= db'.attempts
    && var r := db.jobs[j].receipt;
       if r in db.receipts then r in db'.receipts && db'.receipts == db.receipts[r := db.receipts[r].(status := db'.receipts[r].status)]
       else db'.receipts == db.receipts
  }

  /** The job stays active with its receipt waiting, or both are done with, or there is nobody to serve. */
  ghost predicate Settles(db: Db, job: Job) {
    && Timely(job) && (job.attempt.Some? ==> job.attempt.value in db.attempts)
    && (job.receipt in db.receipts ==>
          if job.Active() then Waiting(db.receipts[job.receipt].status)
          else job.user !in db.users || !Waiting(db.receipts[job.receipt].status))
  }

  lemma {:induction false} ActiveAfterMove(db: Db, db': Db, j: Id, r: Id)
    requires Moves(db, db', j)
    ensures ActiveJobs(db'.jobs, r) <= ActiveJobs(db.jobs, r)
    ensures forall i :: i in ActiveJobs(db.jobs, r) && (i != j || db'.jobs[j].Active()) ==> i in ActiveJobs(db'.jobs, r)
  {
  }

  lemma {:induction false} MoveKeepsJob(db: Db, db': Db, j: Id, i: Id)
    requires Inv(db) && Moves(db, db', j) && Settles(db', db'.jobs[j]) && i in db.jobs
    ensures JobOk(db', i)
  {
    var r := db.jobs[j].receipt;
    assert JobOk(db, i) && JobOk(db, j);
    if i != j && db.jobs[i].Active() && db.jobs[i].receipt == r {
      assert One(db, r);
      assert i in ActiveJobs(db.jobs, r) && j in ActiveJobs(db.jobs, r);
    }
  }

  lemma {:induction false} MoveKeepsServed(db: Db, db': Db, j: Id, r: Id)
    requires Inv(db) && Moves(db, db', j) && Settles(db', db'.jobs[j])
    ensures Served(db', r)
  {
    ActiveAfterMove(db, db', j, r);
    assert Served(db, r) && JobOk(db, j);
    if r == db.jobs[j].receipt {
      assert j in ActiveJobs(db.jobs, r);
    } else if ActiveJobs(db.jobs, r) != {} {
      var i :| i in ActiveJobs(db.jobs, r);
      assert i in ActiveJobs(db'.jobs, r);
    }
  }

  lemma {:induction false} MoveKeeps(db: Db, db': Db, j: Id)
    requires Inv(db) && Moves(db, db', j) && Settles(db', db'.jobs[j])
    ensures Inv(db')
  {
    forall r ensures One(db', r) { ActiveAfterMove(db, db', j, r); assert One(db, r); }
    forall i | i in db'.jobs ensures JobOk(db', i) { MoveKeepsJob(db, db', j, i); }
    forall r ensures Served(db', r) { MoveKeepsServed(db, db', j, r); }
  }

  lemma {:induction false} ClaimKeeps(db: Db, r: Id, attempt: Id, now: int)
    requires Inv(db)
    ensures Inv(Claim(db, r, attempt, now).0)
  {
    if ActiveJobs(db.jobs, r) != {} {
      var j := ActiveJob(db, r).value;
      assert JobOk(db, j);
      if !Leased(db.jobs[j], now) { MoveKeeps(db, ClaimJob(db, j, attempt, now).0, j); }
    }
  }

  lemma {:induction false} CompleteKeeps(db: Db, r: Id, attempt: Id)
    requires Inv(db)
    ensures Inv(Complete(db, r, attempt))
  {
    if AttemptJob(db, r, attempt).Some? {
      var j := AttemptJob(db, r, attempt).value;
      assert JobOk(db, j);
      if CompleteJob(db, j) != db { MoveKeeps(db, CompleteJob(db, j), j); }
    }
  }

  lemma {:induction false} FailSettles(db: Db, j: Id, code: ErrorCode, permanent: bool)
    requires j in db.jobs && JobOk(db, j) && db.jobs[j].Active()
    ensures Moves(db, FailJob(db, j, code, permanent), j)
    ensures Settles(FailJob(db, j, code, permanent), FailJob(db, j, code, permanent).jobs[j])
  {
  }

  lemma {:induction false} FailKeeps(db: Db, r: Id, attempt: Id, code: ErrorCode, permanent: bool)
    requires Inv(db)
    ensures Inv(Fail(db, r, attempt, code, permanent))
  {
    if AttemptJob(db, r, attempt).Some? {
      var j := AttemptJob(db, r, attempt).value;
      FailSettles(db, j, code, permanent);
      MoveKeeps(db, FailJob(db, j, code, permanent), j);
    }
  }

  lemma {:induction false} PublishKeeps(db: Db, r: Id, delivered: bool, now: int)
    requires Inv(db)
    ensures Inv(Publish(db, r, delivered, now))
  {
    if ActiveJobs(db.jobs, r) != {} && delivered {
      var j := ActiveJob(db, r).value;
      assert JobOk(db, j);
      MoveKeeps(db, Publish(db, r, delivered, now), j);
    }
  }

  lemma {:induction false} ReconcileKeeps(db: Db, delivered: set<Id>, now: int, minAge: int)
    requires Inv(db)
    ensures Inv(Reconcile(db, delivered, now, minAge))
  {
    var db' := Reconcile(db, delivered, now, minAge);
    forall r ensures ActiveJobs(db'.jobs, r) == ActiveJobs(db.jobs, r) { }
    forall r ensures One(db', r) && Served(db', r) { assert One(db, r) && Served(db, r); }
    forall j | j in db'.jobs ensures JobOk(db', j) { assert JobOk(db, j); }
  }

  // ---- A receipt gets a job ----

  /** Everything but `r`, which waits for a job, is as the invariant says. */
  ghost predicate InvExcept(db: Db, r: Id) {
    && (forall x :: One(db, x))
    && (forall j :: j in db.jobs ==> JobOk(db, j))
    && (forall x :: x != r ==> Served(db, x))
  }

  lemma {:induction false} EnqueueKeeps(db: Db, r: Id, id: Id, now: int)
    requires InvExcept(db, r) && r in db.receipts && Waiting(db.receipts[r].status) && id !in db.jobs
    ensures Inv(Enqueue(db, db.receipts[r].user, r, id, now))
  {
    var db' := Enqueue(db, db.receipts[r].user, r, id, now);
    forall x ensures One(db', x) && Served(db', x) {
      assert One(db, x) && (x != r ==> Served(db, x));
      assert ActiveJobs(db'.jobs, x) == if db' != db && x == r then {id} else ActiveJobs(db.jobs, x);
    }
    forall j | j in db'.jobs ensures JobOk(db', j) {
      if j in db.jobs { assert JobOk(db, j); }
    }
  }

  lemma {:induction false} UploadKeeps(db: Db, user: Id, r: Id, id: Id, now: int)
    requires Inv(db) && Valid(db, Uploads(user, r, id, now))
    ensures Inv(Upload(db, user, r, id, now))
  {
    var db1 := db.(receipts := db.receipts[r := ReceiptRow(user, Uploaded)]);
    forall x ensures One(db1, x) && (x != r ==> Served(db1, x)) { assert One(db, x) && Served(db, x); }
    forall j | j in db1.jobs ensures JobOk(db1, j) { assert JobOk(db, j); }
    EnqueueKeeps(db1, r, id, now);
  }

  lemma {:induction false} RetryKeeps(db: Db, r: Id, image: bool, id: Id, now: int)
    requires Inv(db) && id !in db.jobs
    ensures Inv(Retry(db, r, image, id, now))
  {
    if r in db.receipts && db.receipts[r].status.Failed? {
      var db1 := WithStatus(db, r, Uploaded);
      forall x ensures One(db1, x) && (x != r ==> Served(db1, x)) { assert One(db, x) && Served(db, x); }
      forall j | j in db1.jobs ensures JobOk(db1, j) { assert JobOk(db, j); }
      EnqueueKeeps(db1, r, id, now);
    }
  }

  lemma {:induction false} OtherKeeps(db: Db, e: Event)
    requires Inv(db) && (e.Confirms? || e.DeletesReceipt? || e.DeletesAccount?)
    ensures Inv(Step(db, e))
  {
    var db' := Step(db, e);
    forall r ensures One(db', r) && Served(db', r) { assert One(db, r) && Served(db, r); }
    forall j | j in db'.jobs ensures JobOk(db', j) { assert JobOk(db, j); }
  }

  lemma {:induction false} StepKeeps(db: Db, e: Event)
    requires Inv(db) && Valid(db, e)
    ensures Inv(Step(db, e))
  {
    match e
    case Uploads(user, r, job, now) => UploadKeeps(db, user, r, job, now);
    case Publishes(r, delivered, now) => PublishKeeps(db, r, delivered, now);
    case Reconciles(reached, now, minAge) => ReconcileKeeps(db, reached, now, minAge);
    case Claims(r, attempt, now) => ClaimKeeps(db, r, attempt, now);
    case Completes(r, attempt) => CompleteKeeps(db, r, attempt);
    case Fails(r, attempt, code, permanent) => FailKeeps(db, r, attempt, code, permanent);
    case EnqueuesMissing(r, job, now) => if ShouldEnqueueMissing(db, r) { EnqueueKeeps(db, r, job, now); }
    case Retries(r, image, job, now) => RetryKeeps(db, r, image, job, now);
    case Confirms(_) => OtherKeeps(db, e);
    case DeletesReceipt(_) => OtherKeeps(db, e);
    case DeletesAccount(_) => OtherKeeps(db, e);
  }

  lemma {:induction false} RunKeeps(db: Db, events: seq<Event>)
    requires Inv(db) && ValidRun(db, events)
    ensures Inv(Run(db, events))
    decreases |events|
  {
    if events != [] {
      StepKeeps(db, events[0]);
      RunKeeps(Step(db, events[0]), events[1..]);
    }
  }

  lemma {:induction false} EmptyOutbox(users: set<Id>)
    ensures Inv(Db(map[], map[], users, {}))
  {
    var db := Db(map[], map[], users, {});
    forall r ensures One(db, r) && Served(db, r) { assert ActiveJobs(db.jobs, r) == {}; }
  }
}
