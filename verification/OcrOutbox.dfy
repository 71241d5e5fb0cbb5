/** The OCR job outbox as a value: a job and its receipt move together, and an attempt id fences off
    workers that lost their lease. */
module OcrOutbox {
  import opened Basics
  import opened ReceiptStatus

  const MAX_ATTEMPTS: nat := 5
  const LEASE_SECONDS: int := 300

  datatype JobStatus = Pending | Published | InProcess | Done | FailedPermanent

  datatype ErrorCode = AccountDeleted | ReceiptMissing | MaxAttempts | EmptyOcr | StorageError | OcrFailed

  datatype Job = Job(
    user: Id, receipt: Id, status: JobStatus, attempt: Option<Id>, lease: Option<int>, count: nat,
    error: Option<ErrorCode>, created: int, published: Option<int>)
  {
    predicate Active() { !status.Done? && !status.FailedPermanent? }
  }

  datatype ReceiptRow = ReceiptRow(user: Id, status: Status)

  /** `attempts` are all attempt ids drawn so far; `users` the accounts that are not deleted. */
  datatype Db = Db(jobs: map<Id, Job>, receipts: map<Id, ReceiptRow>, users: set<Id>, attempts: set<Id>)

  // ---- Finding a job ----

  function ActiveJobs(jobs: map<Id, Job>, r: Id): set<Id> {
    set j | j in jobs && jobs[j].receipt == r && jobs[j].Active()
  }

  ghost function ActiveJob(db: Db, r: Id): Option<Id> {
    if ActiveJobs(db.jobs, r) == {} then None else var j :| j in ActiveJobs(db.jobs, r); Some(j)
  }

  /** The active job, if its current attempt is `a`. */
  ghost function AttemptJob(db: Db, r: Id, a: Id): Option<Id> {
    var j := ActiveJob(db, r);
    if j.Some? && j.value in db.jobs && db.jobs[j.value].attempt == Some(a) then j else None
  }

  function WithJob(db: Db, j: Id, job: Job): Db {
    db.(jobs := db.jobs[j := job])
  }

  /** The receipt's status, if the receipt still exists. */
  function WithStatus(db: Db, r: Id, status: Status): Db {
    if r in db.receipts then db.(receipts := db.receipts[r := db.receipts[r].(status := status)]) else db
  }

  // ---- Enqueue and publish ----

  function NewJob(user: Id, r: Id, now: int): Job {
    Job(user, r, Pending, None, None, 0, None, now, None)
  }

  ghost function Enqueue(db: Db, user: Id, r: Id, id: Id, now: int): Db {
    if ActiveJobs(db.jobs, r) != {} then db else WithJob(db, id, NewJob(user, r, now))
  }

  /** A delivery the broker took; only a pending job is marked. */
  function PublishedJob(job: Job, now: int): Job {
    if job.status.Pending? then job.(status := Published, published := Some(now)) else job
  }

  ghost function Publish(db: Db, r: Id, delivered: bool, now: int): Db {
    match ActiveJob(db, r)
    case Some(j) => if delivered && j in db.jobs then WithJob(db, j, PublishedJob(db.jobs[j], now)) else db
    case None => db
  }

  /** What one reconciliation picks up. */
  predicate Overdue(job: Job, now: int, minAge: int) {
    match job.status
    case Pending => minAge <= 0 || job.created <= now - minAge
    case Published => minAge <= 0 || (job.published.Some? && job.published.value <= now - minAge)
    case InProcess => job.lease.Some? && job.lease.value <= now
    case _ => false
  }

  function OverdueJobs(jobs: map<Id, Job>, now: int, minAge: int): set<Id> {
    set j | j in jobs && Overdue(jobs[j], now, minAge)
  }

  /** The jobs with those in `done` published. */
  function PublishedJobs(jobs: map<Id, Job>, done: set<Id>, now: int): map<Id, Job> {
    map j | j in jobs :: if j in done then PublishedJob(jobs[j], now) else jobs[j]
  }

  function Reconcile(db: Db, delivered: set<Id>, now: int, minAge: int): Db {
    db.(jobs := PublishedJobs(db.jobs, OverdueJobs(db.jobs, now, minAge) * delivered, now))
  }

  // ---- Claim, complete and fail ----

  function Ended(job: Job, status: JobStatus, error: Option<ErrorCode>): Job {
    job.(status := status, error := if error.Some? then error else job.error)
  }

  predicate Leased(job: Job, now: int) {
    job.status.InProcess? && job.lease.Some? && job.lease.value > now
  }

  function Claimed(job: Job, attempt: Id, now: int): Job {
    job.(status := InProcess, attempt := Some(attempt), lease := Some(now + LEASE_SECONDS), count := job.count + 1)
  }

  /** What claiming job `j` does, and whether the worker got it. */
  function ClaimJob(db: Db, j: Id, attempt: Id, now: int): (Db, bool)
    requires j in db.jobs
  {
    var job := db.jobs[j];
    if Leased(job, now) then (db, false)
    else if job.user !in db.users then (WithJob(db, j, Ended(job, FailedPermanent, Some(AccountDeleted))), false)
    else if job.receipt !in db.receipts then (WithJob(db, j, Ended(job, FailedPermanent, Some(ReceiptMissing))), false)
    else if db.receipts[job.receipt].status.ReadyForReview? || db.receipts[job.receipt].status.Confirmed? then
      (WithJob(db, j, Ended(job, Done, None)), false)
    else if job.count >= MAX_ATTEMPTS then
      (WithStatus(WithJob(db, j, Ended(job, FailedPermanent, Some(MaxAttempts))), job.receipt, Failed), false)
    else
      (WithStatus(WithJob(db, j, Claimed(job, attempt, now)), job.receipt, Processing).(attempts := db.attempts + {attempt}), true)
  }

  ghost function Claim(db: Db, r: Id, attempt: Id, now: int): (Db, bool) {
    match ActiveJob(db, r)
    case Some(j) => if j in db.jobs then ClaimJob(db, j, attempt, now) else (db, false)
    case None => (db, false)
  }

  /** The result is stored with the receipt; without a receipt nothing is committed at all. */
  function CompleteJob(db: Db, j: Id): Db
    requires j in db.jobs
  {
    var job := db.jobs[j];
    if job.user !in db.users then WithJob(db, j, Ended(job, FailedPermanent, Some(AccountDeleted)))
    else if job.receipt !in db.receipts then db
    else WithStatus(WithJob(db, j, Ended(job, Done, None)), job.receipt, ReadyForReview)
  }

  ghost function Complete(db: Db, r: Id, attempt: Id): Db {
    match AttemptJob(db, r, attempt)
    case Some(j) => if j in db.jobs then CompleteJob(db, j) else db
    case None => db
  }

  function FailJob(db: Db, j: Id, code: ErrorCode, permanent: bool): Db
    requires j in db.jobs
  {
    var job := db.jobs[j];
    if permanent || job.count >= MAX_ATTEMPTS then
      WithStatus(WithJob(db, j, Ended(job, FailedPermanent, Some(code))), job.receipt, Failed)
    else
      var db1 := WithJob(db, j, Ended(job, Pending, Some(code)).(lease := None));
      if job.receipt in db.receipts && db.receipts[job.receipt].status.Processing? then WithStatus(db1, job.receipt, Uploaded) else db1
  }

  ghost function Fail(db: Db, r: Id, attempt: Id, code: ErrorCode, permanent: bool): Db {
    match AttemptJob(db, r, attempt)
    case Some(j) => if j in db.jobs then FailJob(db, j, code, permanent) else db
    case None => db
  }

  // ---- Around the worker ----

  /** A waiting receipt of a live account that never got a job. */
  ghost predicate ShouldEnqueueMissing(db: Db, r: Id) {
    && r in db.receipts && db.receipts[r].status.Uploaded? && db.receipts[r].user in db.users
    && forall j :: j in db.jobs ==> db.jobs[j].receipt != r
  }

  ghost function EnqueueMissing(db: Db, r: Id, id: Id, now: int): Db {
    if ShouldEnqueueMissing(db, r) then Enqueue(db, db.receipts[r].user, r, id, now) else db
  }

  ghost function Upload(db: Db, user: Id, r: Id, id: Id, now: int): Db {
    Enqueue(db.(receipts := db.receipts[r := ReceiptRow(user, Uploaded)]), user, r, id, now)
  }

  /** `image` says whether the stored image of the receipt is still there. */
  ghost function Retry(db: Db, r: Id, image: bool, id: Id, now: int): Db {
    if r in db.receipts && db.receipts[r].status.Failed? && image
    then Enqueue(WithStatus(db, r, Uploaded), db.receipts[r].user, r, id, now) else db
  }

  function ConfirmReceipt(db: Db, r: Id): Db {
    if r in db.receipts && db.receipts[r].status.ReadyForReview? then WithStatus(db, r, Confirmed) else db
  }
}
