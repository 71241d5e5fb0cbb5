/** The outbox as it runs: rows are updated in place, one committed step at a time. */
module OcrWorker {
  import opened Basics
  import opened ReceiptStatus
  import O = OcrOutbox
  import opened OcrOutbox
  import opened OcrRuns

  lemma {:induction false} TakeOne(todo: set<Id>, reached: set<Id>, j: Id)
    requires j in todo
    ensures |todo * reached| == |(todo - {j}) * reached| + (if j in reached then 1 else 0)
  {
    if j in reached {
      assert todo * reached == (todo - {j}) * reached + {j};
    } else {
      assert todo * reached == (todo - {j}) * reached;
    }
  }

  class Outbox {
    var jobs: map<Id, Job>
    var receipts: map<Id, ReceiptRow>
    var users: set<Id>
    ghost var attempts: set<Id>

    ghost function State(): Db
      reads this
    {
      Db(jobs, receipts, users, attempts)
    }

    /** At most one active job per receipt: the tables' unique index. */
    ghost predicate Valid()
      reads this
    {
      forall r :: One(State(), r)
    }

    constructor (users: set<Id>)
      ensures Valid() && Inv(State()) && State() == Db(map[], map[], users, {})
    {
      jobs, receipts, attempts := map[], map[], {};
      this.users := users;
      new;
      EmptyOutbox(users);
    }

    method FindActive(r: Id) returns (found: Option<Id>)
      requires Valid()
      ensures found == ActiveJob(State(), r)
      ensures found.Some? ==> found.value in jobs
    {
      var active := ActiveJobs(jobs, r);
      if active == {} { return None; }
      var j :| j in active;
      assert One(State(), r);
      return Some(j);
    }

    method FindAttempt(r: Id, attempt: Id) returns (found: Option<Id>)
      requires Valid()
      ensures found == AttemptJob(State(), r, attempt)
      ensures found.Some? ==> found.value in jobs
    {
      found := FindActive(r);
      if found.Some? && jobs[found.value].attempt != Some(attempt) { found := None; }
    }

    method EnqueueOcrJob(user: Id, r: Id, id: Id, now: int)
      requires Valid() && id !in jobs
      modifies this`jobs
      ensures State() == Enqueue(old(State()), user, r, id, now)
    {
      var existing := FindActive(r);
      if existing.Some? { return; }
      jobs := jobs[id := Job(user, r, Pending, None, None, 0, None, now, None)];
    }

    /** `delivered` is whether the broker took the message. */
    method TryPublish(j: Id, delivered: bool, now: int) returns (ok: bool)
      requires j in jobs
      modifies this`jobs
      ensures ok == delivered
      ensures jobs == if delivered then old(jobs)[j := PublishedJob(old(jobs)[j], now)] else old(jobs)
    {
      if !delivered { return false; }
      if jobs[j].status.Pending? { jobs := jobs[j := jobs[j].(status := Published, published := Some(now))]; }
      return true;
    }

    method PublishPendingForReceipt(r: Id, delivered: bool, now: int) returns (ok: bool)
      requires Valid()
      modifies this`jobs
      ensures State() == Publish(old(State()), r, delivered, now)
      ensures ok == (delivered && ActiveJob(old(State()), r).Some?)
    {
      var j := FindActive(r);
      if j.None? { return false; }
      ok := TryPublish(j.value, delivered, now);
    }

    /** `reached` are the jobs whose delivery the broker takes. */
    method ReconcileJobOutbox(reached: set<Id>, now: int, minAge: int) returns (published: nat)
      modifies this`jobs
      ensures State() == Reconcile(old(State()), reached, now, minAge)
      ensures published == |OverdueJobs(old(jobs), now, minAge) * reached|
    {
      published := PublishAll(OverdueJobs(jobs, now, minAge), reached, now);
    }

    method PublishAll(due: set<Id>, reached: set<Id>, now: int) returns (published: nat)
      requires due <= jobs.Keys
      modifies this`jobs
      ensures jobs == PublishedJobs(old(jobs), due * reached, now) && published == |due * reached|
    {
      var todo := due;
      published := 0;
      while todo != {}
        invariant todo <= due && jobs.Keys == old(jobs).Keys
        invariant published + |todo * reached| == |due * reached|
        invariant forall j :: j in jobs ==>
          jobs[j] == if j in due && j !in todo && j in reached then PublishedJob(old(jobs)[j], now) else old(jobs)[j]
        decreases |todo|
      {
        var j :| j in todo;
        TakeOne(todo, reached, j);
        var ok := TryPublish(j, j in reached, now);
        if ok { published := published + 1; }
        todo := todo - {j};
      }
    }

    method SetStatus(r: Id, status: Status)
      modifies this`receipts
      ensures State() == WithStatus(old(State()), r, status)
    {
      if r in receipts { receipts := receipts[r := receipts[r].(status := status)]; }
    }

    method ClaimOcrJob(r: Id, attempt: Id, now: int) returns (claimed: bool)
      requires Valid()
      modifies this
      ensures (State(), claimed) == Claim(old(State()), r, attempt, now)
    {
      var found := FindActive(r);
      if found.None? { return false; }
      var j := found.value;
      var job := jobs[j];
      if job.status.InProcess? && job.lease.Some? && job.lease.value > now { return false; }
      if job.user !in users {
        jobs := jobs[j := job.(status := FailedPermanent, error := Some(AccountDeleted))];
        return false;
      }
      if r !in receipts {
        jobs := jobs[j := job.(status := FailedPermanent, error := Some(ReceiptMissing))];
        return false;
      }
      if receipts[r].status.ReadyForReview? || receipts[r].status.Confirmed? {
        jobs := jobs[j := job.(status := Done)];
        return false;
      }
      if job.count >= MAX_ATTEMPTS {
        jobs := jobs[j := job.(status := FailedPermanent, error := Some(MaxAttempts))];
        SetStatus(r, Failed);
        return false;
      }
      jobs := jobs[j := job.(status := InProcess, attempt := Some(attempt), lease := Some(now + LEASE_SECONDS), count := job.count + 1)];
      attempts := attempts + {attempt};
      SetStatus(r, Processing);
      return true;
    }

    method CompleteOcrResult(r: Id, attempt: Id) returns (ok: bool)
      requires Valid()
      modifies this
      ensures State() == Complete(old(State()), r, attempt)
    {
      var found := FindAttempt(r, attempt);
      if found.None? { return false; }
      var j := found.value;
      if jobs[j].user !in users {
        jobs := jobs[j := jobs[j].(status := FailedPermanent, error := Some(AccountDeleted))];
        return false;
      }
      // Without the receipt nothing is committed, and the mark on the job is lost with the session.
      if r !in receipts { return true; }
      jobs := jobs[j := jobs[j].(status := Done)];
      SetStatus(r, ReadyForReview);
      return true;
    }

    method FailOcrJob(r: Id, attempt: Id, code: ErrorCode, permanent: bool)
      requires Valid()
      modifies this
      ensures State() == Fail(old(State()), r, attempt, code, permanent)
    {
      var found := FindAttempt(r, attempt);
      if found.None? { return; }
      var j := found.value;
      var job := jobs[j].(error := Some(code));
      if permanent || job.count >= MAX_ATTEMPTS {
        jobs := jobs[j := job.(status := FailedPermanent)];
        SetStatus(r, Failed);
      } else {
        jobs := jobs[j := job.(status := Pending, lease := None)];
        if r in receipts && receipts[r].status.Processing? { SetStatus(r, Uploaded); }
      }
    }

    /** How a worker begins: it claims the job, or makes one for a waiting receipt that never had any. */
    method StartReceipt(r: Id, id: Id, attempt: Id, attempt2: Id, now: int) returns (claimed: Option<Id>)
      requires Inv(State()) && Valid() && id !in jobs && attempt !in attempts && attempt2 !in attempts
      modifies this
      ensures var (db1, ok) := Claim(old(State()), r, attempt, now);
              if ok then State() == db1 && claimed == Some(attempt)
              else
                var (db2, ok2) := Claim(EnqueueMissing(db1, r, id, now), r, attempt2, now);
                if ShouldEnqueueMissing(db1, r) then State() == db2 && claimed == (if ok2 then Some(attempt2) else None)
                else State() == db1 && claimed == None
      ensures Inv(State())
    {
      ClaimKeeps(State(), r, attempt, now);
      var ok := ClaimOcrJob(r, attempt, now);
      if ok { return Some(attempt); }
      var missing := MissingJob(r);
      if !missing { return None; }
      EnqueueKeeps(State(), r, id, now);
      EnqueueOcrJob(receipts[r].user, r, id, now);
      ClaimKeeps(State(), r, attempt2, now);
      ok := ClaimOcrJob(r, attempt2, now);
      return if ok then Some(attempt2) else None;
    }

    method MissingJob(r: Id) returns (missing: bool)
      ensures missing == ShouldEnqueueMissing(State(), r)
    {
      if r !in receipts || !receipts[r].status.Uploaded? || receipts[r].user !in users { return false; }
      var existing := set j | j in jobs && jobs[j].receipt == r;
      missing := existing == {};
      assert forall j :: j in jobs && jobs[j].receipt == r ==> j in existing;
    }

    /** How it ends: with the text it read, or with the error it met. */
    method FinishReceipt(r: Id, attempt: Id, failure: Option<ErrorCode>)
      requires Inv(State()) && Valid()
      modifies this
      ensures State() == match failure
                         case None => Complete(old(State()), r, attempt)
                         case Some(code) => Fail(old(State()), r, attempt, code, code.EmptyOcr?)
      ensures Inv(State())
    {
      match failure {
        case None =>
          CompleteKeeps(State(), r, attempt);
          var _ := CompleteOcrResult(r, attempt);
        case Some(code) =>
          FailKeeps(State(), r, attempt, code, code.EmptyOcr?);
          FailOcrJob(r, attempt, code, code.EmptyOcr?);
      }
    }
  }
}
