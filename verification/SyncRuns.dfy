/** A batch on its way: what the server does with new and replayed mutations, and what marking rows, editing
    meanwhile and losing the answer do to the device. */
module SyncRuns {
  import opened Basics
  import opened ShoppingLists
  import opened ShoppingListLaws
  import opened ShoppingListIdempotency
  import opened Replica
  import opened ReplicaLaws
  import opened Convergence

  // ---- The batch on the server ----

  function BatchCalls(batch: seq<OutboxRow>, envs: seq<Env>): seq<Call>
    requires |envs| == |batch|
  {
    seq(|batch|, i requires 0 <= i < |batch| => Call(batch[i].m, envs[i]))
  }

  ghost predicate UniqueCalls(calls: seq<Call>) {
    forall i, j :: 0 <= i < |calls| && 0 <= j < |calls| && calls[i].m.mid == calls[j].m.mid ==> calls[i].m == calls[j].m
  }

  ghost predicate CallsStamped(db: Db, u: Id, calls: seq<Call>, c: nat) {
    forall i :: 0 <= i < |calls| && KeyOf(u, calls[i].m) in db.records ==> Stamped(db, u, calls[i].m, c)
  }

  lemma {:induction false} AfterStamps(db: Db, u: Id, calls: seq<Call>, c: nat)
    requires Inv(db) && calls != [] && c <= Seq(db, u) && UniqueCalls(calls) && CallsStamped(db, u, calls, c)
    ensures CallsStamped(After(db, u, calls[0].m, calls[0].env), u, calls, c)
  {
    var m, env := calls[0].m, calls[0].env;
    var db1 := After(db, u, m, env);
    AfterKeeps(db, u, m, env);
    if KeyOf(u, m) !in db.records && Handle(db, u, m, env).Accepted? {
      HandleKeeps(db, u, m, env);
      assert Stamped(db1, u, m, c);
    }
    forall i | 0 <= i < |calls| && KeyOf(u, calls[i].m) in db1.records ensures Stamped(db1, u, calls[i].m, c) {
      if KeyOf(u, calls[i].m) in db.records {
        StampedAdvances(db, db1, u, calls[i].m, c);
      } else {
        assert calls[i].m.mid == calls[0].m.mid;
      }
    }
  }

  lemma {:induction false} LaterTwinStamped(db: Db, u: Id, calls: seq<Call>, c: nat)
    requires calls != [] && UniqueCalls(calls) && CallsStamped(db, u, calls[1..], c) && KeyOf(u, calls[0].m) in db.records
    requires exists j :: 0 <= j < |calls[1..]| && KeyOf(u, calls[1..][j].m) == KeyOf(u, calls[0].m)
    ensures Stamped(db, u, calls[0].m, c)
  {
    var rest := calls[1..];
    var j :| 0 <= j < |rest| && KeyOf(u, rest[j].m) == KeyOf(u, calls[0].m);
    assert rest[j] == calls[j + 1] && calls[j + 1].m == calls[0].m;
    assert Stamped(db, u, rest[j].m, c);
  }

  /** A call of the batch that is recorded in the end was applied first or is one of the rest. */
  lemma {:induction false} BatchStampedAt(db: Db, u: Id, calls: seq<Call>, c: nat, i: nat)
    requires Inv(db) && i < |calls| && UniqueCalls(calls)
    requires var db1 := After(db, u, calls[0].m, calls[0].env);
             && Inv(db1) && CallsStamped(db1, u, calls, c)
             && Advances(db1, ApplyBatch(db, u, calls).0)
             && CallsStamped(ApplyBatch(db, u, calls).0, u, calls[1..], c)
    requires KeyOf(u, calls[i].m) in ApplyBatch(db, u, calls).0.records
    ensures Stamped(ApplyBatch(db, u, calls).0, u, calls[i].m, c)
  {
    var db1, rest := After(db, u, calls[0].m, calls[0].env), calls[1..];
    var db2 := ApplyBatch(db, u, calls).0;
    if i > 0 {
      assert rest[i - 1] == calls[i];
    } else if KeyOf(u, calls[0].m) in db1.records {
      StampedAdvances(db1, db2, u, calls[0].m, c);
    } else {
      BatchRecords(db1, u, rest, KeyOf(u, calls[0].m));
      LaterTwinStamped(db2, u, calls, c);
    }
  }

  /** Every mutation of a batch that the server has afterwards, new or replayed, has its rows stamped above the old cursor. */
  lemma {:induction false} BatchStamps(db: Db, u: Id, calls: seq<Call>, c: nat)
    requires Inv(db) && c <= Seq(db, u) && UniqueCalls(calls) && CallsStamped(db, u, calls, c)
    ensures CallsStamped(ApplyBatch(db, u, calls).0, u, calls, c)
    decreases |calls|
  {
    if calls != [] {
      var db1, rest := After(db, u, calls[0].m, calls[0].env), calls[1..];
      AfterStamps(db, u, calls, c);
      AfterKeeps(db, u, calls[0].m, calls[0].env);
      BatchKeeps(db1, u, rest);
      forall i | 0 <= i < |rest| ensures rest[i] == calls[i + 1] {}
      BatchStamps(db1, u, rest, c);
      forall i | 0 <= i < |calls| && KeyOf(u, calls[i].m) in ApplyBatch(db, u, calls).0.records
        ensures Stamped(ApplyBatch(db, u, calls).0, u, calls[i].m, c)
      {
        BatchStampedAt(db, u, calls, c, i);
      }
    }
  }

  lemma {:induction false} BatchRecords(db: Db, u: Id, calls: seq<Call>, k: Key)
    requires Inv(db) && k !in db.records && k in ApplyBatch(db, u, calls).0.records
    ensures exists j :: 0 <= j < |calls| && KeyOf(u, calls[j].m) == k
    decreases |calls|
  {
    if calls != [] {
      var m, env := calls[0].m, calls[0].env;
      var db1 := After(db, u, m, env);
      AfterKeeps(db, u, m, env);
      if KeyOf(u, m) != k {
        if KeyOf(u, m) !in db.records && Handle(db, u, m, env).Accepted? { HandleKeeps(db, u, m, env); }
        BatchRecords(db1, u, calls[1..], k);
        var j :| 0 <= j < |calls[1..]| && KeyOf(u, calls[1..][j].m) == k;
        assert calls[j + 1] == calls[1..][j];
      }
    }
  }

  lemma {:induction false} HandleNeverExpires(db: Db, u: Id, m: Mutation, env: Env)
    ensures Handle(db, u, m, env).Rejected? ==> Handle(db, u, m, env).code != CursorExpired
  {
  }

  /** A batch never answers CURSOR_EXPIRED, and a mutation it reports no conflict for is recorded. */
  lemma {:induction false} BatchReports(db: Db, u: Id, calls: seq<Call>)
    requires Inv(db)
    ensures var (db', conflicts) := ApplyBatch(db, u, calls);
            && (forall k :: k in conflicts ==> k.code != CursorExpired)
            && (forall i :: 0 <= i < |calls| ==>
                  KeyOf(u, calls[i].m) in db'.records || exists k :: k in conflicts && k.mid == calls[i].m.mid)
    decreases |calls|
  {
    if calls != [] {
      var m, env := calls[0].m, calls[0].env;
      var db1 := After(db, u, m, env);
      var (db', conflicts) := ApplyBatch(db, u, calls);
      AfterKeeps(db, u, m, env);
      HandleNeverExpires(db, u, m, env);
      BatchReports(db1, u, calls[1..]);
      BatchKeeps(db1, u, calls[1..]);
      forall i | 0 <= i < |calls|
        ensures KeyOf(u, calls[i].m) in db'.records || exists k :: k in conflicts && k.mid == calls[i].m.mid
      {
        if i == 0 {
          if Apply(db, u, m, env).Rejected? { assert conflicts[0] in conflicts; }
        } else {
          assert calls[i] == calls[1..][i - 1];
          if KeyOf(u, calls[i].m) !in db'.records {
            var k :| k in ApplyBatch(db1, u, calls[1..]).1 && k.mid == calls[i].m.mid;
            assert k in conflicts;
          }
        }
      }
    }
  }

  lemma {:induction false} FirstStamped(db: Db, u: Id, m: Mutation, env: Env)
    requires Inv(db) && KeyOf(u, m) !in db.records && KeyOf(u, m) in After(db, u, m, env).records
    ensures Stamped(After(db, u, m, env), u, m, Seq(db, u))
  {
    if Handle(db, u, m, env).Accepted? { HandleKeeps(db, u, m, env); }
  }

  lemma {:induction false} OnlyOwnKey(db: Db, u: Id, m: Mutation, env: Env, k: Key)
    requires Inv(db) && k !in db.records && k in After(db, u, m, env).records
    ensures k == KeyOf(u, m)
  {
    if KeyOf(u, m) !in db.records && Handle(db, u, m, env).Accepted? { HandleKeeps(db, u, m, env); }
  }

  /** A mutation of the batch that the server did not have and has afterwards was applied by the batch. */
  lemma {:induction false} NewlyStamped(db: Db, u: Id, calls: seq<Call>, i: nat)
    requires Inv(db) && i < |calls| && UniqueCalls(calls)
    requires KeyOf(u, calls[i].m) !in db.records && KeyOf(u, calls[i].m) in ApplyBatch(db, u, calls).0.records
    ensures Stamped(ApplyBatch(db, u, calls).0, u, calls[i].m, Seq(db, u))
    decreases |calls|
  {
    var m, rest := calls[0].m, calls[1..];
    var db1 := After(db, u, m, calls[0].env);
    AfterKeeps(db, u, m, calls[0].env);
    BatchKeeps(db1, u, rest);
    if KeyOf(u, calls[i].m) in db1.records {
      OnlyOwnKey(db, u, m, calls[0].env, KeyOf(u, calls[i].m));
      FirstStamped(db, u, m, calls[0].env);
      StampedAdvances(db1, ApplyBatch(db, u, calls).0, u, m, Seq(db, u));
    } else {
      forall j | 0 <= j < |rest| ensures rest[j] == calls[j + 1] {}
      BatchRecords(db1, u, rest, KeyOf(u, calls[i].m));
      var j :| 0 <= j < |rest| && KeyOf(u, rest[j].m) == KeyOf(u, calls[i].m);
      assert calls[j + 1].m == calls[i].m;
      NewlyStamped(db1, u, rest, j);
    }
  }

  ghost predicate Reported(conflicts: seq<Conflict>, mid: Id) {
    exists k :: k in conflicts && k.mid == mid
  }

  lemma {:induction false} ReplayNotReported(db: Db, u: Id, calls: seq<Call>, m: Mutation)
    requires Inv(db) && Recorded(db, u, m) && forall j :: 0 <= j < |calls| && calls[j].m.mid == m.mid ==> calls[j].m == m
    ensures !Reported(ApplyBatch(db, u, calls).1, m.mid)
    decreases |calls|
  {
    if calls != [] {
      var db1 := After(db, u, calls[0].m, calls[0].env);
      AfterKeeps(db, u, calls[0].m, calls[0].env);
      StaysRecorded(db, db1, u, m);
      forall j | 0 <= j < |calls[1..]| ensures calls[1..][j] == calls[j + 1] {}
      ReplayNotReported(db1, u, calls[1..], m);
    }
  }

  lemma {:induction false} OtherPayloadReported(db: Db, u: Id, calls: seq<Call>, i: nat)
    requires Inv(db) && i < |calls| && KeyOf(u, calls[i].m) in db.records && !Recorded(db, u, calls[i].m)
    ensures Reported(ApplyBatch(db, u, calls).1, calls[i].m.mid)
    decreases |calls|
  {
    var db1 := After(db, u, calls[0].m, calls[0].env);
    var conflicts := ApplyBatch(db, u, calls).1;
    AfterKeeps(db, u, calls[0].m, calls[0].env);
    if i == 0 {
      assert conflicts[0] in conflicts && conflicts[0].mid == calls[0].m.mid;
    } else {
      assert calls[1..][i - 1] == calls[i];
      OtherPayloadReported(db1, u, calls[1..], i - 1);
      var k :| k in ApplyBatch(db1, u, calls[1..]).1 && k.mid == calls[i].m.mid;
      assert k in conflicts;
    }
  }

  /** A mutation the server already has is not reported as a conflict, although sending it changes nothing; any other
      that is not reported has its rows stamped above every number handed out before. */
  lemma {:induction false} BatchAnswers(db: Db, u: Id, calls: seq<Call>, i: nat)
    requires Inv(db) && i < |calls| && UniqueCalls(calls)
    ensures Recorded(db, u, calls[i].m) ==> !Reported(ApplyBatch(db, u, calls).1, calls[i].m.mid)
    ensures Recorded(db, u, calls[i].m) || Reported(ApplyBatch(db, u, calls).1, calls[i].m.mid)
            || Stamped(ApplyBatch(db, u, calls).0, u, calls[i].m, Seq(db, u))
  {
    BatchReports(db, u, calls);
    if Recorded(db, u, calls[i].m) {
      ReplayNotReported(db, u, calls, calls[i].m);
    } else if KeyOf(u, calls[i].m) in db.records {
      OtherPayloadReported(db, u, calls, i);
    } else if KeyOf(u, calls[i].m) in ApplyBatch(db, u, calls).0.records {
      NewlyStamped(db, u, calls, i);
    }
  }

  // ---- Sending ----

  function Mark(c: Client, batch: seq<OutboxRow>, status: SendStatus): Client {
    c.(outbox := WithStatus(c.outbox, batch, status))
  }

  ghost predicate Waits(outbox: seq<OutboxRow>, m: Mutation) {
    exists s :: s in outbox && s.m == m
  }

  ghost predicate WaitsSendable(outbox: seq<OutboxRow>, m: Mutation) {
    exists s :: s in outbox && s.m == m && IsSendable(s)
  }

  /** The same mutations wait, and what is sendable was sendable before. */
  ghost predicate SameWaiting(a: seq<OutboxRow>, b: seq<OutboxRow>) {
    && (forall r {:trigger Waits(b, r.m)} :: r in a ==> Waits(b, r.m))
    && (forall r {:trigger Waits(a, r.m)} :: r in b ==> Waits(a, r.m))
    && (forall r {:trigger WaitsSendable(a, r.m)} :: r in b && IsSendable(r) ==> WaitsSendable(a, r.m))
  }

  ghost predicate AllWaiting(batch: seq<OutboxRow>, outbox: seq<OutboxRow>) {
    forall b {:trigger WaitsSendable(outbox, b.m)} :: b in batch ==> WaitsSendable(outbox, b.m)
  }

  lemma {:induction false} MarkSameWaiting(outbox: seq<OutboxRow>, batch: seq<OutboxRow>, status: SendStatus)
    requires UniqueMids(outbox) && UniqueMids(batch) && AllWaiting(batch, outbox)
    ensures SameWaiting(outbox, WithStatus(outbox, batch, status))
  {
    var result := WithStatus(outbox, batch, status);
    forall r | r in result ensures Waits(outbox, r.m) && (IsSendable(r) ==> WaitsSendable(outbox, r.m)) {
      WithStatusMember(outbox, batch, status, r);
      if !(r in outbox && !HasMid(batch, r.m.mid)) {
        var b :| b in batch && r == b.(status := status);
        assert WaitsSendable(outbox, b.m);
      }
    }
    forall r | r in outbox ensures Waits(result, r.m) {
      if HasMid(batch, r.m.mid) {
        var i :| 0 <= i < |batch| && batch[i].m.mid == r.m.mid;
        assert batch[i] in batch && WaitsSendable(outbox, batch[i].m);
        WithStatusMember(outbox, batch, status, batch[i].(status := status));
      } else {
        WithStatusMember(outbox, batch, status, r);
      }
    }
  }

  lemma {:induction false} SameNamesTracks(db: Db, u: Id, c: Client, c': Client)
    requires Tracks(db, u, c) && c'.lists == c.lists && c'.items == c.items && c'.cursor == c.cursor
    requires forall id :: NamesList(c.outbox, id) <==> NamesList(c'.outbox, id)
    requires forall id :: NamesItem(c.outbox, id) <==> NamesItem(c'.outbox, id)
    ensures Tracks(db, u, c')
  {
    forall id ensures ListTracked(db, u, c', id) && NoStrayList(db, u, c', id) {
      assert ListTracked(db, u, c, id) && NoStrayList(db, u, c, id);
    }
    forall id ensures ItemTracked(db, u, c', id) && NoStrayItem(db, u, c', id) {
      assert ItemTracked(db, u, c, id) && NoStrayItem(db, u, c, id);
    }
  }

  lemma {:induction false} SameWaitingRedelivers(db: Db, u: Id, c: Client, c': Client)
    requires Redelivers(db, u, c) && SameWaiting(c.outbox, c'.outbox) && c'.cursor == c.cursor
    ensures Redelivers(db, u, c')
  {
    forall r | r in c'.outbox && IsSendable(r) && KeyOf(u, r.m) in db.records ensures Stamped(db, u, r.m, At(c')) {
      assert WaitsSendable(c.outbox, r.m);
      var s :| s in c.outbox && s.m == r.m && IsSendable(s);
    }
  }

  lemma {:induction false} SameWaitingTracks(db: Db, u: Id, c: Client, c': Client)
    requires Tracks(db, u, c) && SameWaiting(c.outbox, c'.outbox)
    requires c'.lists == c.lists && c'.items == c.items && c'.cursor == c.cursor
    ensures Tracks(db, u, c')
  {
    forall id ensures (NamesList(c.outbox, id) <==> NamesList(c'.outbox, id)) && (NamesItem(c.outbox, id) <==> NamesItem(c'.outbox, id)) {
      NamesVia(c.outbox, c'.outbox, id);
      NamesVia(c'.outbox, c.outbox, id);
    }
    SameNamesTracks(db, u, c, c');
  }

  lemma {:induction false} SameWaitingKeeps(db: Db, u: Id, c: Client, c': Client)
    requires Tracked(db, u, c) && UniqueMids(c'.outbox) && SameWaiting(c.outbox, c'.outbox)
    requires c'.lists == c.lists && c'.items == c.items && c'.cursor == c.cursor
    ensures Tracked(db, u, c') && (Redelivers(db, u, c) ==> Redelivers(db, u, c'))
  {
    SameWaitingTracks(db, u, c, c');
    if Redelivers(db, u, c) { SameWaitingRedelivers(db, u, c, c'); }
  }

  /** Changing the send status of waiting rows changes nothing the invariant looks at. */
  lemma {:induction false} MarkKeeps(db: Db, u: Id, c: Client, batch: seq<OutboxRow>, status: SendStatus)
    requires Tracked(db, u, c) && UniqueMids(batch) && AllWaiting(batch, c.outbox)
    ensures var c' := Mark(c, batch, status);
            Tracked(db, u, c') && (Redelivers(db, u, c) ==> Redelivers(db, u, c'))
  {
    MarkSameWaiting(c.outbox, batch, status);
    MarkUnique(c.outbox, batch, status);
    SameWaitingKeeps(db, u, c, Mark(c, batch, status));
  }

  lemma {:induction false} MarkUnique(outbox: seq<OutboxRow>, batch: seq<OutboxRow>, status: SendStatus)
    requires UniqueMids(outbox) && UniqueMids(batch)
    ensures UniqueMids(WithStatus(outbox, batch, status))
  {
    var result := WithStatus(outbox, batch, status);
    forall r, s | r in result && s in result && r.m.mid == s.m.mid ensures r == s {
      WithStatusMember(outbox, batch, status, r);
      WithStatusMember(outbox, batch, status, s);
      forall b | b in batch ensures HasMid(batch, b.m.mid) { HasMidMember(batch, b); }
    }
  }

  lemma {:induction false} NamesVia(a: seq<OutboxRow>, b: seq<OutboxRow>, id: Id)
    requires forall r {:trigger Waits(b, r.m)} :: r in a ==> Waits(b, r.m)
    ensures NamesList(a, id) ==> NamesList(b, id)
    ensures NamesItem(a, id) ==> NamesItem(b, id)
  {
    if NamesList(a, id) {
      var i :| 0 <= i < |a| && TargetList(a[i].m) == Some(id);
      assert a[i] in a && Waits(b, a[i].m);
      var s :| s in b && s.m == a[i].m;
      NamesListBy(b, s, id);
    }
    if NamesItem(a, id) {
      var i :| 0 <= i < |a| && TargetItem(a[i].m) == Some(id);
      assert a[i] in a && Waits(b, a[i].m);
      var s :| s in b && s.m == a[i].m;
      NamesItemBy(b, s, id);
    }
  }

  /** The sendable rows are a batch keyed by mutation id, made of outbox rows. */
  lemma {:induction false} SendableBatch(outbox: seq<OutboxRow>)
    requires UniqueMids(outbox)
    ensures var batch := Sendable(outbox);
            && UniqueMids(batch)
            && (forall b :: b in batch <==> b in outbox && IsSendable(b))
  {
    forall b ensures b in Sendable(outbox) <==> b in outbox && IsSendable(b) { SendableMember(outbox, b); }
  }

  lemma {:induction false} BatchIsUnique(outbox: seq<OutboxRow>, envs: seq<Env>)
    requires UniqueMids(outbox) && |envs| == |Sendable(outbox)|
    ensures UniqueCalls(BatchCalls(Sendable(outbox), envs))
  {
    var batch, calls := Sendable(outbox), BatchCalls(Sendable(outbox), envs);
    SendableBatch(outbox);
    forall i | 0 <= i < |calls| ensures calls[i].m == batch[i].m && batch[i] in batch {}
  }

  lemma {:induction false} BatchIsStamped(db: Db, u: Id, c: Client, envs: seq<Env>)
    requires WorldInv(db, u, c) && |envs| == |Sendable(c.outbox)|
    ensures CallsStamped(db, u, BatchCalls(Sendable(c.outbox), envs), At(c))
  {
    var batch, calls := Sendable(c.outbox), BatchCalls(Sendable(c.outbox), envs);
    SendableBatch(c.outbox);
    forall i | 0 <= i < |calls| ensures calls[i].m == batch[i].m && batch[i] in c.outbox && IsSendable(batch[i]) {
      assert batch[i] in batch;
    }
  }

  lemma {:induction false} StampedRedelivers(db: Db, u: Id, c: Client, envs: seq<Env>)
    requires UniqueMids(c.outbox) && |envs| == |Sendable(c.outbox)|
    requires CallsStamped(db, u, BatchCalls(Sendable(c.outbox), envs), At(c))
    ensures Redelivers(db, u, c)
  {
    var batch, calls := Sendable(c.outbox), BatchCalls(Sendable(c.outbox), envs);
    SendableBatch(c.outbox);
    forall r | r in c.outbox && IsSendable(r) && KeyOf(u, r.m) in db.records ensures Stamped(db, u, r.m, At(c)) {
      assert r in batch;
      var i :| 0 <= i < |batch| && batch[i] == r;
      assert calls[i].m == r.m;
    }
  }

  /** The batch arrives: the server side of a sync keeps the invariant for the unchanged device. */
  lemma {:induction false} WriteKeeps(db: Db, u: Id, c: Client, envs: seq<Env>, now: int)
    requires Tracked(db, u, c) && |envs| == |Sendable(c.outbox)|
    ensures var db1 := SyncWrite(db, u, c.cursor, BatchCalls(Sendable(c.outbox), envs), now).0;
            Advances(db, db1) && Tracked(db1, u, c) && (Redelivers(db, u, c) ==> Redelivers(db1, u, c))
  {
    if ParseCursor(db, u, c.cursor, now).replayAllowed {
      var calls := BatchCalls(Sendable(c.outbox), envs);
      BatchKeeps(db, u, calls);
      TracksAdvances(db, ApplyBatch(db, u, calls).0, u, c);
      if Redelivers(db, u, c) {
        BatchIsUnique(c.outbox, envs);
        BatchIsStamped(db, u, c, envs);
        BatchStamps(db, u, calls, At(c));
        StampedRedelivers(ApplyBatch(db, u, calls).0, u, c, envs);
      }
    }
  }

  // ---- A sync whose response is lost ----

  /** The device after the batch reached the server and the answer did not come back. `killed` means
      that the process died before the rows were put back to pending. */
  ghost function LoseResponse(c: Client, edits: seq<Edit>, killed: bool): Client {
    var batch := Sendable(c.outbox);
    var c2 := ApplyEdits(Mark(c, batch, InFlight), edits);
    if killed then c2 else Mark(c2, batch, Pending)
  }

  lemma {:induction false} InFlightThere(c: Client, b: OutboxRow)
    requires UniqueMids(c.outbox) && b in Sendable(c.outbox)
    ensures b.(status := InFlight) in Mark(c, Sendable(c.outbox), InFlight).outbox
  {
    SendableBatch(c.outbox);
    WithStatusMember(c.outbox, Sendable(c.outbox), InFlight, b.(status := InFlight));
  }

  /** While a batch is under way: edits are made against a device whose sendable rows are all in flight. */
  lemma {:induction false} InFlightKeeps(db: Db, u: Id, c: Client, edits: seq<Edit>)
    requires Tracked(db, u, c) && ValidEdits(db, u, Mark(c, Sendable(c.outbox), InFlight), edits)
    ensures var batch := Sendable(c.outbox);
            var c2 := ApplyEdits(Mark(c, batch, InFlight), edits);
            && Tracked(db, u, c2) && (Redelivers(db, u, c) ==> Redelivers(db, u, c2))
            && Edited(db, u, Mark(c, batch, InFlight), c2)
            && UniqueMids(batch) && AllWaiting(batch, c2.outbox)
            && (forall b :: b in batch ==> b.(status := InFlight) in c2.outbox)
  {
    var batch := Sendable(c.outbox);
    var c1 := Mark(c, batch, InFlight);
    SendableBatch(c.outbox);
    MarkKeeps(db, u, c, batch, InFlight);
    EditsTrack(db, u, c1, edits);
    if Redelivers(db, u, c) { EditsKeep(db, u, c1, edits); }
    EditsAreEdited(db, u, c1, edits);
    forall b | b in batch ensures b.(status := InFlight) in ApplyEdits(c1, edits).outbox {
      InFlightThere(c, b);
    }
  }

  /** Losing the response after the server applied the batch keeps the invariant, edits in between included. */
  lemma {:induction false} LostResponseKeeps(db: Db, u: Id, c: Client, envs: seq<Env>, now: int, edits: seq<Edit>, killed: bool)
    requires Tracked(db, u, c) && |envs| == |Sendable(c.outbox)|
    requires ValidEdits(SyncWrite(db, u, c.cursor, BatchCalls(Sendable(c.outbox), envs), now).0, u,
                        Mark(c, Sendable(c.outbox), InFlight), edits)
    ensures var db1, c' := SyncWrite(db, u, c.cursor, BatchCalls(Sendable(c.outbox), envs), now).0, LoseResponse(c, edits, killed);
            Tracked(db1, u, c') && (Redelivers(db, u, c) ==> Redelivers(db1, u, c'))
  {
    var batch := Sendable(c.outbox);
    var db1 := SyncWrite(db, u, c.cursor, BatchCalls(batch, envs), now).0;
    WriteKeeps(db, u, c, envs, now);
    InFlightKeeps(db1, u, c, edits);
    if !killed { MarkKeeps(db1, u, ApplyEdits(Mark(c, batch, InFlight), edits), batch, Pending); }
  }
}
