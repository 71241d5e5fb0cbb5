/** Two conditions a caller can check before a sync: one that is exact for a sync nobody disturbs, and a guard
    that makes every later sync safe as well. */
module SyncConditions {
  import opened Basics
  import opened ShoppingLists
  import opened ShoppingListLaws
  import opened ShoppingListIdempotency
  import opened Replica
  import opened ReplicaLaws
  import opened Convergence
  import opened SyncRuns
  import opened SyncResponses
  import opened DeviceSyncs

  // ---- A sync that nobody disturbs ----

  ghost predicate Quiet(e: Sync) {
    e.w1 == [] && e.w2 == [] && e.w3 == [] && e.edits == []
  }

  /** The ids the server draws are not named by the outbox. */
  ghost predicate FreshDraws(envs: seq<Env>, outbox: seq<OutboxRow>) {
    forall i :: 0 <= i < |envs| ==> FreshDraw(envs[i], outbox)
  }

  ghost predicate FreshDraw(env: Env, outbox: seq<OutboxRow>) {
    && !NamesList(outbox, env.uuid) && !NamesItem(outbox, env.uuid)
    && forall j :: 0 <= j < |env.copied| ==> !NamesItem(outbox, env.copied[j].0)
  }

  lemma {:induction false} AddLinesLeave(db: Db, u: Id, listId: Id, lines: seq<(Id, MappedLine)>, now: int, id: Id)
    requires listId in db.lists && AddLines(db, u, listId, lines, now).Some?
    ensures id != listId ==> SameAt(db.lists, AddLines(db, u, listId, lines, now).value.lists, id)
    ensures (forall j :: 0 <= j < |lines| ==> lines[j].0 != id) ==> SameAt(db.items, AddLines(db, u, listId, lines, now).value.items, id)
  {
    if lines != [] { AddLinesLeave(db, u, listId, lines[..|lines| - 1], now, id); }
  }

  /** A handler writes no list but the one its mutation names and the one whose id it draws. */
  lemma {:induction false} AfterLeavesList(db: Db, u: Id, m: Mutation, env: Env, id: Id)
    requires TargetList(m) != Some(id) && id != env.uuid
    ensures SameAt(db.lists, After(db, u, m, env).lists, id)
  {
    if m.ListCopy? && KeyOf(u, m) !in db.records && Handle(db, u, m, env).Accepted? {
      var name := if m.newName.Some? then Trim(m.newName.value) else db.lists[m.listId].name;
      var copy, db1 := m.id.GetOr(env.uuid), Bump(db, u);
      AddLinesLeave(db1.(lists := db1.lists[copy := NewList(u, name, Seq(db1, u), env.now)]), u, copy, env.copied, env.now, id);
    }
  }

  lemma {:induction false} AfterLeavesItem(db: Db, u: Id, m: Mutation, env: Env, id: Id)
    requires TargetItem(m) != Some(id) && id != env.uuid && forall j :: 0 <= j < |env.copied| ==> env.copied[j].0 != id
    ensures SameAt(db.items, After(db, u, m, env).items, id)
  {
    if m.ListCopy? && KeyOf(u, m) !in db.records && Handle(db, u, m, env).Accepted? {
      var name := if m.newName.Some? then Trim(m.newName.value) else db.lists[m.listId].name;
      var copy, db1 := m.id.GetOr(env.uuid), Bump(db, u);
      AddLinesLeave(db1.(lists := db1.lists[copy := NewList(u, name, Seq(db1, u), env.now)]), u, copy, env.copied, env.now, id);
    }
  }

  /** A batch leaves a list alone that only replays name. */
  lemma {:induction false} BatchLeavesList(db: Db, u: Id, calls: seq<Call>, id: Id)
    requires Inv(db) && forall i :: 0 <= i < |calls| ==> id != calls[i].env.uuid
    requires forall i :: 0 <= i < |calls| && TargetList(calls[i].m) == Some(id) ==> Recorded(db, u, calls[i].m)
    ensures SameAt(db.lists, ApplyBatch(db, u, calls).0.lists, id)
    decreases |calls|
  {
    if calls != [] {
      var db1 := After(db, u, calls[0].m, calls[0].env);
      AfterKeeps(db, u, calls[0].m, calls[0].env);
      if TargetList(calls[0].m) != Some(id) { AfterLeavesList(db, u, calls[0].m, calls[0].env, id); }
      forall i | 0 <= i < |calls[1..]| ensures calls[1..][i] == calls[i + 1] {}
      BatchLeavesList(db1, u, calls[1..], id);
    }
  }

  lemma {:induction false} BatchLeavesItem(db: Db, u: Id, calls: seq<Call>, id: Id)
    requires Inv(db) && forall i :: 0 <= i < |calls| ==> id != calls[i].env.uuid
    requires forall i, j :: 0 <= i < |calls| && 0 <= j < |calls[i].env.copied| ==> calls[i].env.copied[j].0 != id
    requires forall i :: 0 <= i < |calls| && TargetItem(calls[i].m) == Some(id) ==> Recorded(db, u, calls[i].m)
    ensures SameAt(db.items, ApplyBatch(db, u, calls).0.items, id)
    decreases |calls|
  {
    if calls != [] {
      var db1 := After(db, u, calls[0].m, calls[0].env);
      AfterKeeps(db, u, calls[0].m, calls[0].env);
      if TargetItem(calls[0].m) != Some(id) { AfterLeavesItem(db, u, calls[0].m, calls[0].env, id); }
      forall i | 0 <= i < |calls[1..]| ensures calls[1..][i] == calls[i + 1] {}
      BatchLeavesItem(db1, u, calls[1..], id);
    }
  }

  lemma {:induction false} NoPendingInFlight(c: Client, id: Id)
    requires UniqueMids(c.outbox)
    ensures var c1 := Mark(c, Sendable(c.outbox), InFlight);
            !EditsList(c1.outbox, id) && !EditsItem(c1.outbox, id)
  {
    var batch := Sendable(c.outbox);
    SendableBatch(c.outbox);
    forall s ensures s in Mark(c, batch, InFlight).outbox ==> s.status != Pending {
      WithStatusMember(c.outbox, batch, InFlight, s);
      if s in c.outbox { BatchMid(c, s); }
    }
  }

  lemma {:induction false} QuietListKeptUp(w: World, u: Id, e: Sync, id: Id)
    requires Tracked(w.db, u, w.c) && ValidSync(w, u, e) && Quiet(e) && FreshDraws(e.envs, w.c.outbox)
    requires OnlyReplaysNameList(w.db, u, w.c.outbox, id)
    ensures ListKeptUp(w.db, AfterReads(w, u, e), u, w.c, Waiting(w, e), id)
            <==> ListInStep(w.db, u, RowOf(w.c.lists, id), At(w.c), id)
  {
    var batch := Sendable(w.c.outbox);
    var calls := BatchCalls(batch, e.envs);
    SendableBatch(w.c.outbox);
    NoPendingInFlight(w.c, id);
    forall i | 0 <= i < |calls|
      ensures id != calls[i].env.uuid && (TargetList(calls[i].m) == Some(id) ==> Recorded(w.db, u, calls[i].m))
    {
      assert FreshDraw(e.envs[i], w.c.outbox) && batch[i] in batch;
    }
    BatchLeavesList(w.db, u, calls, id);
  }

  lemma {:induction false} QuietItemKeptUp(w: World, u: Id, e: Sync, id: Id)
    requires Tracked(w.db, u, w.c) && ValidSync(w, u, e) && Quiet(e) && FreshDraws(e.envs, w.c.outbox)
    requires OnlyReplaysNameItem(w.db, u, w.c.outbox, id)
    ensures ItemKeptUp(w.db, AfterReads(w, u, e), u, w.c, Waiting(w, e), id)
            <==> ItemInStep(w.db, u, RowOf(w.c.items, id), At(w.c), id)
  {
    var batch := Sendable(w.c.outbox);
    var calls := BatchCalls(batch, e.envs);
    SendableBatch(w.c.outbox);
    NoPendingInFlight(w.c, id);
    forall i | 0 <= i < |calls|
      ensures id != calls[i].env.uuid && (TargetItem(calls[i].m) == Some(id) ==> Recorded(w.db, u, calls[i].m))
      ensures forall j :: 0 <= j < |calls[i].env.copied| ==> calls[i].env.copied[j].0 != id
    {
      assert FreshDraw(e.envs[i], w.c.outbox) && batch[i] in batch;
    }
    BatchLeavesItem(w.db, u, calls, id);
  }

  /** The condition in the tables and the replica before the sync: an undisturbed sync keeps every differing row in
      sight if and only if it answers with a snapshot, or every row that nothing but replays names is in step. */
  lemma {:induction false} QuietSyncKeepsIff(w: World, u: Id, e: Sync)
    requires Tracked(w.db, u, w.c) && ValidSync(w, u, e) && Quiet(e) && FreshDraws(e.envs, w.c.outbox)
    ensures Tracked(SyncStep(w, u, e).db, u, SyncStep(w, u, e).c)
            <==> ParsedCursor(w, u, e).sequence.None? || ReplaysInStep(w.db, u, w.c)
  {
    SyncKeepsIff(w, u, e);
    forall id | OnlyReplaysNameList(w.db, u, w.c.outbox, id)
      ensures ListKeptUp(w.db, AfterReads(w, u, e), u, w.c, Waiting(w, e), id) <==> ListInStep(w.db, u, RowOf(w.c.lists, id), At(w.c), id)
    {
      QuietListKeptUp(w, u, e, id);
    }
    forall id | OnlyReplaysNameItem(w.db, u, w.c.outbox, id)
      ensures ItemKeptUp(w.db, AfterReads(w, u, e), u, w.c, Waiting(w, e), id) <==> ItemInStep(w.db, u, RowOf(w.c.items, id), At(w.c), id)
    {
      QuietItemKeptUp(w, u, e, id);
    }
  }

  // ---- A guard that every later sync benefits from ----

  /** The server has none of the mutations that wait to be sent. */
  ghost predicate NothingTaken(db: Db, u: Id, c: Client) {
    forall r :: r in c.outbox && IsSendable(r) ==> KeyOf(u, r.m) !in db.records
  }

  /** The cursor is accepted, or the server has none of the mutations the sync sends. */
  ghost predicate Guarded(w: World, u: Id, e: Sync) {
    ParsedCursor(w, u, e).replayAllowed || NothingTaken(w.db, u, w.c)
  }

  /** What waits to be sent although the server has it has its rows above the cursor, and so in step. */
  lemma {:induction false} RedeliveredIsInStep(db: Db, u: Id, c: Client)
    requires Redelivers(db, u, c)
    ensures ReplaysInStep(db, u, c)
  {
    forall id | OnlyReplaysNameList(db, u, c.outbox, id) ensures ListInStep(db, u, RowOf(c.lists, id), At(c), id) {
      var i :| 0 <= i < |c.outbox| && TargetList(c.outbox[i].m) == Some(id);
      assert IsReplay(db, u, c.outbox[i]) && Stamped(db, u, c.outbox[i].m, At(c));
    }
    forall id | OnlyReplaysNameItem(db, u, c.outbox, id) ensures ItemInStep(db, u, RowOf(c.items, id), At(c), id) {
      var i :| 0 <= i < |c.outbox| && TargetItem(c.outbox[i].m) == Some(id);
      assert IsReplay(db, u, c.outbox[i]) && Stamped(db, u, c.outbox[i].m, At(c));
    }
  }

  /** A mutation queued while the batch was under way is unknown to the server. */
  lemma {:induction false} QueuedIsNew(db: Db, u: Id, c: Client, c2: Client, s: OutboxRow)
    requires UnderWay(db, u, c, c2) && s in c2.outbox && s.status == Pending
    ensures KeyOf(u, s.m) !in db.records
  {
    var c1 := Mark(c, Sendable(c.outbox), InFlight);
    assert Descends(db, u, c1.outbox, s);
    SendableBatch(c.outbox);
    forall r ensures r in c1.outbox ==> r.status != Pending {
      WithStatusMember(c.outbox, Sendable(c.outbox), InFlight, r);
      if r in c.outbox { BatchMid(c, r); }
    }
    assert KeyOf(u, s.m) == Key(u, Op(s.m), s.m.mid);
  }

  /** A sent mutation waits again only after a refused cursor. */
  lemma {:induction false} WaitsAgain(w: World, u: Id, e: Sync, b: OutboxRow)
    requires Inv(w.db) && |e.envs| == |Sendable(w.c.outbox)| && ParsedCursor(w, u, e).replayAllowed
    ensures Refused(b, Written(w, u, e.envs, e.now).1).None? || Refused(b, Written(w, u, e.envs, e.now).1).value.status == InConflict
  {
    BatchReports(w.db, u, BatchCalls(Sendable(w.c.outbox), e.envs));
    FindConflictFinds(Written(w, u, e.envs, e.now).1, b.m.mid);
  }

  lemma {:induction false} UnsentStaysUnsent(w: World, u: Id, e: Sync, b: OutboxRow)
    requires Tracked(w.db, u, w.c) && ValidSync(w, u, e) && b in w.c.outbox
    requires KeyOf(u, b.m) !in w.db.records && !ParsedCursor(w, u, e).replayAllowed
    ensures KeyOf(u, b.m) !in AfterReads(w, u, e).records
  {
    RunRecords(w.db, e.w1, u, w.c.outbox, b);
    RunKeeps(w.db, e.w1);
    RunRecords(Run(w.db, e.w1), e.w2, u, w.c.outbox, b);
    RunKeeps(Run(w.db, e.w1), e.w2);
    RunRecords(Run(Run(w.db, e.w1), e.w2), e.w3, u, w.c.outbox, b);
  }

  lemma {:induction false} NewlyQueued(db: Db, u: Id, c: Client, c2: Client, s: OutboxRow)
    requires UnderWay(db, u, c, c2) && s in c2.outbox && IsSendable(s) && !HasMid(Sendable(c.outbox), s.m.mid)
    ensures s.status == Pending
  {
    var batch := Sendable(c.outbox);
    assert Descends(db, u, Mark(c, batch, InFlight).outbox, s);
    SendableBatch(c.outbox);
    WithStatusMember(c.outbox, batch, InFlight, s);
    forall b | b in batch ensures HasMid(batch, b.m.mid) { HasMidMember(batch, b); }
    if s in c.outbox { BatchMid(c, s); }
  }

  lemma {:induction false} RefusedIsUnsent(w: World, u: Id, e: Sync, b: OutboxRow)
    requires Tracked(w.db, u, w.c) && ValidSync(w, u, e) && Guarded(w, u, e) && b in Sendable(w.c.outbox)
    requires var refused := Refused(b, Written(w, u, e.envs, e.now).1); refused.Some? && IsSendable(refused.value)
    ensures KeyOf(u, b.m) !in AfterReads(w, u, e).records
  {
    if ParsedCursor(w, u, e).replayAllowed {
      WaitsAgain(w, u, e, b);
    } else {
      SendableMember(w.c.outbox, b);
      UnsentStaysUnsent(w, u, e, b);
    }
  }

  lemma {:induction false} NothingTakenAt(w: World, u: Id, e: Sync, s: OutboxRow)
    requires Tracked(w.db, u, w.c) && ValidSync(w, u, e) && Guarded(w, u, e)
    requires UnderWay(AfterReads(w, u, e), u, w.c, Waiting(w, e)) && IsSendable(s)
    requires s in Settle(Waiting(w, e), Sendable(w.c.outbox), Written(w, u, e.envs, e.now).1).outbox
    ensures KeyOf(u, s.m) !in AfterReads(w, u, e).records
  {
    var batch, conflicts := Sendable(w.c.outbox), Written(w, u, e.envs, e.now).1;
    assert (s in Waiting(w, e).outbox && !HasMid(batch, s.m.mid)) || exists b :: b in batch && Refused(b, conflicts) == Some(s) by {
      SettleMember(Waiting(w, e), batch, conflicts, s);
    }
    if b :| b in batch && Refused(b, conflicts) == Some(s) {
      RefusedIsUnsent(w, u, e, b);
    } else {
      NewlyQueued(AfterReads(w, u, e), u, w.c, Waiting(w, e), s);
      QueuedIsNew(AfterReads(w, u, e), u, w.c, Waiting(w, e), s);
    }
  }

  /** After a guarded sync the server has none of the mutations that wait. */
  lemma {:induction false} NothingTakenAfter(w: World, u: Id, e: Sync)
    requires Tracked(w.db, u, w.c) && ValidSync(w, u, e) && Guarded(w, u, e)
    ensures NothingTaken(SyncStep(w, u, e).db, u, SyncStep(w, u, e).c)
  {
    SyncServerSide(w, u, e);
    SyncUnderWay(AfterReads(w, u, e), u, w.c, e.edits);
    SettledOutbox(Run(Run(Written(w, u, e.envs, e.now).0, e.w1), e.w2), AfterReads(w, u, e), u, Waiting(w, e),
                  Sendable(w.c.outbox), ParsedCursor(w, u, e).sequence, ResponseTo(w, u, e));
    forall s | s in SyncStep(w, u, e).c.outbox && IsSendable(s) ensures KeyOf(u, s.m) !in AfterReads(w, u, e).records {
      NothingTakenAt(w, u, e, s);
    }
  }

  /** A sync whose cursor is accepted, or that sends nothing the server has, keeps the invariant and leaves nothing
      behind that a later sync could trip over, whatever others and the user do meanwhile. */
  lemma {:induction false} GuardedSyncKeeps(w: World, u: Id, e: Sync)
    requires WorldInv(w.db, u, w.c) && ValidSync(w, u, e) && Guarded(w, u, e)
    ensures WorldInv(SyncStep(w, u, e).db, u, SyncStep(w, u, e).c)
  {
    RedeliveredIsInStep(w.db, u, w.c);
    SyncKeepsIff(w, u, e);
    NothingTakenAfter(w, u, e);
  }
}
