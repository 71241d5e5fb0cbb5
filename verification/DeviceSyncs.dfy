/** Whole syncs of one device, with others writing between all of the server's reads and the user editing meanwhile:
    exactly when such a sync puts a row out of sight. */
module DeviceSyncs {
  import opened Basics
  import opened ShoppingLists
  import opened ShoppingListLaws
  import opened ShoppingListIdempotency
  import opened Replica
  import opened ReplicaLaws
  import opened Convergence
  import opened SyncRuns
  import opened SyncResponses

  datatype World = World(db: Db, c: Client)

  /** `w1`, `w2` and `w3` are other devices' requests committed between the batch and the sequence read, before the
      list query and before the item query; `edits` happen on the device meanwhile; `dtos` is what the queries answer. */
  datatype Sync = Sync(envs: seq<Env>, now: int, w1: seq<UserCall>, w2: seq<UserCall>, w3: seq<UserCall>,
                       edits: seq<Edit>, dtos: seq<ListDto>, issuedAt: int)

  ghost function Written(w: World, u: Id, envs: seq<Env>, now: int): (Db, seq<Conflict>)
    requires |envs| == |Sendable(w.c.outbox)|
  {
    SyncWrite(w.db, u, w.c.cursor, BatchCalls(Sendable(w.c.outbox), envs), now)
  }

  ghost function AfterReads(w: World, u: Id, e: Sync): Db
    requires |e.envs| == |Sendable(w.c.outbox)|
  {
    Run(Run(Run(Written(w, u, e.envs, e.now).0, e.w1), e.w2), e.w3)
  }

  function ParsedCursor(w: World, u: Id, e: Sync): SyncCursor {
    ParseCursor(w.db, u, w.c.cursor, e.now)
  }

  /** The sequence number the response carries. */
  ghost function ReadSequence(w: World, u: Id, e: Sync): nat
    requires |e.envs| == |Sendable(w.c.outbox)|
  {
    Seq(Run(Written(w, u, e.envs, e.now).0, e.w1), u)
  }

  ghost function ResponseTo(w: World, u: Id, e: Sync): SyncResponse
    requires |e.envs| == |Sendable(w.c.outbox)|
  {
    SyncResponse(Token(CURSOR_VERSION, u, ReadSequence(w, u, e), e.issuedAt),
                 ParsedCursor(w, u, e).sequence.None?, e.dtos, Written(w, u, e.envs, e.now).1)
  }

  /** The cursor a sync hands out is good for ninety days from when it was written, for its own account, in every later
      state; then it is refused. */
  lemma {:induction false} CursorLasts(w: World, u: Id, e: Sync, later: Db, now: int)
    requires |e.envs| == |Sendable(w.c.outbox)| && ReadSequence(w, u, e) <= Seq(later, u)
    ensures ParseCursor(later, u, Some(ResponseTo(w, u, e).cursor), now) ==
              if now <= e.issuedAt + 7776000 then SyncCursor(Some(ReadSequence(w, u, e)), true) else SyncCursor(None, false)
    ensures forall v :: v != u ==> ParseCursor(later, v, Some(ResponseTo(w, u, e).cursor), now) == SyncCursor(None, false)
  {
  }

  /** The device when the response arrives. */
  ghost function Waiting(w: World, e: Sync): Client {
    ApplyEdits(Mark(w.c, Sendable(w.c.outbox), InFlight), e.edits)
  }

  ghost function SyncStep(w: World, u: Id, e: Sync): World
    requires |e.envs| == |Sendable(w.c.outbox)|
  {
    World(AfterReads(w, u, e), ApplyResponse(Waiting(w, e), Sendable(w.c.outbox), ResponseTo(w, u, e)))
  }

  /** Edits draw new mutation ids, no other device uses this one's, and the response holds what the server's reads give. */
  ghost predicate ValidSync(w: World, u: Id, e: Sync) {
    && |e.envs| == |Sendable(w.c.outbox)|
    && NoClash(e.w1, u, w.c.outbox) && NoClash(e.w2, u, w.c.outbox) && NoClash(e.w3, u, w.c.outbox)
    && ValidEdits(AfterReads(w, u, e), u, Mark(w.c, Sendable(w.c.outbox), InFlight), e.edits)
    && Delivers(Run(Run(Written(w, u, e.envs, e.now).0, e.w1), e.w2), AfterReads(w, u, e), u, ParsedCursor(w, u, e).sequence, e.dtos)
  }

  // ---- The condition ----

  /** A mutation that is sent although the server has it already. */
  ghost predicate IsReplay(db: Db, u: Id, r: OutboxRow) {
    IsSendable(r) && Recorded(db, u, r.m)
  }

  ghost predicate OnlyReplaysNameList(db: Db, u: Id, outbox: seq<OutboxRow>, id: Id) {
    NamesList(outbox, id) && forall r :: r in outbox && TargetList(r.m) == Some(id) ==> IsReplay(db, u, r)
  }

  ghost predicate OnlyReplaysNameItem(db: Db, u: Id, outbox: seq<OutboxRow>, id: Id) {
    NamesItem(outbox, id) && forall r :: r in outbox && TargetItem(r.m) == Some(id) ==> IsReplay(db, u, r)
  }

  /** Every row that nothing but replays names is in step: a replay writes nothing, so nothing else would deliver it. */
  ghost predicate ReplaysInStep(db: Db, u: Id, c: Client) {
    && (forall id :: OnlyReplaysNameList(db, u, c.outbox, id) ==> ListInStep(db, u, RowOf(c.lists, id), At(c), id))
    && (forall id :: OnlyReplaysNameItem(db, u, c.outbox, id) ==> ItemInStep(db, u, RowOf(c.items, id), At(c), id))
  }

  /** In step before the sync, edited while the batch was under way, or written by someone before it was read. */
  ghost predicate ListKeptUp(db: Db, db': Db, u: Id, c: Client, c2: Client, id: Id) {
    || ListInStep(db, u, RowOf(c.lists, id), At(c), id)
    || EditsList(c2.outbox, id)
    || (OwnsList(db', u, id) && db'.lists[id].contentSeq > At(c))
  }

  ghost predicate ItemKeptUp(db: Db, db': Db, u: Id, c: Client, c2: Client, id: Id) {
    || ItemInStep(db, u, RowOf(c.items, id), At(c), id)
    || EditsItem(c2.outbox, id)
    || (OwnItem(db', u, id) && db'.items[id].syncSeq > At(c))
  }

  ghost predicate ReplaysKeptUp(db: Db, db': Db, u: Id, c: Client, c2: Client) {
    && (forall id :: OnlyReplaysNameList(db, u, c.outbox, id) ==> ListKeptUp(db, db', u, c, c2, id))
    && (forall id :: OnlyReplaysNameItem(db, u, c.outbox, id) ==> ItemKeptUp(db, db', u, c, c2, id))
  }

  /** The response is a snapshot, or each row that nothing but replays names has kept up. */
  ghost predicate SyncSafe(w: World, u: Id, e: Sync)
    requires |e.envs| == |Sendable(w.c.outbox)|
  {
    ParsedCursor(w, u, e).sequence.Some? ==> ReplaysKeptUp(w.db, AfterReads(w, u, e), u, w.c, Waiting(w, e))
  }

  // ---- The outbox once the batch is settled ----

  /** What the server answers: a replay is not refused, and what else is not refused has its rows stamped above `at`. */
  ghost predicate Answered(db: Db, db': Db, u: Id, batch: seq<OutboxRow>, conflicts: seq<Conflict>, at: nat) {
    && (forall b :: b in batch && Recorded(db, u, b.m) ==> Refused(b, conflicts).None?)
    && (forall b :: b in batch && Refused(b, conflicts).None? ==> Recorded(db, u, b.m) || Stamped(db', u, b.m, at))
  }

  /** A batch that is under way while the device may have been edited. */
  ghost predicate UnderWay(db: Db, u: Id, c: Client, c2: Client) {
    && UniqueMids(c.outbox) && Edited(db, u, Mark(c, Sendable(c.outbox), InFlight), c2) && Sent(c2, Sendable(c.outbox))
  }

  lemma {:induction false} BatchMid(c: Client, r: OutboxRow)
    requires UniqueMids(c.outbox) && r in c.outbox
    ensures HasMid(Sendable(c.outbox), r.m.mid) <==> IsSendable(r)
  {
    var batch := Sendable(c.outbox);
    SendableBatch(c.outbox);
    if IsSendable(r) { HasMidMember(batch, r); }
    if HasMid(batch, r.m.mid) {
      var i :| 0 <= i < |batch| && batch[i].m.mid == r.m.mid;
      assert batch[i] in batch;
    }
  }

  /** A mutation that waited before still waits, unless it was sent and not refused. */
  lemma {:induction false} StillWaits(db: Db, u: Id, c: Client, c2: Client, conflicts: seq<Conflict>, r: OutboxRow)
    requires UnderWay(db, u, c, c2) && r in c.outbox && !(IsSendable(r) && Refused(r, conflicts).None?)
    ensures exists s :: s in Settle(c2, Sendable(c.outbox), conflicts).outbox && s.m == r.m
  {
    var batch := Sendable(c.outbox);
    SendableBatch(c.outbox);
    BatchMid(c, r);
    if IsSendable(r) {
      SettleMember(c2, batch, conflicts, Refused(r, conflicts).value);
    } else {
      WithStatusMember(c.outbox, batch, InFlight, r);
      SettleMember(c2, batch, conflicts, r);
    }
  }

  /** What waits afterwards was queued meanwhile, or waited before and was not both sent and accepted. */
  lemma {:induction false} WaitedOrQueued(db: Db, u: Id, c: Client, c2: Client, conflicts: seq<Conflict>, s: OutboxRow)
    requires UnderWay(db, u, c, c2) && s in Settle(c2, Sendable(c.outbox), conflicts).outbox
    ensures (s.status == Pending && s in c2.outbox)
            || exists r :: r in c.outbox && r.m == s.m && !(IsSendable(r) && Refused(r, conflicts).None?)
  {
    var batch := Sendable(c.outbox);
    SendableBatch(c.outbox);
    SettleMember(c2, batch, conflicts, s);
    if s in c2.outbox && !HasMid(batch, s.m.mid) && s.status != Pending {
      assert Descends(db, u, Mark(c, batch, InFlight).outbox, s);
      WithStatusMember(c.outbox, batch, InFlight, s);
      forall b | b in batch ensures HasMid(batch, b.m.mid) { HasMidMember(batch, b); }
      BatchMid(c, s);
    }
  }

  lemma {:induction false} OtherMids(batch: seq<OutboxRow>, mid: Id)
    requires forall b :: b in batch ==> b.m.mid != mid
    ensures !HasMid(batch, mid)
  {
    forall i | 0 <= i < |batch| ensures batch[i].m.mid != mid { assert batch[i] in batch; }
  }

  lemma {:induction false} QueuedSurvives(db: Db, u: Id, c: Client, c2: Client, conflicts: seq<Conflict>, s: OutboxRow)
    requires UnderWay(db, u, c, c2) && s in c2.outbox && s.status == Pending
    ensures s in Settle(c2, Sendable(c.outbox), conflicts).outbox
  {
    var batch := Sendable(c.outbox);
    forall b | b in batch ensures b.m.mid != s.m.mid { assert b.(status := InFlight) in c2.outbox; }
    OtherMids(batch, s.m.mid);
    SettleMember(c2, batch, conflicts, s);
  }

  /** A list keeps its name unless nothing but replays named it and it was not edited meanwhile, or its row was just stamped. */
  lemma {:induction false} ListKeepsName(db: Db, db': Db, u: Id, c: Client, c2: Client, conflicts: seq<Conflict>, id: Id)
    requires UnderWay(db', u, c, c2) && Answered(db, db', u, Sendable(c.outbox), conflicts, At(c))
    ensures var settled := Settle(c2, Sendable(c.outbox), conflicts).outbox;
            && (EditsList(c2.outbox, id) ==> NamesList(settled, id))
            && (NamesList(c.outbox, id) && !OnlyReplaysNameList(db, u, c.outbox, id) ==>
                  NamesList(settled, id) || (OwnsList(db', u, id) && db'.lists[id].contentSeq > At(c)))
  {
    var settled := Settle(c2, Sendable(c.outbox), conflicts).outbox;
    if EditsList(c2.outbox, id) {
      var s :| s in c2.outbox && s.status == Pending && TargetList(s.m) == Some(id);
      QueuedSurvives(db', u, c, c2, conflicts, s);
      NamesListBy(settled, s, id);
    }
    if NamesList(c.outbox, id) && !OnlyReplaysNameList(db, u, c.outbox, id) {
      var r :| r in c.outbox && TargetList(r.m) == Some(id) && !IsReplay(db, u, r);
      if IsSendable(r) && Refused(r, conflicts).None? {
        SendableMember(c.outbox, r);
      } else {
        StillWaits(db', u, c, c2, conflicts, r);
        var s :| s in settled && s.m == r.m;
        NamesListBy(settled, s, id);
      }
    }
  }

  lemma {:induction false} ListLosesName(db: Db, db': Db, u: Id, c: Client, c2: Client, conflicts: seq<Conflict>, id: Id)
    requires UnderWay(db', u, c, c2) && Answered(db, db', u, Sendable(c.outbox), conflicts, At(c))
    requires NamesList(Settle(c2, Sendable(c.outbox), conflicts).outbox, id) && !EditsList(c2.outbox, id)
    ensures NamesList(c.outbox, id) && !OnlyReplaysNameList(db, u, c.outbox, id)
  {
    var settled := Settle(c2, Sendable(c.outbox), conflicts).outbox;
    var i :| 0 <= i < |settled| && TargetList(settled[i].m) == Some(id);
    WaitedOrQueued(db', u, c, c2, conflicts, settled[i]);
    var r :| r in c.outbox && r.m == settled[i].m && !(IsSendable(r) && Refused(r, conflicts).None?);
    SendableMember(c.outbox, r);
    NamesListBy(c.outbox, r, id);
  }

  lemma {:induction false} ItemKeepsName(db: Db, db': Db, u: Id, c: Client, c2: Client, conflicts: seq<Conflict>, id: Id)
    requires UnderWay(db', u, c, c2) && Answered(db, db', u, Sendable(c.outbox), conflicts, At(c))
    ensures var settled := Settle(c2, Sendable(c.outbox), conflicts).outbox;
            && (EditsItem(c2.outbox, id) ==> NamesItem(settled, id))
            && (NamesItem(c.outbox, id) && !OnlyReplaysNameItem(db, u, c.outbox, id) ==>
                  NamesItem(settled, id) || (OwnItem(db', u, id) && db'.items[id].syncSeq > At(c)))
  {
    var settled := Settle(c2, Sendable(c.outbox), conflicts).outbox;
    if EditsItem(c2.outbox, id) {
      var s :| s in c2.outbox && s.status == Pending && TargetItem(s.m) == Some(id);
      QueuedSurvives(db', u, c, c2, conflicts, s);
      NamesItemBy(settled, s, id);
    }
    if NamesItem(c.outbox, id) && !OnlyReplaysNameItem(db, u, c.outbox, id) {
      var r :| r in c.outbox && TargetItem(r.m) == Some(id) && !IsReplay(db, u, r);
      if IsSendable(r) && Refused(r, conflicts).None? {
        SendableMember(c.outbox, r);
      } else {
        StillWaits(db', u, c, c2, conflicts, r);
        var s :| s in settled && s.m == r.m;
        NamesItemBy(settled, s, id);
      }
    }
  }

  lemma {:induction false} ItemLosesName(db: Db, db': Db, u: Id, c: Client, c2: Client, conflicts: seq<Conflict>, id: Id)
    requires UnderWay(db', u, c, c2) && Answered(db, db', u, Sendable(c.outbox), conflicts, At(c))
    requires NamesItem(Settle(c2, Sendable(c.outbox), conflicts).outbox, id) && !EditsItem(c2.outbox, id)
    ensures NamesItem(c.outbox, id) && !OnlyReplaysNameItem(db, u, c.outbox, id)
  {
    var settled := Settle(c2, Sendable(c.outbox), conflicts).outbox;
    var i :| 0 <= i < |settled| && TargetItem(settled[i].m) == Some(id);
    WaitedOrQueued(db', u, c, c2, conflicts, settled[i]);
    var r :| r in c.outbox && r.m == settled[i].m && !(IsSendable(r) && Refused(r, conflicts).None?);
    SendableMember(c.outbox, r);
    NamesItemBy(c.outbox, r, id);
  }

  // ---- A full sync ----

  lemma {:induction false} SyncServerSide(w: World, u: Id, e: Sync)
    requires Tracked(w.db, u, w.c) && ValidSync(w, u, e)
    ensures var db1 := Written(w, u, e.envs, e.now).0;
            var dbS := Run(db1, e.w1);
            && Advances(w.db, db1) && Advances(db1, AfterReads(w, u, e)) && Advances(w.db, AfterReads(w, u, e))
            && Reads(Run(dbS, e.w2), AfterReads(w, u, e), u, ReadSequence(w, u, e))
            && Tracked(AfterReads(w, u, e), u, w.c) && At(w.c) <= ReadSequence(w, u, e)
  {
    var db1 := Written(w, u, e.envs, e.now).0;
    var dbS := Run(db1, e.w1);
    var dbL := Run(dbS, e.w2);
    WriteKeeps(w.db, u, w.c, e.envs, e.now);
    OthersTrack(db1, u, w.c, e.w1);
    OthersTrack(dbS, u, w.c, e.w2);
    OthersTrack(dbL, u, w.c, e.w3);
    RunKeeps(db1, e.w1);
    RunKeeps(dbS, e.w2);
    RunKeeps(dbL, e.w3);
    AdvancesTransitive(db1, dbS, dbL);
    AdvancesTransitive(db1, dbL, AfterReads(w, u, e));
    AdvancesTransitive(w.db, db1, AfterReads(w, u, e));
  }

  lemma {:induction false} ReportedIffRefused(b: OutboxRow, conflicts: seq<Conflict>)
    ensures Refused(b, conflicts).Some? <==> Reported(conflicts, b.m.mid)
  {
    FindConflictFinds(conflicts, b.m.mid);
  }

  lemma {:induction false} BatchAnswered(w: World, u: Id, e: Sync)
    requires Tracked(w.db, u, w.c) && ValidSync(w, u, e) && ParsedCursor(w, u, e).sequence.Some?
    requires Advances(Written(w, u, e.envs, e.now).0, AfterReads(w, u, e))
    ensures Answered(w.db, AfterReads(w, u, e), u, Sendable(w.c.outbox), Written(w, u, e.envs, e.now).1, At(w.c))
  {
    var batch := Sendable(w.c.outbox);
    var calls := BatchCalls(batch, e.envs);
    var (db1, conflicts) := Written(w, u, e.envs, e.now);
    BatchIsUnique(w.c.outbox, e.envs);
    forall b | b in batch
      ensures Recorded(w.db, u, b.m) ==> Refused(b, conflicts).None?
      ensures Refused(b, conflicts).None? ==> Recorded(w.db, u, b.m) || Stamped(AfterReads(w, u, e), u, b.m, At(w.c))
    {
      var i :| 0 <= i < |batch| && batch[i] == b;
      assert calls[i].m == b.m;
      BatchAnswers(w.db, u, calls, i);
      ReportedIffRefused(b, conflicts);
      if Stamped(db1, u, b.m, Seq(w.db, u)) { StampedAdvances(db1, AfterReads(w, u, e), u, b.m, At(w.c)); }
    }
  }

  /** After a delta, exactly the lists that nothing but replays named and that have not kept up are out of sight. */
  lemma {:induction false} SyncListIff(db: Db, db': Db, u: Id, c: Client, c2: Client, conflicts: seq<Conflict>, id: Id)
    requires Tracked(db, u, c) && Advances(db, db')
    requires UnderWay(db', u, c, c2) && Answered(db, db', u, Sendable(c.outbox), conflicts, At(c))
    ensures NamesList(Settle(c2, Sendable(c.outbox), conflicts).outbox, id) || ListInStep(db', u, RowOf(c2.lists, id), At(c2), id)
            <==> (OnlyReplaysNameList(db, u, c.outbox, id) ==> ListKeptUp(db, db', u, c, c2, id))
  {
    ListKeepsName(db, db', u, c, c2, conflicts, id);
    ListTrackedIff(db, u, c, id);
    assert ListTracked(db, u, c, id) && NoStrayList(db, u, c, id);
    ListInStepLater(db, db', u, RowOf(c.lists, id), At(c), id);
    if !EditsList(c2.outbox, id) {
      assert SameAt(c.lists, c2.lists, id);
      if NamesList(Settle(c2, Sendable(c.outbox), conflicts).outbox, id) { ListLosesName(db, db', u, c, c2, conflicts, id); }
    }
  }

  lemma {:induction false} SyncItemIff(db: Db, db': Db, u: Id, c: Client, c2: Client, conflicts: seq<Conflict>, id: Id)
    requires Tracked(db, u, c) && Advances(db, db')
    requires UnderWay(db', u, c, c2) && Answered(db, db', u, Sendable(c.outbox), conflicts, At(c))
    ensures NamesItem(Settle(c2, Sendable(c.outbox), conflicts).outbox, id) || ItemInStep(db', u, RowOf(c2.items, id), At(c2), id)
            <==> (OnlyReplaysNameItem(db, u, c.outbox, id) ==> ItemKeptUp(db, db', u, c, c2, id))
  {
    ItemKeepsName(db, db', u, c, c2, conflicts, id);
    ItemTrackedIff(db, u, c, id);
    assert ItemTracked(db, u, c, id) && NoStrayItem(db, u, c, id);
    ItemInStepLater(db, db', u, RowOf(c.items, id), At(c), id);
    if !EditsItem(c2.outbox, id) {
      assert SameAt(c.items, c2.items, id);
      if NamesItem(Settle(c2, Sendable(c.outbox), conflicts).outbox, id) { ItemLosesName(db, db', u, c, c2, conflicts, id); }
    }
  }

  lemma {:induction false} SettledLeavesIff(db: Db, db': Db, u: Id, c: Client, c2: Client, conflicts: seq<Conflict>)
    requires Tracked(db, u, c) && Advances(db, db')
    requires UnderWay(db', u, c, c2) && Answered(db, db', u, Sendable(c.outbox), conflicts, At(c))
    ensures LeavesInSight(db', u, c2, Settle(c2, Sendable(c.outbox), conflicts).outbox) <==> ReplaysKeptUp(db, db', u, c, c2)
  {
    var settled := Settle(c2, Sendable(c.outbox), conflicts).outbox;
    forall id ensures NamesList(settled, id) || ListInStep(db', u, RowOf(c2.lists, id), At(c2), id)
                      <==> (OnlyReplaysNameList(db, u, c.outbox, id) ==> ListKeptUp(db, db', u, c, c2, id))
    {
      SyncListIff(db, db', u, c, c2, conflicts, id);
    }
    forall id ensures NamesItem(settled, id) || ItemInStep(db', u, RowOf(c2.items, id), At(c2), id)
                      <==> (OnlyReplaysNameItem(db, u, c.outbox, id) ==> ItemKeptUp(db, db', u, c, c2, id))
    {
      SyncItemIff(db, db', u, c, c2, conflicts, id);
    }
  }

  lemma {:induction false} SyncLeavesIff(w: World, u: Id, e: Sync)
    requires Tracked(w.db, u, w.c) && ValidSync(w, u, e)
    requires Advances(Written(w, u, e.envs, e.now).0, AfterReads(w, u, e)) && Advances(w.db, AfterReads(w, u, e))
    requires UnderWay(AfterReads(w, u, e), u, w.c, Waiting(w, e))
    ensures ParsedCursor(w, u, e).sequence.None?
            || LeavesInSight(AfterReads(w, u, e), u, Waiting(w, e),
                             Settle(Waiting(w, e), Sendable(w.c.outbox), Written(w, u, e.envs, e.now).1).outbox)
            <==> SyncSafe(w, u, e)
  {
    if ParsedCursor(w, u, e).sequence.Some? {
      BatchAnswered(w, u, e);
      SettledLeavesIff(w.db, AfterReads(w, u, e), u, w.c, Waiting(w, e), Written(w, u, e.envs, e.now).1);
    }
  }

  lemma {:induction false} SyncUnderWay(db': Db, u: Id, c: Client, edits: seq<Edit>)
    requires Tracked(db', u, c) && ValidEdits(db', u, Mark(c, Sendable(c.outbox), InFlight), edits)
    ensures var c2 := ApplyEdits(Mark(c, Sendable(c.outbox), InFlight), edits);
            UnderWay(db', u, c, c2) && At(c2) == At(c)
  {
    InFlightKeeps(db', u, c, edits);
  }

  lemma {:induction false} SyncAnswering(w: World, u: Id, e: Sync)
    requires Tracked(w.db, u, w.c) && ValidSync(w, u, e) && At(w.c) <= ReadSequence(w, u, e) && At(Waiting(w, e)) == At(w.c)
    requires Reads(Run(Run(Written(w, u, e.envs, e.now).0, e.w1), e.w2), AfterReads(w, u, e), u, ReadSequence(w, u, e))
    ensures Answering(Run(Run(Written(w, u, e.envs, e.now).0, e.w1), e.w2), AfterReads(w, u, e), u, ReadSequence(w, u, e),
                      Waiting(w, e), ParsedCursor(w, u, e).sequence, ResponseTo(w, u, e))
  {
  }

  // ---- Main results ----

  /** A whole sync, whatever others and the user do meanwhile, keeps every differing row in sight if and only if it
      answers with a snapshot or each row that nothing but replays names has kept up. */
  lemma {:induction false} SyncKeepsIff(w: World, u: Id, e: Sync)
    requires Tracked(w.db, u, w.c) && ValidSync(w, u, e)
    ensures Tracked(SyncStep(w, u, e).db, u, SyncStep(w, u, e).c) <==> SyncSafe(w, u, e)
  {
    SyncServerSide(w, u, e);
    SyncUnderWay(AfterReads(w, u, e), u, w.c, e.edits);
    SyncAnswering(w, u, e);
    ResponseTracksIff(Run(Run(Written(w, u, e.envs, e.now).0, e.w1), e.w2), AfterReads(w, u, e), u, ReadSequence(w, u, e),
                      Waiting(w, e), Sendable(w.c.outbox), ParsedCursor(w, u, e).sequence, ResponseTo(w, u, e));
    SyncLeavesIff(w, u, e);
  }

  /** A sync whose cursor is refused never puts a row out of sight: it answers with a snapshot and keeps every mutation. */
  lemma {:induction false} RefusedSyncKeeps(w: World, u: Id, e: Sync)
    requires Tracked(w.db, u, w.c) && ValidSync(w, u, e) && !ParsedCursor(w, u, e).replayAllowed
    ensures Tracked(SyncStep(w, u, e).db, u, SyncStep(w, u, e).c)
  {
    SyncKeepsIff(w, u, e);
  }
}
