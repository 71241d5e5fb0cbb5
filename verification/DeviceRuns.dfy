/** Runs of one device: edits, lost responses, resends, syncs that read while others write, conflicts, and lists
    fetched outside the sync. */
module DeviceRuns {
  import opened Basics
  import opened ShoppingLists
  import opened ShoppingListLaws
  import opened ShoppingListIdempotency
  import opened Replica
  import opened ReplicaLaws
  import opened Convergence
  import opened Discards
  import opened ServerLists
  import opened SyncRuns
  import opened SyncResponses
  import opened DeviceSyncs
  import opened SyncConditions

  datatype Event =
    | Others(calls: seq<UserCall>)
    | LocalEdit(edit: Edit)
    | LostSync(envs: seq<Env>, now: int, edits: seq<Edit>, killed: bool)
    | FullSync(sync: Sync)
    | ResolveKeepLocal(mid: Id, newMid: Id)
    | ResolveTakeServer(mid: Id)
    | StoreServerList(dto: ListDto)

  /** Drawn mutation ids are new, and other devices do not use this one's. */
  ghost predicate Possible(w: World, u: Id, e: Event) {
    match e
    case Others(calls) => NoClash(calls, u, w.c.outbox)
    case LocalEdit(edit) => FreshMid(w.db, u, w.c.outbox, edit.mid)
    case LostSync(envs, now, edits, killed) =>
      && |envs| == |Sendable(w.c.outbox)|
      && ValidEdits(Written(w, u, envs, now).0, u, Mark(w.c, Sendable(w.c.outbox), InFlight), edits)
    case FullSync(sync) => ValidSync(w, u, sync)
    case ResolveKeepLocal(mid, newMid) => FreshMid(w.db, u, w.c.outbox, newMid)
    case ResolveTakeServer(mid) => true
    case StoreServerList(dto) => true
  }

  /** The three events that can put a row out of sight, and when they do not. */
  ghost predicate Safe(w: World, u: Id, e: Event)
    requires Possible(w, u, e)
  {
    match e
    case FullSync(sync) => SyncSafe(w, u, sync)
    case ResolveTakeServer(mid) => DiscardSafe(w.db, u, w.c, mid)
    case StoreServerList(dto) => PersistSafe(w.db, u, w.c, dto)
    case _ => true
  }

  ghost function Step(w: World, u: Id, e: Event): World
    requires Possible(w, u, e)
  {
    match e
    case Others(calls) => World(Run(w.db, calls), w.c)
    case LocalEdit(edit) => World(w.db, ApplyEdit(w.c, edit))
    case LostSync(envs, now, edits, killed) => World(Written(w, u, envs, now).0, LoseResponse(w.c, edits, killed))
    case FullSync(sync) => SyncStep(w, u, sync)
    case ResolveKeepLocal(mid, newMid) => World(w.db, KeepLocal(w.c, mid, newMid))
    case ResolveTakeServer(mid) => World(w.db, TakeServer(w.c, mid))
    case StoreServerList(dto) => World(w.db, PersistServerList(w.c, dto))
  }

  // ---- Keeping the local version of a conflict ----

  lemma {:induction false} ReplaceMember(outbox: seq<OutboxRow>, mid: Id, row: OutboxRow, r: OutboxRow)
    ensures r in Replace(outbox, mid, row) ==> r == row || (r in outbox && r.m.mid != mid)
    ensures r in outbox ==> (if r.m.mid == mid then row else r) in Replace(outbox, mid, row)
  {
    var result := Replace(outbox, mid, row);
    if r in outbox {
      var i :| 0 <= i < |outbox| && outbox[i] == r;
      assert result[i] in result;
    }
  }

  lemma {:induction false} KeepLocalKeeps(db: Db, u: Id, c: Client, mid: Id, newMid: Id)
    requires Tracked(db, u, c) && FreshMid(db, u, c.outbox, newMid)
    ensures var c' := KeepLocal(c, mid, newMid);
            Tracked(db, u, c') && (Redelivers(db, u, c) ==> Redelivers(db, u, c'))
  {
    var c' := KeepLocal(c, mid, newMid);
    FoundRow(c.outbox, mid);
    if mid in c.conflicts && FindRow(c.outbox, mid).Some? {
      var prior := FindRow(c.outbox, mid).value;
      var row := OutboxRow(Renewed(prior.m, newMid, c.conflicts[mid].server), Pending);
      forall r ensures (r in c'.outbox ==> r == row || (r in c.outbox && r.m.mid != mid)) &&
                       (r in c.outbox ==> (if r.m.mid == mid then row else r) in c'.outbox)
      {
        ReplaceMember(c.outbox, mid, row, r);
        if r in c.outbox { HasMidMember(c.outbox, r); }
      }
      forall r | r in c.outbox ensures r.m.mid != newMid { HasMidMember(c.outbox, r); }
      RenamedKeeps(db, u, c, c', prior, row);
    } else {
      SameWaitingKeeps(db, u, c, c');
    }
  }

  lemma {:induction false} RenamedKeeps(db: Db, u: Id, c: Client, c': Client, prior: OutboxRow, row: OutboxRow)
    requires Tracked(db, u, c) && c'.lists == c.lists && c'.items == c.items && c'.cursor == c.cursor
    requires prior in c.outbox && TargetList(prior.m) == TargetList(row.m) && TargetItem(prior.m) == TargetItem(row.m)
    requires KeyOf(u, row.m) !in db.records && forall r :: r in c.outbox ==> r.m.mid != row.m.mid
    requires forall r :: r in c'.outbox ==> r == row || (r in c.outbox && r.m.mid != prior.m.mid)
    requires forall r :: r in c.outbox ==> (if r.m.mid == prior.m.mid then row else r) in c'.outbox
    ensures Tracked(db, u, c') && (Redelivers(db, u, c) ==> Redelivers(db, u, c'))
  {
    forall id ensures NamesList(c.outbox, id) ==> NamesList(c'.outbox, id) {
      if NamesList(c.outbox, id) {
        var i :| 0 <= i < |c.outbox| && TargetList(c.outbox[i].m) == Some(id);
        var r := c.outbox[i];
        assert r.m.mid == prior.m.mid ==> r == prior;
        NamesListBy(c'.outbox, if r.m.mid == prior.m.mid then row else r, id);
      }
    }
    forall id ensures NamesItem(c.outbox, id) ==> NamesItem(c'.outbox, id) {
      if NamesItem(c.outbox, id) {
        var i :| 0 <= i < |c.outbox| && TargetItem(c.outbox[i].m) == Some(id);
        var r := c.outbox[i];
        assert r.m.mid == prior.m.mid ==> r == prior;
        NamesItemBy(c'.outbox, if r.m.mid == prior.m.mid then row else r, id);
      }
    }
    forall id ensures ListTracked(db, u, c', id) && NoStrayList(db, u, c', id) {
      assert ListTracked(db, u, c, id) && NoStrayList(db, u, c, id);
    }
    forall id ensures ItemTracked(db, u, c', id) && NoStrayItem(db, u, c', id) {
      assert ItemTracked(db, u, c, id) && NoStrayItem(db, u, c, id);
    }
  }

  // ---- Runs ----

  /** Each step keeps every differing row in sight, but for the three that can lose one; those keep it exactly when they are safe. */
  lemma {:induction false} StepKeepsIff(w: World, u: Id, e: Event)
    requires Tracked(w.db, u, w.c) && Possible(w, u, e)
    ensures Tracked(Step(w, u, e).db, u, Step(w, u, e).c) <==> Safe(w, u, e)
  {
    match e
    case Others(calls) => OthersTrack(w.db, u, w.c, calls);
    case LocalEdit(edit) =>
      assert ValidEdits(w.db, u, w.c, [edit]);
      EditsTrack(w.db, u, w.c, [edit]);
      assert ApplyEdits(w.c, [edit]) == ApplyEdits(ApplyEdit(w.c, edit), []);
    case LostSync(envs, now, edits, killed) => LostResponseKeeps(w.db, u, w.c, envs, now, edits, killed);
    case FullSync(sync) => SyncKeepsIff(w, u, sync);
    case ResolveKeepLocal(mid, newMid) => KeepLocalKeeps(w.db, u, w.c, mid, newMid);
    case ResolveTakeServer(mid) => DiscardKeepsIff(w.db, u, w.c, mid);
    case StoreServerList(dto) => PersistKeepsIff(w.db, u, w.c, dto);
  }

  /** `ws` is the sequence of worlds the events lead through. */
  ghost predicate IsRun(ws: seq<World>, u: Id, es: seq<Event>) {
    && |ws| == |es| + 1
    && forall i :: 0 <= i < |es| ==> Possible(ws[i], u, es[i]) && ws[i + 1] == Step(ws[i], u, es[i])
  }

  /** A device that has never synced starts within the invariant, whatever the server holds. */
  lemma {:induction false} NewDevice(db: Db, u: Id)
    requires Inv(db)
    ensures WorldInv(db, u, Client(map[], map[], [], map[], None))
  {
    var c := Client(map[], map[], [], map[], None);
    forall id ensures ListTracked(db, u, c, id) { if id in db.lists { assert ValidList(db, id); } }
    forall id ensures ItemTracked(db, u, c, id) { if id in db.items { assert ValidItem(db, id); } }
  }

  lemma {:induction false} SafeSoFar(ws: seq<World>, u: Id, es: seq<Event>, k: nat)
    requires IsRun(ws, u, es) && Tracked(ws[0].db, u, ws[0].c) && k < |ws|
    requires forall i :: 0 <= i < k ==> Safe(ws[i], u, es[i])
    ensures Tracked(ws[k].db, u, ws[k].c)
  {
    if k > 0 {
      SafeSoFar(ws, u, es, k - 1);
      StepKeepsIff(ws[k - 1], u, es[k - 1]);
    }
  }

  /** No change is ever lost: in every state of a run, a row where the device and the server differ is named by the
      outbox or will be delivered, because its sequence number lies above the cursor. Over all runs of the device and
      the others this holds throughout if and only if each of the three risky steps was taken when it was safe. */
  lemma {:induction false} NoChangeIsLost(ws: seq<World>, u: Id, es: seq<Event>)
    requires IsRun(ws, u, es) && Tracked(ws[0].db, u, ws[0].c)
    ensures (forall k :: 0 <= k < |ws| ==> Tracked(ws[k].db, u, ws[k].c))
            <==> (forall i :: 0 <= i < |es| ==> Safe(ws[i], u, es[i]))
  {
    if forall i :: 0 <= i < |es| ==> Safe(ws[i], u, es[i]) {
      forall k | 0 <= k < |ws| ensures Tracked(ws[k].db, u, ws[k].c) { SafeSoFar(ws, u, es, k); }
    }
    if forall k :: 0 <= k < |ws| ==> Tracked(ws[k].db, u, ws[k].c) {
      forall i | 0 <= i < |es| ensures Safe(ws[i], u, es[i]) {
        assert Tracked(ws[i].db, u, ws[i].c) && Tracked(ws[i + 1].db, u, ws[i + 1].c);
        StepKeepsIff(ws[i], u, es[i]);
      }
    }
  }

  // ---- Guarded runs ----

  /** No sync with a refused cursor sends what the server has, and the other risky steps are safe. */
  ghost predicate GuardedStep(w: World, u: Id, e: Event)
    requires Possible(w, u, e)
  {
    match e
    case FullSync(sync) => Guarded(w, u, sync)
    case _ => Safe(w, u, e)
  }

  lemma {:induction false} GuardedStepKeeps(w: World, u: Id, e: Event)
    requires WorldInv(w.db, u, w.c) && Possible(w, u, e) && GuardedStep(w, u, e)
    ensures WorldInv(Step(w, u, e).db, u, Step(w, u, e).c)
  {
    match e
    case Others(calls) => OthersKeep(w.db, u, w.c, calls);
    case LocalEdit(edit) =>
      assert ValidEdits(w.db, u, w.c, [edit]);
      EditsKeep(w.db, u, w.c, [edit]);
      assert ApplyEdits(w.c, [edit]) == ApplyEdits(ApplyEdit(w.c, edit), []);
    case LostSync(envs, now, edits, killed) => LostResponseKeeps(w.db, u, w.c, envs, now, edits, killed);
    case FullSync(sync) => GuardedSyncKeeps(w, u, sync);
    case ResolveKeepLocal(mid, newMid) => KeepLocalKeeps(w.db, u, w.c, mid, newMid);
    case ResolveTakeServer(mid) => DiscardKeepsIff(w.db, u, w.c, mid);
    case StoreServerList(dto) => PersistKeepsIff(w.db, u, w.c, dto);
  }

  /** A run in which no sync with a refused cursor sends a mutation the server already has, and whose other risky steps
      are safe, never loses a change: with that guard no sync of the run, accepted or refused, needs another condition. */
  lemma {:induction false} GuardedRunsLoseNothing(ws: seq<World>, u: Id, es: seq<Event>, k: nat)
    requires IsRun(ws, u, es) && WorldInv(ws[0].db, u, ws[0].c) && k < |ws|
    requires forall i :: 0 <= i < |es| ==> GuardedStep(ws[i], u, es[i])
    ensures WorldInv(ws[k].db, u, ws[k].c)
  {
    if k > 0 {
      GuardedRunsLoseNothing(ws, u, es, k - 1);
      GuardedStepKeeps(ws[k - 1], u, es[k - 1]);
    }
  }

  // ---- Convergence ----

  /** The replica is exactly the server's rows of the account. */
  ghost predicate Converged(db: Db, u: Id, c: Client) {
    && (forall id :: id in c.lists <==> OwnsList(db, u, id))
    && (forall id :: OwnsList(db, u, id) ==> ListMirrors(c.lists[id], db.lists[id]))
    && (forall id :: id in c.items <==> OwnItem(db, u, id))
    && (forall id :: OwnItem(db, u, id) ==> ItemMirrors(c.items[id], db.items[id]))
  }

  lemma {:induction false} CaughtUpList(db: Db, u: Id, lists: map<Id, LocalList>, id: Id)
    requires Inv(db)
    ensures ListInStep(db, u, RowOf(lists, id), Seq(db, u), id) <==>
            (id in lists <==> OwnsList(db, u, id)) && (OwnsList(db, u, id) ==> ListMirrors(lists[id], db.lists[id]))
  {
    if OwnsList(db, u, id) { assert ValidList(db, id); }
  }

  lemma {:induction false} CaughtUpItem(db: Db, u: Id, items: map<Id, LocalItem>, id: Id)
    requires Inv(db)
    ensures ItemInStep(db, u, RowOf(items, id), Seq(db, u), id) <==>
            (id in items <==> OwnItem(db, u, id)) &&
            (OwnItem(db, u, id) ==> ItemMirrors(items[id], db.items[id]))
  {
    if OwnItem(db, u, id) { assert ValidItem(db, id) && ValidList(db, db.items[id].listId); }
  }

  /** For a device with nothing to send, whose cursor is the account's current sequence, in sight means equal. */
  lemma {:induction false} CaughtUpIff(db: Db, u: Id, c: Client)
    requires Inv(db) && c.outbox == [] && At(c) == Seq(db, u)
    ensures Tracks(db, u, c) <==> Converged(db, u, c)
  {
    TracksIff(db, u, c);
    if Tracks(db, u, c) {
      forall id ensures (id in c.lists <==> OwnsList(db, u, id)) && (OwnsList(db, u, id) ==> ListMirrors(c.lists[id], db.lists[id])) {
        CaughtUpList(db, u, c.lists, id);
      }
      forall id ensures (id in c.items <==> OwnItem(db, u, id)) &&
                        (OwnItem(db, u, id) ==> ItemMirrors(c.items[id], db.items[id]))
      {
        CaughtUpItem(db, u, c.items, id);
      }
    }
    if Converged(db, u, c) {
      forall id ensures ListInStep(db, u, RowOf(c.lists, id), At(c), id) { CaughtUpList(db, u, c.lists, id); }
      forall id ensures ItemInStep(db, u, RowOf(c.items, id), At(c), id) { CaughtUpItem(db, u, c.items, id); }
    }
  }

  lemma {:induction false} UnmarkedRow(outbox: seq<OutboxRow>, batch: seq<OutboxRow>, status: SendStatus, r: OutboxRow)
    requires UniqueMids(batch) && r in WithStatus(outbox, batch, status) && !HasMid(batch, r.m.mid)
    ensures r in outbox
  {
    WithStatusMember(outbox, batch, status, r);
    forall b | b in batch ensures HasMid(batch, b.m.mid) { HasMidMember(batch, b); }
  }

  lemma {:induction false} AcceptedSyncEmpties(w: World, u: Id, e: Sync)
    requires UniqueMids(w.c.outbox) && ValidSync(w, u, e) && e.edits == []
    requires Written(w, u, e.envs, e.now).1 == [] && forall r :: r in w.c.outbox ==> IsSendable(r)
    ensures SyncStep(w, u, e).c.outbox == []
  {
    var batch := Sendable(w.c.outbox);
    var c1 := Mark(w.c, batch, InFlight);
    SendableBatch(w.c.outbox);
    SettledOutbox(Run(Run(Written(w, u, e.envs, e.now).0, e.w1), e.w2), AfterReads(w, u, e), u, c1, batch,
                  ParsedCursor(w, u, e).sequence, ResponseTo(w, u, e));
    if SyncStep(w, u, e).c.outbox != [] {
      var r := SyncStep(w, u, e).c.outbox[0];
      SettleMember(c1, batch, [], r);
      UnmarkedRow(w.c.outbox, batch, InFlight, r);
      HasMidMember(batch, r);
    }
  }

  /** After an undisturbed sync in which nothing is refused, in sight means equal. */
  lemma {:induction false} AcceptedSyncIff(w: World, u: Id, e: Sync)
    requires Tracked(w.db, u, w.c) && ValidSync(w, u, e) && Quiet(e)
    requires Written(w, u, e.envs, e.now).1 == [] && forall r :: r in w.c.outbox ==> IsSendable(r)
    ensures SyncStep(w, u, e).c.outbox == []
    ensures Converged(SyncStep(w, u, e).db, u, SyncStep(w, u, e).c) <==> SyncSafe(w, u, e)
  {
    AcceptedSyncEmpties(w, u, e);
    SyncServerSide(w, u, e);
    SyncKeepsIff(w, u, e);
    CaughtUpIff(SyncStep(w, u, e).db, u, SyncStep(w, u, e).c);
  }

  /** One undisturbed sync in which nothing is refused ends a run of any length with an empty outbox. The replica then
      equals the server's rows if and only if the sync answered with a snapshot, or every row that nothing but replays
      named was in step before it. */
  lemma {:induction false} SyncConvergesIff(w: World, u: Id, e: Sync)
    requires Tracked(w.db, u, w.c) && ValidSync(w, u, e) && Quiet(e) && FreshDraws(e.envs, w.c.outbox)
    requires Written(w, u, e.envs, e.now).1 == [] && forall r :: r in w.c.outbox ==> IsSendable(r)
    ensures SyncStep(w, u, e).c.outbox == []
    ensures Converged(SyncStep(w, u, e).db, u, SyncStep(w, u, e).c)
            <==> ParsedCursor(w, u, e).sequence.None? || ReplaysInStep(w.db, u, w.c)
  {
    AcceptedSyncIff(w, u, e);
    SyncKeepsIff(w, u, e);
    QuietSyncKeepsIff(w, u, e);
  }

  /** In a guarded run such a sync always ends with a replica equal to the server. */
  lemma {:induction false} SyncConverges(w: World, u: Id, e: Sync)
    requires WorldInv(w.db, u, w.c) && ValidSync(w, u, e) && Quiet(e)
    requires Written(w, u, e.envs, e.now).1 == [] && forall r :: r in w.c.outbox ==> IsSendable(r)
    ensures SyncStep(w, u, e).c.outbox == [] && Converged(SyncStep(w, u, e).db, u, SyncStep(w, u, e).c)
  {
    AcceptedSyncIff(w, u, e);
    RedeliveredIsInStep(w.db, u, w.c);
  }
}
