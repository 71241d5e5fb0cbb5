/** Ways in which the protocol can leave a replica behind for good, on concrete runs. */
module Stranding {
  import opened Basics
  import opened ShoppingLists
  import opened ShoppingListLaws
  import opened ShoppingListIdempotency
  import opened Replica
  import opened ReplicaLaws
  import opened Convergence
  import opened Discards
  import opened SyncRuns
  import opened SyncResponses
  import opened DeviceSyncs
  import opened SyncConditions
  import opened DeviceRuns

  // ---- The failures happen ----

  const USER: Id := Id(1)
  const LIST: Id := Id(2)
  const ITEM: Id := Id(3)
  const PATCH: Id := Id(4)

  function SomeList(contentSeq: nat): ListRow {
    ListRow(USER, "a", Active, 1, contentSeq, 0, 0, false)
  }

  function SomeItem(checked: bool, version: nat, syncSeq: nat): ItemRow {
    ItemRow(USER, LIST, None, Some("a"), 1000, Each, checked, 0, version, syncSeq, false)
  }

  /** The server after a device's patch (sequence 2) and another device's (sequence 3). */
  function ServerAt3(records: map<Key, Record>): Db {
    Db(map[LIST := SomeList(3)], map[ITEM := SomeItem(false, 3, 3)], map[USER := 3], records, map[])
  }

  function CheckPatch(): Mutation {
    ItemPatch(PATCH, LIST, ITEM, 1, None, None, Some(true), None, None)
  }

  /** The device that sent the patch and has only seen sequence `n`. */
  function DeviceAt(n: nat, status: SendStatus, conflicts: map<Id, ConflictRow>): Client {
    Client(map[LIST := ToLocalList(SomeList(1))], map[ITEM := ToLocalItem(LIST, SomeItem(true, 1, 1))],
           [OutboxRow(CheckPatch(), status)], conflicts, Some(Token(CURSOR_VERSION, USER, n, 0)))
  }

  lemma {:induction false} ServerAt3Valid(records: map<Key, Record>)
    ensures Inv(ServerAt3(records))
  {
    var db := ServerAt3(records);
    forall id ensures WithinLimit(db, id) {
      assert ActiveItems(db.items, id) <= {ITEM};
      SubsetSize(ActiveItems(db.items, id), {ITEM});
    }
  }

  lemma {:induction false} DeviceInStep(records: map<Key, Record>, n: nat, status: SendStatus, conflicts: map<Id, ConflictRow>)
    requires n <= 3 && (KeyOf(USER, CheckPatch()) in records ==> n < 3)
    ensures WorldInv(ServerAt3(records), USER, DeviceAt(n, status, conflicts))
  {
    var c := DeviceAt(n, status, conflicts);
    ServerAt3Valid(records);
    assert TargetList(c.outbox[0].m) == Some(LIST) && TargetItem(c.outbox[0].m) == Some(ITEM);
    assert NamesList(c.outbox, LIST) && NamesItem(c.outbox, ITEM);
  }

  /** A patch conflicts, the other device writes again and a sync moves the cursor past that; taking the
      conflict's stored server row then leaves the item behind, with nothing left that would repair it. */
  lemma {:induction false} DiscardCanStrandItem()
    ensures exists db, u, c, mid, id :: WorldInv(db, u, c) && mid in c.conflicts && !ItemTracked(db, u, TakeServer(c, mid), id)
  {
    var conflicts := map[PATCH := ConflictRow(VersionConflict(2), Some(ItemResponse(ITEM, SomeItem(true, 2, 2))), Some(ITEM))];
    var db, c := ServerAt3(map[]), DeviceAt(3, InConflict, conflicts);
    DeviceInStep(map[], 3, InConflict, conflicts);
    DiscardedItem(db, USER, c, PATCH, ITEM);
    assert RowAfter(c, PATCH, ITEM) == Some(ToLocalItem(LIST, SomeItem(true, 2, 2)));
    assert !ItemInStep(db, USER, RowAfter(c, PATCH, ITEM), 3, ITEM);
    assert !ItemTracked(db, USER, TakeServer(c, PATCH), ITEM);
  }

  /** The server row the conflict carries is still the server's, and the item ends up equal to it. The list is left
      behind all the same: the waiting patch kept its header from being stored, and nothing names it any more. The
      device has nothing to send and is at the account's sequence, so it stays that way. */
  lemma {:induction false} DiscardCanStrandList()
    ensures exists db, u, c, mid, listId, itemId ::
              && WorldInv(db, u, c) && mid in c.conflicts
              && c.conflicts[mid].server.Some? && itemId in db.items
              && c.conflicts[mid].server.value == ItemResponse(itemId, db.items[itemId])
              && ItemTracked(db, u, TakeServer(c, mid), itemId) && !ListTracked(db, u, TakeServer(c, mid), listId)
              && TakeServer(c, mid).outbox == [] && At(TakeServer(c, mid)) == Seq(db, u)
  {
    var conflicts := map[PATCH := ConflictRow(VersionConflict(3), Some(ItemResponse(ITEM, SomeItem(false, 3, 3))), Some(ITEM))];
    var db, c := ServerAt3(map[]), DeviceAt(3, InConflict, conflicts);
    DeviceInStep(map[], 3, InConflict, conflicts);
    var c' := TakeServer(c, PATCH);
    forall r ensures r !in c'.outbox { DeleteMember(c.outbox, PATCH, r); }
    assert c'.items[ITEM] == ToLocalItem(LIST, SomeItem(false, 3, 3));
    assert c'.lists[LIST] == ToLocalList(SomeList(1));
    assert c'.outbox == [];
    assert !ListTracked(db, USER, c', LIST) && ItemTracked(db, USER, c', ITEM);
  }

  function Records(): map<Key, Record> {
    map[KeyOf(USER, CheckPatch()) := Record(Digest(CheckPatch()), ItemResponse(ITEM, SomeItem(true, 2, 2)))]
  }

  const LATE: int := TOMBSTONE_RETENTION + 1

  function Snapshot(): seq<ListDto> {
    [ListDto(LIST, SomeList(3), [(ITEM, SomeItem(false, 3, 3))])]
  }

  function LateSync(dtos: seq<ListDto>): Sync {
    Sync([Env(LATE, Id(9), [])], LATE, [], [], [], [], dtos, LATE)
  }

  lemma {:induction false} OneRowOutbox(row: OutboxRow, status: SendStatus)
    requires IsSendable(row)
    ensures Sendable([row]) == [row]
    ensures WithStatus([row], [row], status) == [row.(status := status)]
  {
    assert [row][1..] == [];
    assert [row][0].m.mid == row.m.mid;
    assert HasMid([row], row.m.mid);
    assert Upsert([row], row.(status := status)) == [row.(status := status)];
  }

  lemma {:induction false} SnapshotDelivers()
    ensures Delivers(ServerAt3(Records()), ServerAt3(Records()), USER, None, Snapshot())
  {
    var db, dtos := ServerAt3(Records()), Snapshot();
    assert Answers(db, db, USER, None, dtos[0]) by { assert dtos[0].items[0].0 == ITEM; }
    assert dtos[0].id == LIST;
  }

  lemma {:induction false} SnapshotChangesNothing(c: Client)
    requires c == DeviceAt(1, Pending, map[])
    ensures Receive(DropMissing(c, Snapshot()), Snapshot()) == c
  {
    var dtos := Snapshot();
    assert NamesList(c.outbox, LIST) && NamesItem(c.outbox, ITEM) by {
      assert TargetList(c.outbox[0].m) == Some(LIST) && TargetItem(c.outbox[0].m) == Some(ITEM);
    }
    assert DropMissing(c, dtos) == c;
    assert dtos[0].items[1..] == [] && dtos[1..] == [];
    assert ReceiveItems(c, LIST, dtos[0].items) == c;
  }

  /** A patch was applied, its answer lost and the item changed back by another device; the device returns late. */
  function Late(): World {
    World(ServerAt3(Records()), DeviceAt(1, Pending, map[]))
  }

  function AfterRefusal(): World {
    Late().(c := Late().c.(cursor := Some(Token(CURSOR_VERSION, USER, 3, LATE))))
  }

  function Replayed(): World {
    AfterRefusal().(c := AfterRefusal().c.(outbox := []))
  }

  lemma {:induction false} ExpiredSettles(c: Client, row: OutboxRow)
    requires c.outbox == [row.(status := InFlight)] && row.status == Pending && row.m.mid == PATCH && PATCH !in c.conflicts
    ensures Settle(c, [row], [Conflict(PATCH, CursorExpired, None)]) == c.(outbox := [row])
  {
    var flying := row.(status := InFlight);
    assert HasMid(c.outbox, PATCH) by { assert c.outbox[0].m.mid == PATCH; }
    assert Upsert([flying], row) == [row];
    assert [row][1..] == [];
    assert c.conflicts - {PATCH} == c.conflicts;
  }

  /** The refused sync: the snapshot skips the protected rows, and the cursor moves to the sequence. */
  lemma {:induction false} SnapshotSkipsProtected()
    ensures ValidSync(Late(), USER, LateSync(Snapshot()))
    ensures SyncStep(Late(), USER, LateSync(Snapshot())) == AfterRefusal()
  {
    var w, e := Late(), LateSync(Snapshot());
    var row := w.c.outbox[0];
    OneRowOutbox(row, InFlight);
    SnapshotDelivers();
    assert w.c.outbox == [row];
    assert Expired(BatchCalls([row], e.envs)) == [Conflict(PATCH, CursorExpired, None)];
    assert Written(w, USER, e.envs, e.now) == (w.db, [Conflict(PATCH, CursorExpired, None)]);
    ExpiredSettles(w.c.(outbox := [row.(status := InFlight)]), row);
    SnapshotChangesNothing(w.c);
  }

  /** The next sync replays the patch, finds nothing new and empties the outbox. */
  lemma {:induction false} ReplayFindsNothing()
    ensures ValidSync(AfterRefusal(), USER, LateSync([]))
    ensures SyncStep(AfterRefusal(), USER, LateSync([])) == Replayed()
  {
    var w, e := AfterRefusal(), LateSync([]);
    var row := w.c.outbox[0];
    var flying := row.(status := InFlight);
    OneRowOutbox(row, InFlight);
    var calls := BatchCalls([row], e.envs);
    assert calls == [Call(row.m, e.envs[0])] && calls[1..] == [];
    assert ApplyBatch(w.db, USER, calls) == (w.db, []);
    assert Written(w, USER, e.envs, e.now) == (w.db, []);
    var c1 := w.c.(outbox := [flying]);
    assert [flying][1..] == [] && [row][1..] == [];
    assert Delete([flying], PATCH) == [];
    assert w.c.conflicts - {PATCH} == w.c.conflicts;
    assert Settle(c1, [row], []) == w.c.(outbox := []);
  }

  lemma {:induction false} LateIsInStep()
    ensures WorldInv(Late().db, USER, Late().c)
  {
    DeviceInStep(Records(), 1, Pending, map[]);
  }

  lemma {:induction false} RefusalKeeps()
    ensures Tracked(AfterRefusal().db, USER, AfterRefusal().c)
  {
    LateIsInStep();
    SnapshotSkipsProtected();
    RefusedSyncKeeps(Late(), USER, LateSync(Snapshot()));
  }

  lemma {:induction false} OnlyThePatchNames(c: Client)
    requires c.outbox == [OutboxRow(CheckPatch(), Pending)]
    ensures OnlyReplaysNameItem(ServerAt3(Records()), USER, c.outbox, ITEM)
  {
    assert TargetItem(c.outbox[0].m) == Some(ITEM);
  }

  lemma {:induction false} LeftBehind(c: Client)
    requires c.items == map[ITEM := ToLocalItem(LIST, SomeItem(true, 1, 1))] && c.outbox == [] && At(c) == 3
    ensures !Tracked(ServerAt3(Records()), USER, c) && !Converged(ServerAt3(Records()), USER, c)
  {
    assert c.items[ITEM] != ToLocalItem(LIST, SomeItem(false, 3, 3));
    assert !ItemTracked(ServerAt3(Records()), USER, c, ITEM);
  }

  /** The response to a patch is lost, another device undoes the patch, and the device returns after its cursor
      expired. The sync that is refused keeps every row in sight. The next one replays the patch, whose item is not in
      step any more: its outbox is empty then and its cursor is the account's sequence, yet its row is not the server's,
      and no later sync will repair it. */
  lemma {:induction false} ExpiredCursorCanStrand()
    ensures WorldInv(Late().db, USER, Late().c) && ValidSync(Late(), USER, LateSync(Snapshot()))
    ensures !ParsedCursor(Late(), USER, LateSync(Snapshot())).replayAllowed
    ensures SyncStep(Late(), USER, LateSync(Snapshot())) == AfterRefusal() && Tracked(AfterRefusal().db, USER, AfterRefusal().c)
    ensures ValidSync(AfterRefusal(), USER, LateSync([])) && ParsedCursor(AfterRefusal(), USER, LateSync([])).replayAllowed
    ensures OnlyReplaysNameItem(AfterRefusal().db, USER, AfterRefusal().c.outbox, ITEM)
    ensures !ItemInStep(AfterRefusal().db, USER, RowOf(AfterRefusal().c.items, ITEM), At(AfterRefusal().c), ITEM)
    ensures var w := SyncStep(AfterRefusal(), USER, LateSync([]));
            && w.c.outbox == [] && At(w.c) == Seq(w.db, USER) && !Tracked(w.db, USER, w.c) && !Converged(w.db, USER, w.c)
  {
    LateIsInStep();
    SnapshotSkipsProtected();
    RefusalKeeps();
    ReplayFindsNothing();
    OnlyThePatchNames(AfterRefusal().c);
    LeftBehind(Replayed().c);
  }
}
