/** The repository as the app runs it: loops over the outbox and the response that write rows one at a time. */
module ShoppingListRepository {
  import opened Basics
  import opened ShoppingLists
  import opened ShoppingListLaws
  import opened Replica
  import opened ReplicaLaws

  class Repository {
    var lists: map<Id, LocalList>
    var items: map<Id, LocalItem>
    var outbox: seq<OutboxRow>
    var conflicts: map<Id, ConflictRow>
    var cursor: Option<Cursor>

    ghost function State(): Client
      reads this
    {
      Client(lists, items, outbox, conflicts, cursor)
    }

    constructor ()
      ensures State() == Client(map[], map[], [], map[], None)
    {
      lists, items, outbox, conflicts, cursor := map[], map[], [], map[], None;
    }

    method CreateList(id: Id, name: string, mid: Id, now: int)
      modifies this`lists, this`outbox
      ensures State() == ApplyEdit(old(State()), AddList(id, name, mid, now))
    {
      lists := lists[id := LocalList(name, Active, 1, 0, false, now, now, false)];
      outbox := Upsert(outbox, OutboxRow(ListCreate(mid, Some(id), name), Pending));
    }

    method AddItem(id: Id, listId: Id, product: Option<Id>, freeText: Option<string>, thousandths: int, unit: Unit, mid: Id)
      modifies this`items, this`outbox
      ensures State() == ApplyEdit(old(State()), Edit.AddItem(id, listId, product, freeText, thousandths, unit, mid))
    {
      if product.None? == freeText.None? { return; }
      var position := FindNextAfter(OpenPositions(items, listId));
      items := items[id := LocalItem(listId, product, freeText, thousandths, unit, false, position, 1, false)];
      outbox := Upsert(outbox, OutboxRow(
        ItemCreate(mid, listId, Some(id), product, freeText, Quantity(thousandths, 3), unit, false, Some(position)), Pending));
    }

    /** Writes the row and folds the patch into the one that still waits for the item, if any. */
    method PatchItem(e: Edit)
      requires IsItemEdit(e)
      modifies this`items, this`outbox
      ensures State() == ApplyEdit(old(State()), e)
    {
      if e.itemId !in items { return; }
      var current := items[e.itemId];
      var mutation := ItemPatchOf(current, e);
      var i := 0;
      while i < |outbox| && !(outbox[i].status == Pending && outbox[i].m.ItemPatch? && outbox[i].m.itemId == e.itemId)
        invariant 0 <= i <= |outbox| && FindPending(outbox, e.itemId) == FindPending(outbox[i..], e.itemId)
      {
        assert outbox[i..][1..] == outbox[i + 1..];
        i := i + 1;
      }
      if i < |outbox| { mutation := MergePatch(outbox[i].m, mutation); }
      items := items[e.itemId := EditedItem(current, e)];
      outbox := Upsert(outbox, OutboxRow(mutation, Pending));
    }

    method PatchList(e: Edit)
      requires e.SetListDeleted? || e.SetListArchived?
      modifies this`lists, this`outbox
      ensures State() == ApplyEdit(old(State()), e)
    {
      if e.listId !in lists { return; }
      var current := lists[e.listId];
      lists := lists[e.listId := EditedList(current, e)];
      outbox := Upsert(outbox, OutboxRow(ListPatchOf(current, e), Pending));
    }

    /** Takes the sendable rows, in order, and marks them as under way. */
    method TakeBatch() returns (batch: seq<OutboxRow>)
      modifies this`outbox
      ensures batch == Sendable(old(outbox))
      ensures State() == old(State()).(outbox := WithStatus(old(outbox), batch, InFlight))
    {
      batch := [];
      var k := 0;
      while k < |outbox|
        invariant 0 <= k <= |outbox| && Sendable(outbox) == batch + Sendable(outbox[k..])
      {
        assert outbox[k..][1..] == outbox[k + 1..];
        if IsSendable(outbox[k]) { batch := batch + [outbox[k]]; }
        k := k + 1;
      }
      MarkBatch(batch, InFlight);
    }

    method MarkBatch(batch: seq<OutboxRow>, status: SendStatus)
      modifies this`outbox
      ensures State() == old(State()).(outbox := WithStatus(old(outbox), batch, status))
    {
      var i := 0;
      assert batch[0..] == batch;
      while i < |batch|
        invariant 0 <= i <= |batch|
        invariant State() == old(State()).(outbox := outbox)
        invariant WithStatus(old(outbox), batch, status) == WithStatus(outbox, batch[i..], status)
      {
        assert batch[i..][1..] == batch[i + 1..];
        outbox := Upsert(outbox, batch[i].(status := status));
        i := i + 1;
      }
    }

    method SettleBatch(sent: seq<OutboxRow>, reported: seq<Conflict>)
      modifies this`outbox, this`conflicts
      ensures State() == Settle(old(State()), sent, reported)
    {
      var i := 0;
      assert sent[0..] == sent;
      while i < |sent|
        invariant 0 <= i <= |sent|
        invariant lists == old(lists) && items == old(items) && cursor == old(cursor)
        invariant Settle(old(State()), sent, reported) == Settle(State(), sent[i..], reported)
      {
        var row := sent[i];
        assert sent[i..][0] == row && sent[i..][1..] == sent[i + 1..];
        var conflict := FindConflict(reported, row.m.mid);
        if conflict.None? {
          outbox := Delete(outbox, row.m.mid);
          conflicts := conflicts - {row.m.mid};
        } else if conflict.value.code == CursorExpired {
          outbox := Upsert(outbox, row.(status := Pending));
          conflicts := conflicts - {row.m.mid};
        } else {
          outbox := Upsert(outbox, row.(status := InConflict));
          conflicts := conflicts[conflict.value.mid := ConflictRow(conflict.value.code, conflict.value.server, TargetItem(row.m))];
        }
        i := i + 1;
      }
    }

    /** The ids the waiting mutations name. */
    method ProtectedLists() returns (protectedLists: set<Id>)
      ensures forall id :: id in protectedLists <==> NamesList(outbox, id)
    {
      protectedLists := {};
      for i := 0 to |outbox|
        invariant forall id :: id in protectedLists <==> NamesList(outbox[..i], id)
      {
        assert outbox[..i + 1] == outbox[..i] + [outbox[i]];
        NamesAppend(outbox[..i], outbox[i]);
        if TargetList(outbox[i].m).Some? { protectedLists := protectedLists + {TargetList(outbox[i].m).value}; }
      }
      assert outbox[..|outbox|] == outbox;
    }

    method ProtectedItems() returns (protectedItems: set<Id>)
      ensures forall id :: id in protectedItems <==> NamesItem(outbox, id)
    {
      protectedItems := {};
      for i := 0 to |outbox|
        invariant forall id :: id in protectedItems <==> NamesItem(outbox[..i], id)
      {
        assert outbox[..i + 1] == outbox[..i] + [outbox[i]];
        NamesAppend(outbox[..i], outbox[i]);
        if TargetItem(outbox[i].m).Some? { protectedItems := protectedItems + {TargetItem(outbox[i].m).value}; }
      }
      assert outbox[..|outbox|] == outbox;
    }

    /** Deletes, row by row, the lists a snapshot lacks and no waiting mutation names. */
    method DropAbsentLists(dtos: seq<ListDto>, protectedLists: set<Id>)
      requires forall id :: id in protectedLists <==> NamesList(outbox, id)
      modifies this`lists
      ensures lists == DropMissing(old(State()), dtos).lists
    {
      var todo := lists.Keys;
      while todo != {}
        invariant todo <= lists.Keys <= old(lists).Keys
        invariant forall id :: id in lists ==> lists[id] == old(lists)[id]
        invariant forall id :: id in old(lists) && id !in todo ==>
                    (id in lists <==> InSnapshotLists(dtos, id) || NamesList(outbox, id))
        decreases |todo|
      {
        var id :| id in todo;
        if !InSnapshotLists(dtos, id) && id !in protectedLists { lists := lists - {id}; }
        todo := todo - {id};
      }
    }

    method DropAbsentItems(dtos: seq<ListDto>, protectedItems: set<Id>)
      requires forall id :: id in protectedItems <==> NamesItem(outbox, id)
      modifies this`items
      ensures items == DropMissing(old(State()), dtos).items
    {
      var todo := items.Keys;
      while todo != {}
        invariant todo <= items.Keys <= old(items).Keys
        invariant forall id :: id in items ==> items[id] == old(items)[id]
        invariant forall id :: id in old(items) && id !in todo ==>
                    (id in items <==> InSnapshotItems(dtos, id) || NamesItem(outbox, id))
        decreases |todo|
      {
        var id :| id in todo;
        if !InSnapshotItems(dtos, id) && id !in protectedItems { items := items - {id}; }
        todo := todo - {id};
      }
    }

    method StoreList(dto: ListDto, protectedLists: set<Id>, protectedItems: set<Id>)
      requires forall id :: id in protectedLists <==> NamesList(outbox, id)
      requires forall id :: id in protectedItems <==> NamesItem(outbox, id)
      modifies this`lists, this`items
      ensures State() == ReceiveItems(ReceiveList(old(State()), dto), dto.id, dto.items)
    {
      var keepLocal := dto.id in protectedLists && dto.id in lists;
      if !keepLocal {
        lists := lists[dto.id := ToLocalList(dto.list)];
      } else if dto.list.deleted || dto.list.status == Archived {
        lists := lists[dto.id := lists[dto.id].(isDraft := true)];
      }
      ghost var start := State();
      var j := 0;
      assert dto.items[0..] == dto.items;
      while j < |dto.items|
        invariant 0 <= j <= |dto.items|
        invariant State() == start.(items := items)
        invariant ReceiveItems(start, dto.id, dto.items) == ReceiveItems(State(), dto.id, dto.items[j..])
      {
        assert dto.items[j..][0] == dto.items[j] && dto.items[j..][1..] == dto.items[j + 1..];
        if dto.items[j].0 !in protectedItems {
          items := items[dto.items[j].0 := ToLocalItem(dto.id, dto.items[j].1)];
        }
        j := j + 1;
      }
    }

    /** One response, applied in one local transaction. */
    method StoreLists(dtos: seq<ListDto>, protectedLists: set<Id>, protectedItems: set<Id>)
      requires forall id :: id in protectedLists <==> NamesList(outbox, id)
      requires forall id :: id in protectedItems <==> NamesItem(outbox, id)
      modifies this`lists, this`items
      ensures State() == Receive(old(State()), dtos)
    {
      var i := 0;
      assert dtos[0..] == dtos;
      while i < |dtos|
        invariant 0 <= i <= |dtos|
        invariant Receive(old(State()), dtos) == Receive(State(), dtos[i..])
      {
        assert dtos[i..][0] == dtos[i] && dtos[i..][1..] == dtos[i + 1..];
        StoreList(dtos[i], protectedLists, protectedItems);
        i := i + 1;
      }
    }

    method Apply(sent: seq<OutboxRow>, response: SyncResponse)
      modifies this
      ensures State() == ApplyResponse(old(State()), sent, response)
    {
      SettleBatch(sent, response.conflicts);
      var protectedLists := ProtectedLists();
      var protectedItems := ProtectedItems();
      if response.fullSnapshot {
        DropAbsentLists(response.lists, protectedLists);
        DropAbsentItems(response.lists, protectedItems);
      }
      StoreLists(response.lists, protectedLists, protectedItems);
      cursor := Some(response.cursor);
    }

    /** Writes an answered list over the local rows; the outbox is not looked at. */
    method PersistServerList(dto: ListDto)
      modifies this`lists, this`items
      ensures State() == Replica.PersistServerList(old(State()), dto)
    {
      lists := lists[dto.id := ToLocalList(dto.list)];
      var j := 0;
      assert dto.items[0..] == dto.items;
      while j < |dto.items|
        invariant 0 <= j <= |dto.items|
        invariant State() == old(State()).(lists := lists, items := items)
        invariant lists == old(lists)[dto.id := ToLocalList(dto.list)]
        invariant PersistItems(old(items), dto.id, dto.items) == PersistItems(items, dto.id, dto.items[j..])
      {
        assert dto.items[j..][0] == dto.items[j] && dto.items[j..][1..] == dto.items[j + 1..];
        items := items[dto.items[j].0 := ToLocalItem(dto.id, dto.items[j].1)];
        j := j + 1;
      }
    }

    method ResolveConflict(mid: Id, keepLocal: bool, newMid: Id)
      modifies this
      ensures State() == if keepLocal then KeepLocal(old(State()), mid, newMid) else TakeServer(old(State()), mid)
    {
      if mid !in conflicts { return; }
      var conflict := conflicts[mid];
      if keepLocal {
        var row := FindRow(outbox, mid);
        if row.Some? {
          outbox := Replace(outbox, mid, OutboxRow(Renewed(row.value.m, newMid, conflict.server), Pending));
        }
      } else {
        if conflict.server.Some? && conflict.itemId.Some? && conflict.itemId.value in items {
          items := items[conflict.itemId.value := Overlay(items[conflict.itemId.value], conflict.server.value)];
        }
        outbox := Delete(outbox, mid);
      }
      conflicts := conflicts - {mid};
    }
  }

  lemma {:induction false} NamesAppend(outbox: seq<OutboxRow>, row: OutboxRow)
    ensures forall id :: NamesList(outbox + [row], id) <==> NamesList(outbox, id) || TargetList(row.m) == Some(id)
    ensures forall id :: NamesItem(outbox + [row], id) <==> NamesItem(outbox, id) || TargetItem(row.m) == Some(id)
  {
    var all := outbox + [row];
    assert all[|outbox|] == row && forall i :: 0 <= i < |outbox| ==> all[i] == outbox[i];
  }
}
