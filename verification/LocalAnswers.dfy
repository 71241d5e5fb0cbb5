/** What each local edit and each answer to a conflict leaves on the device, field by field, and what the server makes of
    the mutation it queues. */
module LocalAnswers {
  import opened Basics
  import opened ShoppingLists
  import opened ShoppingListLaws
  import opened ListAnswers
  import opened Replica
  import opened ReplicaLaws
  import opened LocalEdits

  // ---- New rows ----

  /** The mutation waits behind all others, and nothing but one list or one item differs. */
  ghost predicate Queues(c: Client, c': Client, m: Mutation) {
    c'.outbox == c.outbox + [OutboxRow(m, Pending)] && c'.conflicts == c.conflicts && c'.cursor == c.cursor
  }

  lemma {:induction false} AddListAnswers(c: Client, e: Edit)
    requires e.AddList? && !HasMid(c.outbox, e.mid)
    ensures var c' := ApplyEdit(c, e);
            && Queues(c, c', ListCreate(e.mid, Some(e.id), e.name)) && c'.items == c.items
            && e.id in c'.lists && c'.lists == c.lists[e.id := c'.lists[e.id]]
            && var row := c'.lists[e.id];
               && row.name == e.name && row.status == Active && row.version == 1 && row.contentRevision == 0 && !row.deleted
               && row.createdAt == e.now && row.updatedAt == e.now && !row.isDraft
  {
  }

  /** The list a device made, once the server took it: named alike up to the spaces around, active and of version 1. */
  lemma {:induction false} NewListAgrees(db: Db, u: Id, env: Env, c: Client, e: Edit)
    requires e.AddList? && Handle(db, u, ListCreate(e.mid, Some(e.id), e.name), env).Accepted?
    ensures var lists, local := Handle(db, u, ListCreate(e.mid, Some(e.id), e.name), env).db.lists, ApplyEdit(c, e).lists[e.id];
            e.id in lists && var row := lists[e.id];
            && row.user == u && IsTrimmed(row.name, local.name) && row.status == local.status && row.version == local.version
            && row.deleted == local.deleted
  {
    CreateListAnswers(db, u, ListCreate(e.mid, Some(e.id), e.name), env);
  }

  /** One past the last open item the device holds for the list, or 0. */
  ghost predicate IsLastLocal(c: Client, listId: Id, position: nat) {
    && (forall i :: i in c.items && c.items[i].listId == listId && !c.items[i].deleted ==> c.items[i].position < position)
    && (position == 0 ||
        exists i :: i in c.items && c.items[i].listId == listId && !c.items[i].deleted && c.items[i].position == position - 1)
  }

  lemma {:induction false} NextIsLastLocal(c: Client, listId: Id)
    ensures IsLastLocal(c, listId, NextAfter(OpenPositions(c.items, listId)))
  {
    var ps := OpenPositions(c.items, listId);
    NextAfterIsLast(ps);
    forall i | i in c.items && c.items[i].listId == listId && !c.items[i].deleted ensures c.items[i].position in ps {
      assert i in OpenItems(c.items, listId);
    }
    if NextAfter(ps) > 0 {
      var i :| i in OpenItems(c.items, listId) && c.items[i].position == NextAfter(ps) - 1;
    }
  }

  function NewItemMutation(e: Edit, position: nat): Mutation
    requires e.AddItem?
  {
    ItemCreate(e.mid, e.listId, Some(e.id), e.product, e.freeText, Quantity(e.thousandths, 3), e.unit, false, Some(position))
  }

  /** An item is either a product or a text; it is put last and the server is asked for it there. */
  lemma {:induction false} AddItemAnswers(c: Client, e: Edit)
    requires e.AddItem? && !HasMid(c.outbox, e.mid)
    ensures var c' := ApplyEdit(c, e);
            if e.product.Some? == e.freeText.Some? then c' == c
            else
              && c'.lists == c.lists && e.id in c'.items && c'.items == c.items[e.id := c'.items[e.id]]
              && var row := c'.items[e.id];
                 && Queues(c, c', NewItemMutation(e, row.position)) && IsLastLocal(c, e.listId, row.position)
                 && row.listId == e.listId && row.product == e.product && row.freeText == e.freeText
                 && row.thousandths == e.thousandths && row.unit == e.unit && !row.checked && row.version == 1 && !row.deleted
  {
    NextIsLastLocal(c, e.listId);
  }

  /** The item a device made, once the server took it: the same in every field up to the spaces around its text. */
  lemma {:induction false} NewItemAgrees(db: Db, u: Id, env: Env, c: Client, e: Edit)
    requires e.AddItem? && e.product.Some? != e.freeText.Some?
    requires Handle(db, u, NewItemMutation(e, ApplyEdit(c, e).items[e.id].position), env).Accepted?
    ensures var local := ApplyEdit(c, e).items[e.id];
            var items := Handle(db, u, NewItemMutation(e, local.position), env).db.items;
            e.id in items && var row := items[e.id];
            && row.user == u && ItemMirrors(local.(freeText := row.freeText), row) && IsText(row.freeText, local.freeText)
  {
    var m := NewItemMutation(e, ApplyEdit(c, e).items[e.id].position);
    CreateItemAnswers(db, u, m, env);
    assert Pow10(3) == 1000;
  }

  // ---- Edited rows ----

  /** An edit sets the field it is about; every other field of the row, its version included, stays. */
  ghost predicate IsEditedItem(row: LocalItem, row': LocalItem, e: Edit) {
    && row'.listId == row.listId && row'.product == row.product && row'.freeText == row.freeText && row'.unit == row.unit
    && row'.position == row.position && row'.version == row.version
    && row'.thousandths == (if e.SetQuantity? then e.thousandths else row.thousandths)
    && row'.checked == (if e.SetChecked? then e.checked else row.checked)
    && row'.deleted == (if e.SetItemDeleted? then e.deleted else row.deleted)
  }

  lemma {:induction false} ItemEditAnswers(c: Client, e: Edit)
    requires IsItemEdit(e)
    ensures var c' := ApplyEdit(c, e);
            if e.itemId !in c.items then c' == c
            else
              && c'.lists == c.lists && c'.conflicts == c.conflicts && c'.cursor == c.cursor
              && e.itemId in c'.items && c'.items == c.items[e.itemId := c'.items[e.itemId]]
              && IsEditedItem(c.items[e.itemId], c'.items[e.itemId], e)
              && exists m :: c'.outbox == Upsert(c.outbox, OutboxRow(m, Pending)) && IsItemPatch(c, e, m)
  {
    if e.itemId in c.items {
      QueuedIsPatch(c, e);
      assert ApplyEdit(c, e).outbox == Upsert(c.outbox, OutboxRow(QueuedPatch(c, e), Pending));
    }
  }

  /** The queued patch: a new one that sets the field against the version held, or the one that waits with the field set. */
  ghost predicate IsItemPatch(c: Client, e: Edit, m: Mutation)
    requires IsItemEdit(e) && e.itemId in c.items
  {
    m.ItemPatch? && m.itemId == e.itemId &&
    var base := match FindPending(c.outbox, e.itemId)
                case Some(waiting) => waiting
                case None => ItemPatch(e.mid, c.items[e.itemId].listId, e.itemId, c.items[e.itemId].version, None, None, None, None, None);
    base.ItemPatch? && m.mid == base.mid && m.listId == base.listId && m.expectedVersion == base.expectedVersion
    && m.newAmount == (if e.SetQuantity? then Some(Quantity(e.thousandths, 3)) else base.newAmount)
    && m.newUnit == base.newUnit && m.newPosition == base.newPosition
    && m.newChecked == (if e.SetChecked? then Some(e.checked) else base.newChecked)
    && m.deleted == (if e.SetItemDeleted? then Some(e.deleted) else base.deleted)
  }

  lemma {:induction false} QueuedIsPatch(c: Client, e: Edit)
    requires IsItemEdit(e) && e.itemId in c.items
    ensures IsItemPatch(c, e, QueuedPatch(c, e))
  {
    if FindPending(c.outbox, e.itemId).Some? { FindPendingIsThere(c.outbox, e.itemId); }
  }

  lemma {:induction false} ListEditAnswers(c: Client, e: Edit)
    requires (e.SetListDeleted? || e.SetListArchived?) && !HasMid(c.outbox, e.mid)
    ensures var c' := ApplyEdit(c, e);
            if e.listId !in c.lists then c' == c
            else
              && c'.items == c.items && e.listId in c'.lists && c'.lists == c.lists[e.listId := c'.lists[e.listId]]
              && IsEditedList(c.lists[e.listId], c'.lists[e.listId], e)
              && Queues(c, c', if e.SetListDeleted?
                               then ListPatch(e.mid, e.listId, c.lists[e.listId].version, None, None, Some(e.deleted))
                               else ListPatch(e.mid, e.listId, c.lists[e.listId].version, None, Some(StatusFor(e)), None))
  {
  }

  function StatusFor(e: Edit): Status
    requires e.SetListArchived?
  {
    if e.archived then Archived else Active
  }

  ghost predicate IsEditedList(row: LocalList, row': LocalList, e: Edit)
    requires e.SetListDeleted? || e.SetListArchived?
  {
    && row'.name == row.name && row'.version == row.version && row'.contentRevision == row.contentRevision
    && row'.createdAt == row.createdAt && row'.updatedAt == row.updatedAt && row'.isDraft == row.isDraft
    && row'.deleted == (if e.SetListDeleted? then e.deleted else row.deleted)
    && row'.status == (if e.SetListArchived? then StatusFor(e) else row.status)
  }

  /** The list edit, once the server took it: name, status and mark as the user sees them, one version on. The server never
      takes a deletion back, and refuses a patch of a deleted list. */
  lemma {:induction false} ListEditAgrees(db: Db, u: Id, env: Env, c: Client, e: Edit)
    requires (e.SetListDeleted? || e.SetListArchived?) && e.listId in c.lists && e.listId in db.lists
    requires ListMirrors(c.lists[e.listId], db.lists[e.listId])
    requires Handle(db, u, ListPatchOf(c.lists[e.listId], e), env).Accepted?
    ensures var lists, local := Handle(db, u, ListPatchOf(c.lists[e.listId], e), env).db.lists, ApplyEdit(c, e).lists[e.listId];
            e.listId in lists && var row := lists[e.listId];
            && row.name == local.name && row.status == local.status && row.deleted == local.deleted
            && row.version == local.version + 1 && row.createdAt == local.createdAt
  {
    PatchListAnswers(db, u, ListPatchOf(c.lists[e.listId], e), env);
  }

  // ---- Conflicts ----

  /** The mutation says the same under a new id; a patch expects the version the server reported, if it reported a row. */
  ghost predicate SaysAgain(m: Mutation, m': Mutation, newMid: Id, server: Option<Response>) {
    && m'.mid == newMid
    && match m
       case ListPatch(_, listId, expected, name, status, deleted) =>
         m'.ListPatch? && m'.listId == listId && m'.newName == name && m'.newStatus == status && m'.deleted == deleted
         && m'.expectedVersion == ReportedVersion(server, expected)
       case ItemPatch(_, listId, itemId, expected, amount, unit, checked, position, deleted) =>
         m'.ItemPatch? && m'.listId == listId && m'.itemId == itemId && m'.newAmount == amount && m'.newUnit == unit
         && m'.newChecked == checked && m'.newPosition == position && m'.deleted == deleted
         && m'.expectedVersion == ReportedVersion(server, expected)
       case _ => m'.(mid := m.mid) == m
  }

  function ReportedVersion(server: Option<Response>, otherwise: nat): nat {
    match server
    case None => otherwise
    case Some(ListResponse(_, list)) => list.version
    case Some(ItemResponse(_, item)) => item.version
  }

  /** Keeping one's own version puts the renewed mutation in the place of the refused one, to be sent again; every other
      row, the cursor and the other conflicts stay. */
  lemma {:induction false} KeepLocalAnswers(c: Client, mid: Id, newMid: Id)
    requires UniqueMids(c.outbox)
    ensures var c' := KeepLocal(c, mid, newMid);
            if mid !in c.conflicts then c' == c
            else
              && c'.lists == c.lists && c'.items == c.items && c'.cursor == c.cursor && c'.conflicts == c.conflicts - {mid}
              && |c'.outbox| == |c.outbox|
              && forall i :: 0 <= i < |c.outbox| ==>
                   if c.outbox[i].m.mid == mid
                   then c'.outbox[i].status == Pending && SaysAgain(c.outbox[i].m, c'.outbox[i].m, newMid, c.conflicts[mid].server)
                   else c'.outbox[i] == c.outbox[i]
  {
    if mid in c.conflicts {
      FindRowFinds(c.outbox, mid);
      forall i | 0 <= i < |c.outbox| && c.outbox[i].m.mid == mid
        ensures FindRow(c.outbox, mid) == Some(c.outbox[i])
        ensures SaysAgain(c.outbox[i].m, Renewed(c.outbox[i].m, newMid, c.conflicts[mid].server), newMid, c.conflicts[mid].server)
      {
        assert c.outbox[i] in c.outbox;
      }
    }
  }

  lemma {:induction false} FindRowFinds(outbox: seq<OutboxRow>, mid: Id)
    ensures match FindRow(outbox, mid)
            case Some(row) => row in outbox && row.m.mid == mid
            case None => forall r :: r in outbox ==> r.m.mid != mid
  {
    if outbox != [] { FindRowFinds(outbox[1..], mid); }
  }

  /** A patch renewed with the row the server holds is not refused for its version again. */
  lemma {:induction false} RenewedIsCurrent(db: Db, u: Id, m: Mutation, newMid: Id, env: Env, current: nat)
    requires m.ListPatch? ==> m.listId in db.lists
    requires m.ItemPatch? ==> m.itemId in db.items
    ensures m.ListPatch? ==>
              Handle(db, u, Renewed(m, newMid, Some(ListResponse(m.listId, db.lists[m.listId]))), env) != Rejected(VersionConflict(current))
    ensures m.ItemPatch? ==>
              Handle(db, u, Renewed(m, newMid, Some(ItemResponse(m.itemId, db.items[m.itemId]))), env) != Rejected(VersionConflict(current))
  {
  }

  /** What the device shows for an item whose conflict is answered with the server's version: what the server reported of
      it, or the version and the deletion mark of a reported list. */
  ghost predicate IsOverlaid(row: LocalItem, row': LocalItem, server: Response) {
    && row'.listId == row.listId && row'.product == row.product && row'.freeText == row.freeText
    && match server
       case ItemResponse(_, s) =>
         && row'.thousandths == s.thousandths && row'.unit == s.unit && row'.checked == s.checked && row'.position == s.position
         && row'.version == s.version && row'.deleted == s.deleted
       case ListResponse(_, s) =>
         && row'.thousandths == row.thousandths && row'.unit == row.unit && row'.checked == row.checked && row'.position == row.position
         && row'.version == s.version && row'.deleted == s.deleted
  }

  lemma {:induction false} TakeServerAnswers(c: Client, mid: Id)
    ensures var c' := TakeServer(c, mid);
            if mid !in c.conflicts then c' == c
            else
              var k := c.conflicts[mid];
              && c'.lists == c.lists && c'.cursor == c.cursor && c'.conflicts == c.conflicts - {mid}
              && (forall r :: r in c'.outbox <==> r in c.outbox && r.m.mid != mid)
              && if k.server.Some? && k.itemId.Some? && k.itemId.value in c.items
                 then k.itemId.value in c'.items && c'.items == c.items[k.itemId.value := c'.items[k.itemId.value]]
                      && IsOverlaid(c.items[k.itemId.value], c'.items[k.itemId.value], k.server.value)
                 else c'.items == c.items
  {
    forall r ensures r in Delete(c.outbox, mid) <==> r in c.outbox && r.m.mid != mid { DeleteMember(c.outbox, mid, r); }
  }

  // ---- What is sent ----

  /** A batch is the rows that wait or were under way, in their order; conflicts and blocked rows stay behind. */
  lemma {:induction false} SendableAnswers(before: seq<OutboxRow>, row: OutboxRow, after: seq<OutboxRow>)
    ensures Sendable(before + ([row] + after)) ==
              Sendable(before) + (if row.status == Pending || row.status == InFlight then [row] else []) + Sendable(after)
    ensures Sendable([]) == []
  {
    var rest := [row] + after;
    if before == [] {
      assert rest[1..] == after && before + rest == rest;
    } else {
      assert (before + rest)[0] == before[0] && (before + rest)[1..] == before[1..] + rest;
      SendableAnswers(before[1..], row, after);
    }
  }

  // ---- What a response says about the batch ----

  /** The last conflict reported for a mutation. */
  ghost predicate LastSays(conflicts: seq<Conflict>, mid: Id, k: Conflict) {
    exists i :: 0 <= i < |conflicts| && conflicts[i] == k && k.mid == mid && forall j :: i < j < |conflicts| ==> conflicts[j].mid != mid
  }

  lemma {:induction false} FindConflictIsLast(conflicts: seq<Conflict>, mid: Id)
    ensures match FindConflict(conflicts, mid)
            case None => forall k :: k in conflicts ==> k.mid != mid
            case Some(k) => LastSays(conflicts, mid, k)
  {
    FindConflictFinds(conflicts, mid);
    if conflicts != [] && conflicts[|conflicts| - 1].mid != mid && FindConflict(conflicts, mid).Some? {
      var rest := conflicts[..|conflicts| - 1];
      FindConflictIsLast(rest, mid);
      var k := FindConflict(conflicts, mid).value;
      var i :| 0 <= i < |rest| && rest[i] == k && k.mid == mid && forall j :: i < j < |rest| ==> rest[j].mid != mid;
      forall j | i < j < |conflicts| ensures conflicts[j].mid != mid { if j < |rest| { assert rest[j] == conflicts[j]; } }
      assert conflicts[i] == k;
    } else if FindConflict(conflicts, mid).Some? {
      assert conflicts[|conflicts| - 1] == FindConflict(conflicts, mid).value;
    }
  }

  /** The conflict rows after a batch: a refused mutation's says why and which row the server reported, one that was taken or
      has to be sent again has none, and the others stay. */
  lemma {:induction false} ConflictsAfter(c: Client, batch: seq<OutboxRow>, conflicts: seq<Conflict>, mid: Id)
    requires UniqueMids(batch)
    ensures var s := Settle(c, batch, conflicts);
            && (!HasMid(batch, mid) ==>
                  (mid in s.conflicts <==> mid in c.conflicts) && (mid in c.conflicts ==> s.conflicts[mid] == c.conflicts[mid]))
            && forall b :: b in batch && b.m.mid == mid ==>
                 match FindConflict(conflicts, mid)
                 case None => mid !in s.conflicts
                 case Some(k) =>
                   if k.code == CursorExpired then mid !in s.conflicts
                   else mid in s.conflicts && s.conflicts[mid] == ConflictRow(k.code, k.server, TargetItem(b.m))
    decreases |batch|
  {
    if batch != [] {
      var rest := batch[1..];
      var next := SettleRow(c, batch[0], FindConflict(conflicts, batch[0].m.mid));
      LaterTwin(batch);
      FindConflictFinds(conflicts, batch[0].m.mid);
      FindConflictIsLast(conflicts, batch[0].m.mid);
      ConflictsAfter(next, rest, conflicts, mid);
      HasMidSplit(batch, mid);
      forall b | b in batch && b.m.mid == mid ensures b in rest || (b == batch[0] && !HasMid(rest, mid)) {
        if b !in rest { assert b == batch[0]; }
      }
    }
  }

  // ---- Delivered rows ----

  /** Whatever a response delivers and no waiting mutation names is stored as the server answered it, field by field; a list
      that is named stays, and is marked as a draft exactly if the delivered one is archived or deleted. Of the rows it does
      not deliver, a snapshot drops those that nothing names, and a delta none. */
  lemma {:induction false} DeliveredIsStored(c: Client, sent: seq<OutboxRow>, r: SyncResponse, dbL: Db, dbI: Db, id: Id)
    requires RowsFrom(dbL, dbI, r.lists)
    ensures var c' := ApplyResponse(c, sent, r);
            && (InSnapshotLists(r.lists, id) && !NamesList(c'.outbox, id) ==>
                  id in c'.lists && id in dbL.lists && ListMirrors(c'.lists[id], dbL.lists[id]))
            && (InSnapshotLists(r.lists, id) && NamesList(c'.outbox, id) && id in c.lists ==>
                  && id in c'.lists && id in dbL.lists
                  && c'.lists[id] == (if dbL.lists[id].status == Archived || dbL.lists[id].deleted
                                      then c.lists[id].(isDraft := true) else c.lists[id]))
            && (InSnapshotItems(r.lists, id) && !NamesItem(c'.outbox, id) ==>
                  id in c'.items && id in dbI.items && ItemMirrors(c'.items[id], dbI.items[id]))
            && (!InSnapshotLists(r.lists, id) ==>
                  && (id in c'.lists <==> id in c.lists && (!r.fullSnapshot || NamesList(c'.outbox, id)))
                  && (id in c'.lists ==> c'.lists[id] == c.lists[id]))
            && (!InSnapshotItems(r.lists, id) ==>
                  && (id in c'.items <==> id in c.items && (!r.fullSnapshot || NamesItem(c'.outbox, id)))
                  && (id in c'.items ==> c'.items[id] == c.items[id]))
            && c'.cursor == Some(r.cursor) && c'.conflicts == Settle(c, sent, r.conflicts).conflicts
  {
    var s := Settle(c, sent, r.conflicts);
    var kept := if r.fullSnapshot then DropMissing(s, r.lists) else s;
    SettleKeepsRows(c, sent, r.conflicts);
    ReceiveListAt(kept, dbL, dbI, r.lists, id);
    ReceiveItemAt(kept, dbL, dbI, r.lists, id);
    ReceiveKeepsConflicts(kept, r.lists);
    if InSnapshotLists(r.lists, id) {
      var i :| 0 <= i < |r.lists| && r.lists[i].id == id;
    }
  }

  lemma {:induction false} ReceiveItemsKeepsConflicts(c: Client, listId: Id, items: seq<(Id, ItemRow)>)
    ensures ReceiveItems(c, listId, items).conflicts == c.conflicts
    decreases |items|
  {
    if items != [] {
      var next := if NamesItem(c.outbox, items[0].0) then c else c.(items := c.items[items[0].0 := ToLocalItem(listId, items[0].1)]);
      ReceiveItemsKeepsConflicts(next, listId, items[1..]);
    }
  }

  lemma {:induction false} ReceiveKeepsConflicts(c: Client, dtos: seq<ListDto>)
    ensures Receive(c, dtos).conflicts == c.conflicts
    decreases |dtos|
  {
    if dtos != [] {
      var c1 := ReceiveList(c, dtos[0]);
      ReceiveItemsKeepsConflicts(c1, dtos[0].id, dtos[0].items);
      ReceiveKeepsConflicts(ReceiveItems(c1, dtos[0].id, dtos[0].items), dtos[1..]);
    }
  }
}
