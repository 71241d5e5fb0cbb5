/** What the user did offline: it survives every response, and folded patches mean the same as the single ones. */
module LocalEdits {
  import opened Basics
  import opened ShoppingLists
  import opened ShoppingListLaws
  import opened Replica
  import opened ReplicaLaws

  // ---- Responses do not touch what still waits ----

  lemma {:induction false} ReceiveItemsKeepsNamed(c: Client, listId: Id, items: seq<(Id, ItemRow)>, id: Id)
    requires NamesItem(c.outbox, id)
    ensures var r := ReceiveItems(c, listId, items);
            r.outbox == c.outbox && r.lists == c.lists && (id in r.items <==> id in c.items) && (id in c.items ==> r.items[id] == c.items[id])
    decreases |items|
  {
    if items != [] {
      var next := if NamesItem(c.outbox, items[0].0) then c
                  else c.(items := c.items[items[0].0 := ToLocalItem(listId, items[0].1)]);
      ReceiveItemsKeepsNamed(next, listId, items[1..], id);
    }
  }

  lemma {:induction false} ReceiveItemsFrame(c: Client, listId: Id, items: seq<(Id, ItemRow)>)
    ensures ReceiveItems(c, listId, items).outbox == c.outbox && ReceiveItems(c, listId, items).lists == c.lists
    decreases |items|
  {
    if items != [] {
      var next := if NamesItem(c.outbox, items[0].0) then c
                  else c.(items := c.items[items[0].0 := ToLocalItem(listId, items[0].1)]);
      ReceiveItemsFrame(next, listId, items[1..]);
    }
  }

  lemma {:induction false} ReceiveKeepsNamedItem(c: Client, dtos: seq<ListDto>, id: Id)
    requires NamesItem(c.outbox, id)
    ensures var r := Receive(c, dtos);
            r.outbox == c.outbox && (id in r.items <==> id in c.items) && (id in c.items ==> r.items[id] == c.items[id])
    decreases |dtos|
  {
    if dtos != [] {
      var c1 := ReceiveList(c, dtos[0]);
      ReceiveItemsKeepsNamed(c1, dtos[0].id, dtos[0].items, id);
      ReceiveKeepsNamedItem(ReceiveItems(c1, dtos[0].id, dtos[0].items), dtos[1..], id);
    }
  }

  lemma {:induction false} ReceiveKeepsNamedList(c: Client, dtos: seq<ListDto>, id: Id)
    requires NamesList(c.outbox, id) && id in c.lists
    ensures var r := Receive(c, dtos);
            r.outbox == c.outbox && id in r.lists && SameUpToDraft(r.lists[id], c.lists[id])
    decreases |dtos|
  {
    if dtos != [] {
      var c1 := ReceiveList(c, dtos[0]);
      ReceiveItemsFrame(c1, dtos[0].id, dtos[0].items);
      ReceiveKeepsNamedList(ReceiveItems(c1, dtos[0].id, dtos[0].items), dtos[1..], id);
    }
  }

  lemma {:induction false} ReceiveKeepsOutbox(c: Client, dtos: seq<ListDto>)
    ensures Receive(c, dtos).outbox == c.outbox
    decreases |dtos|
  {
    if dtos != [] {
      var c1 := ReceiveList(c, dtos[0]);
      ReceiveItemsFrame(c1, dtos[0].id, dtos[0].items);
      ReceiveKeepsOutbox(ReceiveItems(c1, dtos[0].id, dtos[0].items), dtos[1..]);
    }
  }

  /** Whatever a response says, delta or snapshot, an item that a mutation in the outbox still names is
      neither changed nor dropped. */
  lemma {:induction false} UnsentItemSurvives(c: Client, sent: seq<OutboxRow>, r: SyncResponse, id: Id)
    requires NamesItem(ApplyResponse(c, sent, r).outbox, id)
    ensures var c' := ApplyResponse(c, sent, r);
            (id in c'.items <==> id in c.items) && (id in c.items ==> c'.items[id] == c.items[id])
  {
    var s := Settle(c, sent, r.conflicts);
    var kept := if r.fullSnapshot then DropMissing(s, r.lists) else s;
    SettleKeepsRows(c, sent, r.conflicts);
    ReceiveKeepsOutbox(kept, r.lists);
    ReceiveKeepsNamedItem(kept, r.lists, id);
  }

  /** A list that is still named keeps every field; it is at most marked as a draft. */
  lemma {:induction false} UnsentListSurvives(c: Client, sent: seq<OutboxRow>, r: SyncResponse, id: Id)
    requires id in c.lists && NamesList(ApplyResponse(c, sent, r).outbox, id)
    ensures var c' := ApplyResponse(c, sent, r);
            id in c'.lists && SameUpToDraft(c'.lists[id], c.lists[id])
  {
    var s := Settle(c, sent, r.conflicts);
    var kept := if r.fullSnapshot then DropMissing(s, r.lists) else s;
    SettleKeepsRows(c, sent, r.conflicts);
    ReceiveKeepsOutbox(kept, r.lists);
    ReceiveKeepsNamedList(kept, r.lists, id);
  }

  /** A mutation leaves the outbox exactly when it was sent and the response reports no conflict for it. */
  lemma {:induction false} LeavesOutboxIff(c: Client, sent: seq<OutboxRow>, r: SyncResponse, row: OutboxRow)
    requires UniqueMids(sent) && row in c.outbox
    ensures !HasMid(ApplyResponse(c, sent, r).outbox, row.m.mid) <==>
            HasMid(sent, row.m.mid) && forall k :: k in r.conflicts ==> k.mid != row.m.mid
  {
    var s := Settle(c, sent, r.conflicts);
    var kept := if r.fullSnapshot then DropMissing(s, r.lists) else s;
    ReceiveKeepsOutbox(kept, r.lists);
    FindConflictFinds(r.conflicts, row.m.mid);
    if HasMid(s.outbox, row.m.mid) {
      var i :| 0 <= i < |s.outbox| && s.outbox[i].m.mid == row.m.mid;
      SettleMember(c, sent, r.conflicts, s.outbox[i]);
    }
    if !HasMid(sent, row.m.mid) {
      SettleMember(c, sent, r.conflicts, row);
      HasMidMember(s.outbox, row);
    } else if FindConflict(r.conflicts, row.m.mid).Some? {
      var i :| 0 <= i < |sent| && sent[i].m.mid == row.m.mid;
      var kept := Refused(sent[i], r.conflicts).value;
      SettleMember(c, sent, r.conflicts, kept);
      HasMidMember(s.outbox, kept);
    }
  }

  // ---- Folding patches ----

  /** A queued patch read as a change of the local row. */
  function PatchRow(row: LocalItem, m: Mutation): LocalItem
    requires m.ItemPatch?
  {
    row.(thousandths := if m.newAmount.Some? && m.newAmount.value.scale <= 3 then Thousandths(m.newAmount.value) else row.thousandths,
         unit := m.newUnit.GetOr(row.unit),
         checked := m.newChecked.GetOr(row.checked),
         position := m.newPosition.GetOr(row.position),
         deleted := m.deleted.GetOr(row.deleted))
  }

  ghost predicate LocalPatch(m: Mutation) {
    m.ItemPatch? && (m.newAmount.Some? ==> m.newAmount.value.scale <= 3)
  }

  /** One folded patch does what the two patches did one after the other. */
  lemma {:induction false} MergeComposes(row: LocalItem, p: Mutation, q: Mutation)
    requires LocalPatch(p) && LocalPatch(q)
    ensures LocalPatch(MergePatch(p, q))
    ensures PatchRow(row, MergePatch(p, q)) == PatchRow(PatchRow(row, p), q)
  {
  }

  lemma {:induction false} EditIsItsPatch(row: LocalItem, held: LocalItem, e: Edit)
    requires IsItemEdit(e)
    ensures LocalPatch(ItemPatchOf(held, e)) && EditedItem(row, e) == PatchRow(row, ItemPatchOf(held, e))
  {
  }

  lemma {:induction false} FindPendingMember(outbox: seq<OutboxRow>, itemId: Id, r: OutboxRow)
    requires r in outbox && r.status == Pending && r.m.ItemPatch? && r.m.itemId == itemId
    ensures FindPending(outbox, itemId).Some?
  {
    if !(outbox[0].status == Pending && outbox[0].m.ItemPatch? && outbox[0].m.itemId == itemId) {
      FindPendingMember(outbox[1..], itemId, r);
    }
  }

  /** At most one patch per item waits to be sent. */
  ghost predicate OnePending(outbox: seq<OutboxRow>, itemId: Id) {
    forall r, s :: WaitsFor(outbox, r, itemId) && WaitsFor(outbox, s, itemId) ==> r == s
  }

  ghost predicate WaitsFor(outbox: seq<OutboxRow>, r: OutboxRow, itemId: Id) {
    r in outbox && r.status == Pending && r.m.ItemPatch? && r.m.itemId == itemId
  }

  lemma {:induction false} FoldedPatchWaits(c: Client, e: Edit)
    requires IsItemEdit(e) && e.itemId in c.items && UniqueMids(c.outbox) && OnePending(c.outbox, e.itemId)
    requires !HasMid(c.outbox, e.mid)
    ensures var c' := PatchLocalItem(c, e);
            && OnePending(c'.outbox, e.itemId) && UniqueMids(c'.outbox)
            && FindPending(c'.outbox, e.itemId) == Some(QueuedPatch(c, e))
  {
    var c' := PatchLocalItem(c, e);
    var row := OutboxRow(QueuedPatch(c, e), Pending);
    if FindPending(c.outbox, e.itemId).Some? { FindPendingIsThere(c.outbox, e.itemId); }
    forall r ensures r in c'.outbox <==> r == row || (r in c.outbox && r.m.mid != row.m.mid) {
      UpsertMember(c.outbox, row, r);
    }
    forall r | r in c.outbox && r.status == Pending && r.m.ItemPatch? && r.m.itemId == e.itemId
      ensures r.m.mid == row.m.mid
    {
      FindPendingMember(c.outbox, e.itemId, r);
      FindPendingIsThere(c.outbox, e.itemId);
      var waiting := OutboxRow(FindPending(c.outbox, e.itemId).value, Pending);
      assert WaitsFor(c.outbox, r, e.itemId) && WaitsFor(c.outbox, waiting, e.itemId);
    }
    FindPendingMember(c'.outbox, e.itemId, row);
    FindPendingIsThere(c'.outbox, e.itemId);
  }

  ghost predicate EditsOf(c: Client, edits: seq<Edit>, itemId: Id)
    decreases |edits|
  {
    edits == [] ||
    (IsItemEdit(edits[0]) && edits[0].itemId == itemId && !HasMid(c.outbox, edits[0].mid)
     && EditsOf(ApplyEdit(c, edits[0]), edits[1..], itemId))
  }

  /** The waiting patch of an item, laid over the row the first edit met, gives the row the user sees. */
  ghost predicate Explains(c: Client, itemId: Id, base: LocalItem) {
    && itemId in c.items && UniqueMids(c.outbox) && OnePending(c.outbox, itemId)
    && match FindPending(c.outbox, itemId)
       case None => c.items[itemId] == base
       case Some(m) => LocalPatch(m) && c.items[itemId] == PatchRow(base, m)
  }

  lemma {:induction false} EditExplained(c: Client, e: Edit, base: LocalItem)
    requires IsItemEdit(e) && !HasMid(c.outbox, e.mid) && Explains(c, e.itemId, base)
    ensures Explains(ApplyEdit(c, e), e.itemId, base)
    ensures FindPending(ApplyEdit(c, e).outbox, e.itemId).Some?
  {
    var patch := ItemPatchOf(c.items[e.itemId], e);
    FoldedPatchWaits(c, e);
    EditIsItsPatch(c.items[e.itemId], c.items[e.itemId], e);
    match FindPending(c.outbox, e.itemId)
    case None =>
    case Some(waiting) => MergeComposes(base, waiting, patch);
  }

  /** Any number of offline edits of an item leave one waiting patch, and that patch applied to the row
      they started from is exactly the local row. */
  lemma {:induction false} OfflineEditsFold(c: Client, edits: seq<Edit>, itemId: Id, base: LocalItem)
    requires Explains(c, itemId, base) && EditsOf(c, edits, itemId)
    ensures Explains(ApplyEdits(c, edits), itemId, base)
    ensures edits != [] ==> FindPending(ApplyEdits(c, edits).outbox, itemId).Some?
    decreases |edits|
  {
    if edits != [] {
      EditExplained(c, edits[0], base);
      OfflineEditsFold(ApplyEdit(c, edits[0]), edits[1..], itemId, base);
    }
  }

  /** The server's row after accepting the folded patch is the row the user saw, one version on. */
  lemma {:induction false} ServerAgreesWithUser(db: Db, u: Id, m: Mutation, env: Env, c: Client, itemId: Id, base: LocalItem)
    requires m.ItemPatch? && m.itemId == itemId && itemId in db.items && itemId in c.items
    requires ItemMirrors(base, db.items[itemId]) && Explains(c, itemId, base)
    requires FindPending(c.outbox, itemId) == Some(m)
    requires Handle(db, u, m, env).Accepted?
    ensures var row := Handle(db, u, m, env).db.items[itemId];
            ItemMirrors(c.items[itemId].(version := db.items[itemId].version + 1), row)
  {
  }
}
