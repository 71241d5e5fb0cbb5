/** How the outbox and the rows of a replica change: membership facts the convergence proof builds on. */
module ReplicaLaws {
  import opened Basics
  import opened ShoppingLists
  import opened ShoppingListLaws
  import opened Replica

  // ---- Rows on both sides ----

  /** The local row says what the server's does, field by field, and is no draft. */
  predicate ListMirrors(row: LocalList, server: ListRow) {
    && row.name == server.name && row.status == server.status && row.deleted == server.deleted && !row.isDraft
    && row.version == server.version && row.contentRevision == server.contentSeq
    && row.createdAt == server.createdAt && row.updatedAt == server.updatedAt
  }

  predicate ItemMirrors(row: LocalItem, server: ItemRow) {
    && row.listId == server.listId && row.product == server.product && row.freeText == server.freeText
    && row.thousandths == server.thousandths && row.unit == server.unit && row.checked == server.checked
    && row.position == server.position && row.version == server.version && row.deleted == server.deleted
  }

  // ---- Outbox membership ----

  /** The outbox is keyed by mutation id. */
  ghost predicate UniqueMids(outbox: seq<OutboxRow>) {
    forall r, s :: r in outbox && s in outbox && r.m.mid == s.m.mid ==> r == s
  }

  lemma {:induction false} UpsertMember(outbox: seq<OutboxRow>, row: OutboxRow, r: OutboxRow)
    ensures r in Upsert(outbox, row) <==> r == row || (r in outbox && r.m.mid != row.m.mid)
  {
    var result := Upsert(outbox, row);
    if HasMid(outbox, row.m.mid) {
      var k :| 0 <= k < |outbox| && outbox[k].m.mid == row.m.mid;
      assert result[k] == row;
      if r in outbox && r.m.mid != row.m.mid {
        var i :| 0 <= i < |outbox| && outbox[i] == r;
        assert result[i] == r;
      }
    } else if r in outbox {
      var i :| 0 <= i < |outbox| && outbox[i] == r;
      assert result[i] == r;
    }
  }

  lemma {:induction false} DeleteMember(outbox: seq<OutboxRow>, mid: Id, r: OutboxRow)
    ensures r in Delete(outbox, mid) <==> r in outbox && r.m.mid != mid
  {
    if outbox != [] { DeleteMember(outbox[1..], mid, r); }
  }

  lemma {:induction false} SendableMember(outbox: seq<OutboxRow>, r: OutboxRow)
    ensures r in Sendable(outbox) <==> r in outbox && IsSendable(r)
  {
    if outbox != [] { SendableMember(outbox[1..], r); }
  }

  lemma {:induction false} NamesListBy(outbox: seq<OutboxRow>, r: OutboxRow, id: Id)
    requires r in outbox && TargetList(r.m) == Some(id)
    ensures NamesList(outbox, id)
  {
    var i :| 0 <= i < |outbox| && outbox[i] == r;
  }

  lemma {:induction false} NamesItemBy(outbox: seq<OutboxRow>, r: OutboxRow, id: Id)
    requires r in outbox && TargetItem(r.m) == Some(id)
    ensures NamesItem(outbox, id)
  {
    var i :| 0 <= i < |outbox| && outbox[i] == r;
  }

  lemma {:induction false} HasMidSplit(batch: seq<OutboxRow>, mid: Id)
    requires batch != []
    ensures HasMid(batch, mid) <==> batch[0].m.mid == mid || HasMid(batch[1..], mid)
  {
    var rest := batch[1..];
    if HasMid(rest, mid) {
      var i :| 0 <= i < |rest| && rest[i].m.mid == mid;
      assert batch[i + 1] == rest[i];
    }
    if HasMid(batch, mid) && batch[0].m.mid != mid {
      var i :| 0 <= i < |batch| && batch[i].m.mid == mid;
      assert rest[i - 1] == batch[i];
    }
  }

  /** In a batch keyed by mutation id, a later row with the first row's id is that same row. */
  lemma {:induction false} LaterTwin(batch: seq<OutboxRow>)
    requires batch != [] && UniqueMids(batch)
    ensures UniqueMids(batch[1..])
    ensures HasMid(batch[1..], batch[0].m.mid) ==> batch[0] in batch[1..]
  {
    var rest := batch[1..];
    assert forall b :: b in rest ==> b in batch;
    if HasMid(rest, batch[0].m.mid) {
      var i :| 0 <= i < |rest| && rest[i].m.mid == batch[0].m.mid;
      assert rest[i] in batch && batch[0] in batch;
    }
  }

  lemma {:induction false} HasMidMember(outbox: seq<OutboxRow>, r: OutboxRow)
    requires r in outbox
    ensures HasMid(outbox, r.m.mid)
  {
    var i :| 0 <= i < |outbox| && outbox[i] == r;
  }

  /** Restamping a batch replaces exactly its own rows. */
  lemma {:induction false} WithStatusMember(outbox: seq<OutboxRow>, batch: seq<OutboxRow>, status: SendStatus, r: OutboxRow)
    requires UniqueMids(batch)
    ensures r in WithStatus(outbox, batch, status) <==>
            (r in outbox && !HasMid(batch, r.m.mid)) || (exists b :: b in batch && r == b.(status := status))
    decreases |batch|
  {
    if batch != [] {
      var row, rest := batch[0].(status := status), batch[1..];
      var next := Upsert(outbox, row);
      LaterTwin(batch);
      WithStatusMember(next, rest, status, r);
      UpsertMember(outbox, row, r);
      assert forall b :: b in batch <==> b == batch[0] || b in rest;
      HasMidSplit(batch, r.m.mid);
    }
  }

  /** The outbox row a settled batch leaves for `b`, if its mutation was refused. */
  function Refused(b: OutboxRow, conflicts: seq<Conflict>): Option<OutboxRow> {
    match FindConflict(conflicts, b.m.mid)
    case None => None
    case Some(k) => Some(b.(status := if k.code == CursorExpired then Pending else InConflict))
  }

  /** Settling a batch leaves the other rows alone and keeps exactly the refused ones of its own. */
  lemma {:induction false} SettleMember(c: Client, batch: seq<OutboxRow>, conflicts: seq<Conflict>, r: OutboxRow)
    requires UniqueMids(batch)
    ensures r in Settle(c, batch, conflicts).outbox <==>
            (r in c.outbox && !HasMid(batch, r.m.mid)) || (exists b :: b in batch && Refused(b, conflicts) == Some(r))
    decreases |batch|
  {
    if batch != [] {
      var b0, rest := batch[0], batch[1..];
      var next := SettleRow(c, b0, FindConflict(conflicts, b0.m.mid));
      LaterTwin(batch);
      SettleMember(next, rest, conflicts, r);
      DeleteMember(c.outbox, b0.m.mid, r);
      if Refused(b0, conflicts).Some? { UpsertMember(c.outbox, Refused(b0, conflicts).value, r); }
      assert forall b :: b in batch <==> b == b0 || b in rest;
      HasMidSplit(batch, r.m.mid);
    }
  }

  lemma {:induction false} SettleKeepsRows(c: Client, batch: seq<OutboxRow>, conflicts: seq<Conflict>)
    ensures var s := Settle(c, batch, conflicts);
            s.lists == c.lists && s.items == c.items && s.cursor == c.cursor
    decreases |batch|
  {
    if batch != [] {
      SettleKeepsRows(SettleRow(c, batch[0], FindConflict(conflicts, batch[0].m.mid)), batch[1..], conflicts);
    }
  }

  lemma {:induction false} FindConflictFinds(conflicts: seq<Conflict>, mid: Id)
    ensures FindConflict(conflicts, mid).None? <==> forall k :: k in conflicts ==> k.mid != mid
    ensures FindConflict(conflicts, mid).Some? ==> FindConflict(conflicts, mid).value in conflicts
  {
    if conflicts != [] {
      var rest := conflicts[..|conflicts| - 1];
      FindConflictFinds(rest, mid);
      assert forall k :: k in conflicts <==> k in rest || k == conflicts[|conflicts| - 1];
    }
  }

  // ---- Receiving rows ----

  /** Every row named `id` in the answer is the one `dbI` holds, and it is an item of list `listId`. */
  ghost predicate ItemsFrom(dbI: Db, listId: Id, items: seq<(Id, ItemRow)>) {
    forall j :: 0 <= j < |items| ==>
      items[j].0 in dbI.items && items[j].1 == dbI.items[items[j].0] && items[j].1.listId == listId
  }

  lemma {:induction false} ReceiveItemsAt(c: Client, dbI: Db, listId: Id, items: seq<(Id, ItemRow)>, id: Id)
    requires ItemsFrom(dbI, listId, items)
    ensures var r := ReceiveItems(c, listId, items);
            && r.outbox == c.outbox && r.lists == c.lists
            && (NamesItem(c.outbox, id) || !DeliversItem(items, id) ==>
                  (id in r.items <==> id in c.items) && (id in c.items ==> r.items[id] == c.items[id]))
            && (!NamesItem(c.outbox, id) && DeliversItem(items, id) ==>
                  id in r.items && id in dbI.items && ItemMirrors(r.items[id], dbI.items[id]))
    decreases |items|
  {
    if items != [] {
      var rest := items[1..];
      var next := if NamesItem(c.outbox, items[0].0) then c
                  else c.(items := c.items[items[0].0 := ToLocalItem(listId, items[0].1)]);
      assert forall j :: 0 <= j < |rest| ==> rest[j] == items[j + 1];
      ReceiveItemsAt(next, dbI, listId, rest, id);
      assert DeliversItem(items, id) <==> items[0].0 == id || DeliversItem(rest, id) by {
        if DeliversItem(items, id) && items[0].0 != id {
          var j :| 0 <= j < |items| && items[j].0 == id;
          assert rest[j - 1].0 == id;
        }
        if DeliversItem(rest, id) {
          var j :| 0 <= j < |rest| && rest[j].0 == id;
          assert items[j + 1].0 == id;
        }
      }
    }
  }

  ghost predicate RowsFrom(dbL: Db, dbI: Db, dtos: seq<ListDto>) {
    forall i :: 0 <= i < |dtos| ==>
      dtos[i].id in dbL.lists && dtos[i].list == dbL.lists[dtos[i].id] && ItemsFrom(dbI, dtos[i].id, dtos[i].items)
  }

  lemma {:induction false} InDtosSplit(dtos: seq<ListDto>, id: Id)
    requires dtos != []
    ensures InSnapshotItems(dtos, id) <==> DeliversItem(dtos[0].items, id) || InSnapshotItems(dtos[1..], id)
    ensures InSnapshotLists(dtos, id) <==> dtos[0].id == id || InSnapshotLists(dtos[1..], id)
  {
    var rest := dtos[1..];
    if InSnapshotItems(dtos, id) && !DeliversItem(dtos[0].items, id) {
      var i :| 0 <= i < |dtos| && DeliversItem(dtos[i].items, id);
      assert rest[i - 1] == dtos[i];
    }
    if InSnapshotItems(rest, id) {
      var i :| 0 <= i < |rest| && DeliversItem(rest[i].items, id);
      assert dtos[i + 1] == rest[i];
    }
    if InSnapshotLists(dtos, id) && dtos[0].id != id {
      var i :| 0 <= i < |dtos| && dtos[i].id == id;
      assert rest[i - 1] == dtos[i];
    }
    if InSnapshotLists(rest, id) {
      var i :| 0 <= i < |rest| && rest[i].id == id;
      assert dtos[i + 1] == rest[i];
    }
  }

  /** A response overwrites exactly the delivered rows that no waiting mutation names. */
  lemma {:induction false} ReceiveItemAt(c: Client, dbL: Db, dbI: Db, dtos: seq<ListDto>, id: Id)
    requires RowsFrom(dbL, dbI, dtos)
    ensures var r := Receive(c, dtos);
            && r.outbox == c.outbox
            && (NamesItem(c.outbox, id) || !InSnapshotItems(dtos, id) ==>
                  (id in r.items <==> id in c.items) && (id in c.items ==> r.items[id] == c.items[id]))
            && (!NamesItem(c.outbox, id) && InSnapshotItems(dtos, id) ==>
                  id in r.items && id in dbI.items && ItemMirrors(r.items[id], dbI.items[id]))
    decreases |dtos|
  {
    if dtos != [] {
      var c1 := ReceiveList(c, dtos[0]);
      var c2 := ReceiveItems(c1, dtos[0].id, dtos[0].items);
      RowsFromTail(dbL, dbI, dtos);
      ReceiveItemsAt(c1, dbI, dtos[0].id, dtos[0].items, id);
      ReceiveItemAt(c2, dbL, dbI, dtos[1..], id);
      InDtosSplit(dtos, id);
    }
  }

  /** Up to the draft mark, which only a kept list can get. */
  predicate SameUpToDraft(a: LocalList, b: LocalList) {
    a == b || a == b.(isDraft := true)
  }

  /** A kept list is marked as a draft exactly when the delivered one is archived or deleted. */
  function Kept(row: LocalList, dbL: Db, delivered: bool, id: Id): LocalList {
    if delivered && id in dbL.lists && (dbL.lists[id].status == Archived || dbL.lists[id].deleted) then row.(isDraft := true) else row
  }

  lemma {:induction false} RowsFromTail(dbL: Db, dbI: Db, dtos: seq<ListDto>)
    requires dtos != [] && RowsFrom(dbL, dbI, dtos)
    ensures RowsFrom(dbL, dbI, dtos[1..]) && ItemsFrom(dbI, dtos[0].id, dtos[0].items)
  {
    forall i | 0 <= i < |dtos[1..]| ensures dtos[1..][i] == dtos[i + 1] {}
  }

  /** What receiving does to list `id`, which was `delivered` or not. */
  ghost predicate ListResult(c: Client, r: Client, dbL: Db, delivered: bool, id: Id) {
    && r.outbox == c.outbox
    && (id in r.lists <==> id in c.lists || delivered)
    && (!delivered && id in c.lists ==> r.lists[id] == c.lists[id])
    && (NamesList(c.outbox, id) && id in c.lists ==> r.lists[id] == Kept(c.lists[id], dbL, delivered, id))
    && (!NamesList(c.outbox, id) && delivered ==> id in dbL.lists && ListMirrors(r.lists[id], dbL.lists[id]))
  }

  lemma {:induction false} ListResultTransitive(a: Client, b: Client, c: Client, dbL: Db, first: bool, second: bool, id: Id)
    requires ListResult(a, b, dbL, first, id) && ListResult(b, c, dbL, second, id)
    ensures ListResult(a, c, dbL, first || second, id)
  {
  }

  /** A response overwrites exactly the delivered lists that no waiting mutation names; a kept list is at most marked
      a draft. */
  lemma {:induction false} ReceiveListAt(c: Client, dbL: Db, dbI: Db, dtos: seq<ListDto>, id: Id)
    requires RowsFrom(dbL, dbI, dtos)
    ensures ListResult(c, Receive(c, dtos), dbL, InSnapshotLists(dtos, id), id)
    decreases |dtos|
  {
    if dtos != [] {
      var c1 := ReceiveList(c, dtos[0]);
      var c2 := ReceiveItems(c1, dtos[0].id, dtos[0].items);
      RowsFromTail(dbL, dbI, dtos);
      ReceiveItemsAt(c1, dbI, dtos[0].id, dtos[0].items, id);
      assert ListResult(c, c2, dbL, dtos[0].id == id, id);
      ReceiveListAt(c2, dbL, dbI, dtos[1..], id);
      InDtosSplit(dtos, id);
      ListResultTransitive(c, c2, Receive(c, dtos), dbL, dtos[0].id == id, InSnapshotLists(dtos[1..], id), id);
    }
  }
}
