/** Lists that the app fetches outside the sync and writes over whatever the replica holds. */
module ServerLists {
  import opened Basics
  import opened ShoppingLists
  import opened ShoppingListLaws
  import opened Replica
  import opened ReplicaLaws
  import opened Convergence
  import opened Discards

  /** The last row of the answer for an item. */
  function LastRow(rows: seq<(Id, ItemRow)>, id: Id): Option<ItemRow> {
    if rows == [] then None
    else if rows[|rows| - 1].0 == id then Some(rows[|rows| - 1].1)
    else LastRow(rows[..|rows| - 1], id)
  }

  /** Each row the answer carries is named by the outbox, or in step with the server as it is now. */
  ghost predicate PersistSafe(db: Db, u: Id, c: Client, dto: ListDto) {
    && (NamesList(c.outbox, dto.id) || ListInStep(db, u, Some(ToLocalList(dto.list)), At(c), dto.id))
    && (forall id :: LastRow(dto.items, id).Some? ==> PersistedItemSafe(db, u, c, dto, id))
  }

  ghost predicate PersistedItemSafe(db: Db, u: Id, c: Client, dto: ListDto, id: Id)
    requires LastRow(dto.items, id).Some?
  {
    NamesItem(c.outbox, id) || ItemInStep(db, u, Some(ToLocalItem(dto.id, LastRow(dto.items, id).value)), At(c), id)
  }

  lemma {:induction false} LastRowTail(rows: seq<(Id, ItemRow)>, id: Id)
    requires rows != []
    ensures LastRow(rows, id) == if LastRow(rows[1..], id).Some? then LastRow(rows[1..], id)
                                 else if rows[0].0 == id then Some(rows[0].1) else None
  {
    if |rows| > 1 {
      LastRowTail(rows[..|rows| - 1], id);
      assert rows[1..][..|rows[1..]| - 1] == rows[..|rows| - 1][1..];
    }
  }

  lemma {:induction false} PersistedItem(items: map<Id, LocalItem>, listId: Id, rows: seq<(Id, ItemRow)>, id: Id)
    ensures RowOf(PersistItems(items, listId, rows), id)
            == if LastRow(rows, id).Some? then Some(ToLocalItem(listId, LastRow(rows, id).value)) else RowOf(items, id)
    decreases |rows|
  {
    if rows != [] {
      LastRowTail(rows, id);
      PersistedItem(items[rows[0].0 := ToLocalItem(listId, rows[0].1)], listId, rows[1..], id);
    }
  }

  /** A fetched list stands as the server answered it, whatever waits, and each of its items as its last row in the answer;
      no other row, and nothing of the outbox, the conflicts and the cursor, changes. */
  lemma {:induction false} PersistAnswers(c: Client, dto: ListDto, id: Id)
    requires forall j :: 0 <= j < |dto.items| ==> dto.items[j].1.listId == dto.id
    ensures var c' := PersistServerList(c, dto);
            && dto.id in c'.lists && ListMirrors(c'.lists[dto.id], dto.list) && c'.lists == c.lists[dto.id := c'.lists[dto.id]]
            && c'.outbox == c.outbox && c'.conflicts == c.conflicts && c'.cursor == c.cursor
            && (DeliversItem(dto.items, id) ==>
                  id in c'.items && LastRow(dto.items, id).Some? && ItemMirrors(c'.items[id], LastRow(dto.items, id).value))
            && (!DeliversItem(dto.items, id) ==> RowOf(c'.items, id) == RowOf(c.items, id))
  {
    PersistedItem(c.items, dto.id, dto.items, id);
    LastRowIsDelivered(dto.items, id);
  }

  lemma {:induction false} LastRowIsDelivered(rows: seq<(Id, ItemRow)>, id: Id)
    ensures LastRow(rows, id).Some? <==> DeliversItem(rows, id)
    ensures LastRow(rows, id).Some? ==> exists i :: 0 <= i < |rows| && rows[i] == (id, LastRow(rows, id).value)
                                                  && forall j :: i < j < |rows| ==> rows[j].0 != id
  {
    if rows != [] {
      var rest, last := rows[..|rows| - 1], rows[|rows| - 1];
      LastRowIsDelivered(rest, id);
      if last.0 == id {
        assert rows[|rest|] == (id, LastRow(rows, id).value);
      } else if LastRow(rest, id).Some? {
        var i :| 0 <= i < |rest| && rest[i] == (id, LastRow(rest, id).value) && forall j :: i < j < |rest| ==> rest[j].0 != id;
        forall j | i < j < |rows| ensures rows[j].0 != id { if j < |rest| { assert rest[j] == rows[j]; } }
        assert rows[i] == (id, LastRow(rows, id).value);
      } else {
        assert forall i :: 0 <= i < |rest| ==> rest[i] == rows[i];
      }
    }
  }

  /** Writing an answer over the replica keeps every differing row in sight if and only if each row of it is in step
      now, or named by the outbox. */
  lemma {:induction false} PersistKeepsIff(db: Db, u: Id, c: Client, dto: ListDto)
    requires Tracked(db, u, c)
    ensures Tracked(db, u, PersistServerList(c, dto)) <==> PersistSafe(db, u, c, dto)
    ensures Redelivers(db, u, c) ==> Redelivers(db, u, PersistServerList(c, dto))
  {
    var c' := PersistServerList(c, dto);
    TracksIff(db, u, c);
    TracksIff(db, u, c');
    forall id ensures RowOf(c'.items, id) == if LastRow(dto.items, id).Some? then Some(ToLocalItem(dto.id, LastRow(dto.items, id).value))
                                             else RowOf(c.items, id)
    {
      PersistedItem(c.items, dto.id, dto.items, id);
    }
    forall id | id != dto.id ensures RowOf(c'.lists, id) == RowOf(c.lists, id) {}
  }

  /** The answer holds the rows of a list as the server had them at `db0`. */
  ghost predicate AnsweredAt(db0: Db, u: Id, dto: ListDto) {
    && OwnsList(db0, u, dto.id) && dto.list == db0.lists[dto.id]
    && forall id :: LastRow(dto.items, id).Some? ==> OwnsItem(db0, u, dto.id, id) && LastRow(dto.items, id).value == db0.items[id]
  }

  lemma {:induction false} LateListIff(db0: Db, db: Db, u: Id, c: Client, dto: ListDto)
    requires OwnsList(db0, u, dto.id) && ListAdvances(db0, db, dto.id) && ValidList(db0, dto.id) && dto.list == db0.lists[dto.id]
    ensures ListInStep(db, u, Some(ToLocalList(dto.list)), At(c), dto.id) <==>
            db.lists[dto.id] == db0.lists[dto.id] || db.lists[dto.id].contentSeq > At(c)
  {
  }

  lemma {:induction false} LateItemIff(db0: Db, db: Db, u: Id, c: Client, dto: ListDto, id: Id)
    requires AnsweredAt(db0, u, dto) && LastRow(dto.items, id).Some? && ItemAdvances(db0, db, id)
    ensures PersistedItemSafe(db, u, c, dto, id) <==>
            || NamesItem(c.outbox, id) || db.items[id].syncSeq > At(c)
            || SameContents(db.items[id], db0.items[id])
  {
  }

  /** An answer of an earlier moment, say one that a sync has overtaken: it is safe to write if and only if each row
      it carries is still the server's, or written above the cursor since, or named by the outbox. */
  lemma {:induction false} LateAnswerIff(db0: Db, db: Db, u: Id, c: Client, dto: ListDto)
    requires Inv(db0) && Advances(db0, db) && AnsweredAt(db0, u, dto)
    ensures PersistSafe(db, u, c, dto) <==>
            && (NamesList(c.outbox, dto.id) || db.lists[dto.id] == db0.lists[dto.id] || db.lists[dto.id].contentSeq > At(c))
            && (forall id :: LastRow(dto.items, id).Some? ==>
                  || NamesItem(c.outbox, id) || db.items[id].syncSeq > At(c)
                  || SameContents(db.items[id], db0.items[id]))
  {
    assert ListAdvances(db0, db, dto.id) && ValidList(db0, dto.id);
    LateListIff(db0, db, u, c, dto);
    forall id | LastRow(dto.items, id).Some?
      ensures PersistedItemSafe(db, u, c, dto, id) <==>
              || NamesItem(c.outbox, id) || db.items[id].syncSeq > At(c)
              || SameContents(db.items[id], db0.items[id])
    {
      assert ItemAdvances(db0, db, id);
      LateItemIff(db0, db, u, c, dto, id);
    }
  }
}
