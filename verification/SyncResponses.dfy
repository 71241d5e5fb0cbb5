/** Applying one sync response: exactly which rows of the device the response leaves in sight. */
module SyncResponses {
  import opened Basics
  import opened ShoppingLists
  import opened ShoppingListLaws
  import opened ShoppingListIdempotency
  import opened Replica
  import opened ReplicaLaws
  import opened Convergence
  import opened SyncRuns

  // ---- The response's rows ----

  /** The two reads of a response: lists from `dbL`, items from the same or a later `dbI`, both no
      earlier than the sequence read `n` that becomes the new cursor. */
  ghost predicate Reads(dbL: Db, dbI: Db, u: Id, n: nat) {
    Inv(dbL) && Inv(dbI) && Advances(dbL, dbI) && n <= Seq(dbL, u)
  }

  lemma {:induction false} NewListAbove(db: Db, db': Db, id: Id)
    requires Advances(db, db') && id in db'.lists
    ensures id !in db.lists ==> Seq(db, db'.lists[id].user) < db'.lists[id].contentSeq
  {
    if id !in db.lists { assert ListIsNew(db, db', id); }
  }

  lemma {:induction false} NewItemAbove(db: Db, db': Db, id: Id)
    requires Advances(db, db') && id in db'.items
    ensures id !in db.items ==> Seq(db, db'.items[id].user) < db'.items[id].syncSeq
  {
    if id !in db.items { assert ItemIsNew(db, db', id); }
  }

  lemma {:induction false} UnchangedList(dbL: Db, dbI: Db, u: Id, n: nat, id: Id)
    requires Reads(dbL, dbI, u, n) && OwnsList(dbI, u, id) && dbI.lists[id].contentSeq <= n
    ensures id in dbL.lists && dbL.lists[id] == dbI.lists[id]
  {
    if id in dbL.lists { assert ListAdvances(dbL, dbI, id); }
    NewListAbove(dbL, dbI, id);
  }

  lemma {:induction false} UnchangedItem(dbL: Db, dbI: Db, u: Id, n: nat, id: Id)
    requires Reads(dbL, dbI, u, n) && id in dbI.items && dbI.items[id].user == u && dbI.items[id].syncSeq <= n
    ensures id in dbL.items && dbL.items[id] == dbI.items[id]
    ensures OwnsList(dbL, u, dbI.items[id].listId)
    ensures dbI.items[id].syncSeq <= dbL.lists[dbI.items[id].listId].contentSeq
  {
    if id in dbL.items { assert ItemAdvances(dbL, dbI, id); }
    NewItemAbove(dbL, dbI, id);
    assert ValidItem(dbL, id);
  }

  lemma {:induction false} DeliversRows(dbL: Db, dbI: Db, u: Id, since: Option<nat>, dtos: seq<ListDto>)
    requires Delivers(dbL, dbI, u, since, dtos)
    ensures RowsFrom(dbL, dbI, dtos)
  {
    forall i | 0 <= i < |dtos|
      ensures dtos[i].id in dbL.lists && dtos[i].list == dbL.lists[dtos[i].id] && ItemsFrom(dbI, dtos[i].id, dtos[i].items)
    {
      assert Answers(dbL, dbI, u, since, dtos[i]);
    }
  }

  lemma {:induction false} DueItemDelivered(dbL: Db, dbI: Db, u: Id, since: Option<nat>, dtos: seq<ListDto>, listId: Id, id: Id)
    requires Delivers(dbL, dbI, u, since, dtos)
    requires ListDue(dbL, u, since, listId) && ItemDue(dbI, u, since, listId, id)
    ensures InSnapshotItems(dtos, id)
  {
    var i :| 0 <= i < |dtos| && dtos[i].id == listId;
    assert Answers(dbL, dbI, u, since, dtos[i]);
    assert DeliversItem(dtos[i].items, id);
  }

  // ---- The rows after a response ----

  function Kept(c: Client, full: bool, dtos: seq<ListDto>): Client {
    if full then DropMissing(c, dtos) else c
  }

  /** A list that is not protected and not stamped above the new cursor now equals the server's row. */
  lemma {:induction false} ListSettled(dbL: Db, dbI: Db, u: Id, n: nat, since: Option<nat>, dtos: seq<ListDto>, c: Client, id: Id)
    requires Reads(dbL, dbI, u, n) && Delivers(dbL, dbI, u, since, dtos)
    requires OwnsList(dbI, u, id) && dbI.lists[id].contentSeq <= n && !NamesList(c.outbox, id)
    requires (since.None? || dbI.lists[id].contentSeq > since.value)
             || (id in c.lists && ListMirrors(c.lists[id], dbI.lists[id]))
    ensures var r := Receive(Kept(c, since.None?, dtos), dtos);
            id in r.lists && ListMirrors(r.lists[id], dbI.lists[id])
  {
    UnchangedList(dbL, dbI, u, n, id);
    DeliversRows(dbL, dbI, u, since, dtos);
    ReceiveListAt(Kept(c, since.None?, dtos), dbL, dbI, dtos, id);
    if since.None? || dbI.lists[id].contentSeq > since.value {
      assert ListDue(dbL, u, since, id);
    }
  }

  lemma {:induction false} ItemSettled(dbL: Db, dbI: Db, u: Id, n: nat, since: Option<nat>, dtos: seq<ListDto>, c: Client, id: Id)
    requires Reads(dbL, dbI, u, n) && Delivers(dbL, dbI, u, since, dtos)
    requires id in dbI.items && dbI.items[id].user == u && dbI.items[id].syncSeq <= n && !NamesItem(c.outbox, id)
    requires (since.None? || dbI.items[id].syncSeq > since.value)
             || (id in c.items && ItemMirrors(c.items[id], dbI.items[id]))
    ensures var r := Receive(Kept(c, since.None?, dtos), dtos);
            id in r.items && ItemMirrors(r.items[id], dbI.items[id])
  {
    UnchangedItem(dbL, dbI, u, n, id);
    DeliversRows(dbL, dbI, u, since, dtos);
    ReceiveItemAt(Kept(c, since.None?, dtos), dbL, dbI, dtos, id);
    if since.None? || dbI.items[id].syncSeq > since.value {
      DueItemDelivered(dbL, dbI, u, since, dtos, dbI.items[id].listId, id);
    }
  }

  /** What a response delivers is the account's and due. */
  lemma {:induction false} DeliveredListIsDue(dbL: Db, dbI: Db, u: Id, since: Option<nat>, dtos: seq<ListDto>, id: Id)
    requires Advances(dbL, dbI) && Delivers(dbL, dbI, u, since, dtos)
    ensures InSnapshotLists(dtos, id) ==> ListDue(dbL, u, since, id) && OwnsList(dbI, u, id)
  {
    if InSnapshotLists(dtos, id) {
      var i :| 0 <= i < |dtos| && dtos[i].id == id;
      assert Answers(dbL, dbI, u, since, dtos[i]);
      assert ListAdvances(dbL, dbI, id);
    }
  }

  lemma {:induction false} DeliveredItemIsDue(dbL: Db, dbI: Db, u: Id, since: Option<nat>, dtos: seq<ListDto>, id: Id)
    requires Delivers(dbL, dbI, u, since, dtos)
    ensures InSnapshotItems(dtos, id) ==> OwnItem(dbI, u, id) && (since.Some? ==> dbI.items[id].syncSeq > since.value)
  {
    if InSnapshotItems(dtos, id) {
      var i :| 0 <= i < |dtos| && DeliversItem(dtos[i].items, id);
      assert Answers(dbL, dbI, u, since, dtos[i]);
    }
  }

  // ---- One response ----

  /** The batch is in flight: keyed by mutation id, and each of its rows waits in the outbox. */
  ghost predicate Sent(c: Client, batch: seq<OutboxRow>) {
    UniqueMids(c.outbox) && UniqueMids(batch) && forall b :: b in batch ==> b.(status := InFlight) in c.outbox
  }

  /** `r` answers the batch of a device at cursor `since`, with the rows the two queries read. */
  ghost predicate Answering(dbL: Db, dbI: Db, u: Id, n: nat, c: Client, since: Option<nat>, r: SyncResponse) {
    && Reads(dbL, dbI, u, n) && Delivers(dbL, dbI, u, since, r.lists)
    && r.fullSnapshot == since.None? && (since.Some? ==> since.value == At(c) <= n)
    && r.cursor.Token? && r.cursor.version == CURSOR_VERSION && r.cursor.user == u && r.cursor.sequence == n
  }

  lemma {:induction false} SettledOutbox(dbL: Db, dbI: Db, u: Id, c: Client, batch: seq<OutboxRow>, since: Option<nat>, r: SyncResponse)
    requires r.fullSnapshot == since.None? && Delivers(dbL, dbI, u, since, r.lists)
    ensures var s := Settle(c, batch, r.conflicts);
            && s.lists == c.lists && s.items == c.items
            && ApplyResponse(c, batch, r).outbox == s.outbox
            && ApplyResponse(c, batch, r).lists == Receive(Kept(s, since.None?, r.lists), r.lists).lists
            && ApplyResponse(c, batch, r).items == Receive(Kept(s, since.None?, r.lists), r.lists).items
  {
    DeliversRows(dbL, dbI, u, since, r.lists);
    SettleKeepsRows(c, batch, r.conflicts);
    ReceiveListAt(Kept(Settle(c, batch, r.conflicts), r.fullSnapshot, r.lists), dbL, dbI, r.lists, Id(0));
  }

  lemma {:induction false} SettledUnique(c: Client, batch: seq<OutboxRow>, conflicts: seq<Conflict>)
    requires UniqueMids(c.outbox) && UniqueMids(batch)
    ensures UniqueMids(Settle(c, batch, conflicts).outbox)
  {
    var settled := Settle(c, batch, conflicts).outbox;
    forall r, s | r in settled && s in settled && r.m.mid == s.m.mid ensures r == s {
      SettleMember(c, batch, conflicts, r);
      SettleMember(c, batch, conflicts, s);
      forall b | b in batch ensures HasMid(batch, b.m.mid) { HasMidMember(batch, b); }
    }
  }

  /** The rows of a list that nothing protects after they are received: in step at the new cursor exactly when the
      response was a snapshot or they were in step at the old one. */
  lemma {:induction false} ReceivedListIff(dbL: Db, dbI: Db, u: Id, n: nat, since: Option<nat>, dtos: seq<ListDto>, s: Client, id: Id)
    requires Reads(dbL, dbI, u, n) && Delivers(dbL, dbI, u, since, dtos) && !NamesList(s.outbox, id)
    requires since.Some? ==> since.value <= n
    ensures ListInStep(dbI, u, RowOf(Receive(Kept(s, since.None?, dtos), dtos).lists, id), n, id)
            <==> since.None? || ListInStep(dbI, u, RowOf(s.lists, id), since.value, id)
  {
    DeliversRows(dbL, dbI, u, since, dtos);
    ReceiveListAt(Kept(s, since.None?, dtos), dbL, dbI, dtos, id);
    DeliveredListIsDue(dbL, dbI, u, since, dtos, id);
    if OwnsList(dbI, u, id) && dbI.lists[id].contentSeq <= n {
      UnchangedList(dbL, dbI, u, n, id);
      if since.None? || dbI.lists[id].contentSeq > since.value { ListSettled(dbL, dbI, u, n, since, dtos, s, id); }
    }
  }

  lemma {:induction false} ReceivedItemIff(dbL: Db, dbI: Db, u: Id, n: nat, since: Option<nat>, dtos: seq<ListDto>, s: Client, id: Id)
    requires Reads(dbL, dbI, u, n) && Delivers(dbL, dbI, u, since, dtos) && !NamesItem(s.outbox, id)
    requires since.Some? ==> since.value <= n
    ensures ItemInStep(dbI, u, RowOf(Receive(Kept(s, since.None?, dtos), dtos).items, id), n, id)
            <==> since.None? || ItemInStep(dbI, u, RowOf(s.items, id), since.value, id)
  {
    DeliversRows(dbL, dbI, u, since, dtos);
    ReceiveItemAt(Kept(s, since.None?, dtos), dbL, dbI, dtos, id);
    DeliveredItemIsDue(dbL, dbI, u, since, dtos, id);
    if OwnItem(dbI, u, id) && dbI.items[id].syncSeq <= n && (since.None? || dbI.items[id].syncSeq > since.value) {
      ItemSettled(dbL, dbI, u, n, since, dtos, s, id);
    }
  }

  /** Every row is named by the outbox, or in step on both sides. */
  ghost predicate LeavesInSight(db: Db, u: Id, c: Client, outbox: seq<OutboxRow>) {
    && (forall id :: NamesList(outbox, id) || ListInStep(db, u, RowOf(c.lists, id), At(c), id))
    && (forall id :: NamesItem(outbox, id) || ItemInStep(db, u, RowOf(c.items, id), At(c), id))
  }

  lemma {:induction false} ResponseListIff(dbL: Db, dbI: Db, u: Id, n: nat, c: Client, batch: seq<OutboxRow>, since: Option<nat>, r: SyncResponse, id: Id)
    requires Answering(dbL, dbI, u, n, c, since, r)
    ensures var c' := ApplyResponse(c, batch, r);
            NamesList(c'.outbox, id) || ListInStep(dbI, u, RowOf(c'.lists, id), At(c'), id)
            <==> since.None? || NamesList(c'.outbox, id) || ListInStep(dbI, u, RowOf(c.lists, id), At(c), id)
  {
    var s := Settle(c, batch, r.conflicts);
    SettledOutbox(dbL, dbI, u, c, batch, since, r);
    if !NamesList(s.outbox, id) { ReceivedListIff(dbL, dbI, u, n, since, r.lists, s, id); }
  }

  lemma {:induction false} ResponseItemIff(dbL: Db, dbI: Db, u: Id, n: nat, c: Client, batch: seq<OutboxRow>, since: Option<nat>, r: SyncResponse, id: Id)
    requires Answering(dbL, dbI, u, n, c, since, r)
    ensures var c' := ApplyResponse(c, batch, r);
            NamesItem(c'.outbox, id) || ItemInStep(dbI, u, RowOf(c'.items, id), At(c'), id)
            <==> since.None? || NamesItem(c'.outbox, id) || ItemInStep(dbI, u, RowOf(c.items, id), At(c), id)
  {
    var s := Settle(c, batch, r.conflicts);
    SettledOutbox(dbL, dbI, u, c, batch, since, r);
    if !NamesItem(s.outbox, id) { ReceivedItemIff(dbL, dbI, u, n, since, r.lists, s, id); }
  }

  /** After a response, with others writing between its reads: a snapshot leaves nothing out of sight, whatever the
      device held; a delta leaves nothing out of sight if and only if every row that the settled outbox no longer names
      was in step at the old cursor. */
  lemma {:induction false} ResponseTracksIff(dbL: Db, dbI: Db, u: Id, n: nat, c: Client, batch: seq<OutboxRow>, since: Option<nat>, r: SyncResponse)
    requires Answering(dbL, dbI, u, n, c, since, r) && Sent(c, batch)
    ensures var c' := ApplyResponse(c, batch, r);
            Tracked(dbI, u, c') <==> since.None? || LeavesInSight(dbI, u, c, Settle(c, batch, r.conflicts).outbox)
  {
    var c' := ApplyResponse(c, batch, r);
    SettledUnique(c, batch, r.conflicts);
    SettledOutbox(dbL, dbI, u, c, batch, since, r);
    TracksIff(dbI, u, c');
    forall id ensures NamesList(c'.outbox, id) || ListInStep(dbI, u, RowOf(c'.lists, id), At(c'), id)
                      <==> since.None? || NamesList(c'.outbox, id) || ListInStep(dbI, u, RowOf(c.lists, id), At(c), id)
    {
      ResponseListIff(dbL, dbI, u, n, c, batch, since, r, id);
    }
    forall id ensures NamesItem(c'.outbox, id) || ItemInStep(dbI, u, RowOf(c'.items, id), At(c'), id)
                      <==> since.None? || NamesItem(c'.outbox, id) || ItemInStep(dbI, u, RowOf(c.items, id), At(c), id)
    {
      ResponseItemIff(dbL, dbI, u, n, c, batch, since, r, id);
    }
  }
}
