/** One device, the server and every other device together: the invariant that a row on which device and server
    differ is named by the outbox or stamped above the cursor, and what commits and offline edits do to it. */
module Convergence {
  import opened Basics
  import opened ShoppingLists
  import opened ShoppingListLaws
  import opened ShoppingListIdempotency
  import opened Replica
  import opened ReplicaLaws

  // ---- The invariant ----

  function At(c: Client): nat {
    if c.cursor.Some? && c.cursor.value.Token? && c.cursor.value.sequence >= 0 then c.cursor.value.sequence else 0
  }

  ghost predicate ListTracked(db: Db, u: Id, c: Client, id: Id) {
    OwnsList(db, u, id) ==>
      || (id in c.lists && ListMirrors(c.lists[id], db.lists[id]))
      || NamesList(c.outbox, id)
      || db.lists[id].contentSeq > At(c)
  }

  ghost predicate ItemTracked(db: Db, u: Id, c: Client, id: Id) {
    id in db.items && db.items[id].user == u ==>
      || (id in c.items && ItemMirrors(c.items[id], db.items[id]))
      || NamesItem(c.outbox, id)
      || db.items[id].syncSeq > At(c)
  }

  ghost predicate NoStrayList(db: Db, u: Id, c: Client, id: Id) {
    id in c.lists ==> OwnsList(db, u, id) || NamesList(c.outbox, id)
  }

  ghost predicate NoStrayItem(db: Db, u: Id, c: Client, id: Id) {
    id in c.items ==> (id in db.items && db.items[id].user == u) || NamesItem(c.outbox, id)
  }

  /** Where the replica and the server differ, the outbox names the row or its sequence number lies above the cursor. */
  ghost predicate Tracks(db: Db, u: Id, c: Client) {
    && (forall id :: ListTracked(db, u, c, id))
    && (forall id :: ItemTracked(db, u, c, id))
    && (forall id :: NoStrayList(db, u, c, id))
    && (forall id :: NoStrayItem(db, u, c, id))
  }

  /** A mutation that is to be sent again although the server has it: its rows will still be delivered. */
  ghost predicate Redelivers(db: Db, u: Id, c: Client) {
    forall r :: r in c.outbox && IsSendable(r) && KeyOf(u, r.m) in db.records ==> Stamped(db, u, r.m, At(c))
  }

  ghost predicate CursorOk(db: Db, u: Id, c: Client) {
    c.cursor.Some? ==>
      && c.cursor.value.Token? && c.cursor.value.version == CURSOR_VERSION && c.cursor.value.user == u
      && 0 <= c.cursor.value.sequence <= Seq(db, u)
  }

  /** The invariant: nothing that differs is out of sight of the device. */
  ghost predicate Tracked(db: Db, u: Id, c: Client) {
    Inv(db) && UniqueMids(c.outbox) && CursorOk(db, u, c) && Tracks(db, u, c)
  }

  /** More than the invariant: sending again does no harm either. Not every run keeps it. */
  ghost predicate WorldInv(db: Db, u: Id, c: Client) {
    Tracked(db, u, c) && Redelivers(db, u, c)
  }

  // ---- Rows that need no mutation to name them ----

  function RowOf<T>(rows: map<Id, T>, id: Id): Option<T> {
    if id in rows then Some(rows[id]) else None
  }

  predicate OwnItem(db: Db, u: Id, id: Id) {
    id in db.items && db.items[id].user == u
  }

  /** The device's row of a list is the server's, or the server's is stamped above `at`. */
  predicate ListInStep(db: Db, u: Id, row: Option<LocalList>, at: nat, id: Id) {
    if OwnsList(db, u, id) then (row.Some? && ListMirrors(row.value, db.lists[id])) || db.lists[id].contentSeq > at else row.None?
  }

  predicate ItemInStep(db: Db, u: Id, row: Option<LocalItem>, at: nat, id: Id) {
    if OwnItem(db, u, id) then (row.Some? && ItemMirrors(row.value, db.items[id])) || db.items[id].syncSeq > at else row.None?
  }

  lemma {:induction false} ListTrackedIff(db: Db, u: Id, c: Client, id: Id)
    ensures ListTracked(db, u, c, id) && NoStrayList(db, u, c, id)
            <==> NamesList(c.outbox, id) || ListInStep(db, u, RowOf(c.lists, id), At(c), id)
  {
  }

  lemma {:induction false} ItemTrackedIff(db: Db, u: Id, c: Client, id: Id)
    ensures ItemTracked(db, u, c, id) && NoStrayItem(db, u, c, id)
            <==> NamesItem(c.outbox, id) || ItemInStep(db, u, RowOf(c.items, id), At(c), id)
  {
  }

  /** Tracking, row by row. */
  lemma {:induction false} TracksIff(db: Db, u: Id, c: Client)
    ensures Tracks(db, u, c) <==>
            && (forall id :: NamesList(c.outbox, id) || ListInStep(db, u, RowOf(c.lists, id), At(c), id))
            && (forall id :: NamesItem(c.outbox, id) || ItemInStep(db, u, RowOf(c.items, id), At(c), id))
  {
    forall id ensures ListTracked(db, u, c, id) && NoStrayList(db, u, c, id)
                      <==> NamesList(c.outbox, id) || ListInStep(db, u, RowOf(c.lists, id), At(c), id)
    {
      ListTrackedIff(db, u, c, id);
    }
    forall id ensures ItemTracked(db, u, c, id) && NoStrayItem(db, u, c, id)
                      <==> NamesItem(c.outbox, id) || ItemInStep(db, u, RowOf(c.items, id), At(c), id)
    {
      ItemTrackedIff(db, u, c, id);
    }
  }

  /** Later, a row is in step if it was before or the server's row has been written above `at` since. */
  lemma {:induction false} ListInStepLater(db: Db, db': Db, u: Id, row: Option<LocalList>, at: nat, id: Id)
    requires Advances(db, db') && at <= Seq(db, u)
    ensures ListInStep(db', u, row, at, id) <==>
            ListInStep(db, u, row, at, id) || (OwnsList(db', u, id) && db'.lists[id].contentSeq > at)
  {
    if id in db.lists { assert ListAdvances(db, db', id); } else if id in db'.lists { assert ListIsNew(db, db', id); }
  }

  lemma {:induction false} ItemInStepLater(db: Db, db': Db, u: Id, row: Option<LocalItem>, at: nat, id: Id)
    requires Advances(db, db') && at <= Seq(db, u)
    ensures ItemInStep(db', u, row, at, id) <==>
            ItemInStep(db, u, row, at, id) || (OwnItem(db', u, id) && db'.items[id].syncSeq > at)
  {
    if id in db.items { assert ItemAdvances(db, db', id); } else if id in db'.items { assert ItemIsNew(db, db', id); }
  }

  // ---- The server moves on ----

  lemma {:induction false} StampedAdvances(db: Db, db': Db, u: Id, m: Mutation, c: nat)
    requires Advances(db, db') && Stamped(db, u, m, c)
    ensures Stamped(db', u, m, c)
  {
    if TargetList(m).Some? { assert ListAdvances(db, db', TargetList(m).value); }
    if TargetItem(m).Some? { assert ItemAdvances(db, db', TargetItem(m).value); }
  }

  lemma {:induction false} TracksAdvances(db: Db, db': Db, u: Id, c: Client)
    requires Advances(db, db') && Tracks(db, u, c) && CursorOk(db, u, c)
    ensures Tracks(db', u, c)
  {
    forall id ensures ListTracked(db', u, c, id) {
      assert ListTracked(db, u, c, id);
      if id in db.lists { assert ListAdvances(db, db', id); } else if id in db'.lists { assert ListIsNew(db, db', id); }
    }
    forall id ensures ItemTracked(db', u, c, id) {
      assert ItemTracked(db, u, c, id);
      if id in db.items { assert ItemAdvances(db, db', id); } else if id in db'.items { assert ItemIsNew(db, db', id); }
    }
    forall id ensures NoStrayList(db', u, c, id) {
      assert NoStrayList(db, u, c, id);
      if id in db.lists { assert ListAdvances(db, db', id); }
    }
    forall id ensures NoStrayItem(db', u, c, id) {
      assert NoStrayItem(db, u, c, id);
      if id in db.items { assert ItemAdvances(db, db', id); }
    }
  }

  /** No request of the account reuses a mutation id that waits in this device's outbox. */
  ghost predicate NoClash(calls: seq<UserCall>, u: Id, outbox: seq<OutboxRow>) {
    forall i :: 0 <= i < |calls| && calls[i].user == u ==> !HasMid(outbox, calls[i].m.mid)
  }

  lemma {:induction false} RunRecords(db: Db, calls: seq<UserCall>, u: Id, outbox: seq<OutboxRow>, r: OutboxRow)
    requires Inv(db) && NoClash(calls, u, outbox) && r in outbox
    ensures KeyOf(u, r.m) in Run(db, calls).records ==> KeyOf(u, r.m) in db.records
    decreases |calls|
  {
    if calls != [] {
      var k := calls[0];
      var db1 := After(db, k.user, k.m, k.env);
      HasMidMember(outbox, r);
      AfterKeeps(db, k.user, k.m, k.env);
      if KeyOf(k.user, k.m) !in db.records && Handle(db, k.user, k.m, k.env).Accepted? {
        HandleKeeps(db, k.user, k.m, k.env);
      }
      assert forall i :: 0 <= i < |calls[1..]| ==> calls[1..][i] == calls[i + 1];
      RunRecords(db1, calls[1..], u, outbox, r);
    }
  }

  lemma {:induction false} OthersTrack(db: Db, u: Id, c: Client, calls: seq<UserCall>)
    requires Tracked(db, u, c)
    ensures Tracked(Run(db, calls), u, c)
  {
    RunKeeps(db, calls);
    TracksAdvances(db, Run(db, calls), u, c);
  }

  lemma {:induction false} OthersKeep(db: Db, u: Id, c: Client, calls: seq<UserCall>)
    requires WorldInv(db, u, c) && NoClash(calls, u, c.outbox)
    ensures WorldInv(Run(db, calls), u, c)
  {
    var db' := Run(db, calls);
    RunKeeps(db, calls);
    TracksAdvances(db, db', u, c);
    forall r | r in c.outbox && IsSendable(r) && KeyOf(u, r.m) in db'.records ensures Stamped(db', u, r.m, At(c)) {
      RunRecords(db, calls, u, c.outbox, r);
      StampedAdvances(db, db', u, r.m, At(c));
    }
  }

  // ---- The device is edited ----

  /** A mutation id drawn for a new edit: unused in the outbox and unknown to the server. */
  ghost predicate FreshMid(db: Db, u: Id, outbox: seq<OutboxRow>, mid: Id) {
    !HasMid(outbox, mid) && forall op :: Key(u, op, mid) !in db.records
  }

  ghost predicate ValidEdits(db: Db, u: Id, c: Client, edits: seq<Edit>)
    decreases |edits|
  {
    edits == [] || (FreshMid(db, u, c.outbox, edits[0].mid) && ValidEdits(db, u, ApplyEdit(c, edits[0]), edits[1..]))
  }

  ghost predicate SameKeyAndTargets(a: Mutation, b: Mutation) {
    a.mid == b.mid && Op(a) == Op(b) && TargetList(a) == TargetList(b) && TargetItem(a) == TargetItem(b)
  }

  /** A row an edit leaves in the outbox: there before, new, or a waiting patch with more folded in. */
  ghost predicate Descends(db: Db, u: Id, before: seq<OutboxRow>, r: OutboxRow) {
    || r in before
    || (r.status == Pending && forall op :: Key(u, op, r.m.mid) !in db.records)
    || (r.status == Pending && exists s :: s in before && s.status == Pending && SameKeyAndTargets(s.m, r.m))
  }

  /** A row that has not been sent yet names the list, or the item. */
  ghost predicate EditsList(outbox: seq<OutboxRow>, id: Id) {
    exists r :: r in outbox && r.status == Pending && TargetList(r.m) == Some(id)
  }

  ghost predicate EditsItem(outbox: seq<OutboxRow>, id: Id) {
    exists r :: r in outbox && r.status == Pending && TargetItem(r.m) == Some(id)
  }

  /** What any number of edits does: the outbox names more, and rows that no unsent mutation names are untouched. */
  ghost predicate Edited(db: Db, u: Id, c: Client, c': Client) {
    && c'.cursor == c.cursor
    && (UniqueMids(c.outbox) ==> UniqueMids(c'.outbox))
    && (forall id :: NamesList(c.outbox, id) ==> NamesList(c'.outbox, id))
    && (forall id :: NamesItem(c.outbox, id) ==> NamesItem(c'.outbox, id))
    && (forall id :: EditsList(c.outbox, id) ==> EditsList(c'.outbox, id))
    && (forall id :: EditsItem(c.outbox, id) ==> EditsItem(c'.outbox, id))
    && (forall id :: !EditsList(c'.outbox, id) ==> SameAt(c.lists, c'.lists, id))
    && (forall id :: !EditsItem(c'.outbox, id) ==> SameAt(c.items, c'.items, id))
    && (forall r :: r in c.outbox && r.status != Pending ==> r in c'.outbox)
    && (forall r :: r in c'.outbox ==> Descends(db, u, c.outbox, r))
  }

  ghost predicate SameAt<T>(a: map<Id, T>, b: map<Id, T>, id: Id) {
    (id in a <==> id in b) && (id in a ==> a[id] == b[id])
  }

  lemma {:induction false} EditedTransitive(db: Db, u: Id, a: Client, b: Client, c: Client)
    requires Edited(db, u, a, b) && Edited(db, u, b, c)
    ensures Edited(db, u, a, c)
  {
    forall r | r in c.outbox ensures Descends(db, u, a.outbox, r) {
      assert Descends(db, u, b.outbox, r);
      if r in b.outbox { assert Descends(db, u, a.outbox, r); }
      else if exists s :: s in b.outbox && s.status == Pending && SameKeyAndTargets(s.m, r.m) {
        var s :| s in b.outbox && s.status == Pending && SameKeyAndTargets(s.m, r.m);
        assert Descends(db, u, a.outbox, s);
      }
    }
    forall id | !EditsList(c.outbox, id) ensures SameAt(a.lists, c.lists, id) {
      assert SameAt(b.lists, c.lists, id) && !EditsList(b.outbox, id);
    }
    forall id | !EditsItem(c.outbox, id) ensures SameAt(a.items, c.items, id) {
      assert SameAt(b.items, c.items, id) && !EditsItem(b.outbox, id);
    }
  }

  lemma {:induction false} UpsertEdits(outbox: seq<OutboxRow>, outbox': seq<OutboxRow>, row: OutboxRow)
    requires row.status == Pending && forall r :: r in outbox' <==> r == row || (r in outbox && r.m.mid != row.m.mid)
    requires forall r :: r in outbox && r.m.mid == row.m.mid ==> SameKeyAndTargets(r.m, row.m)
    ensures forall id :: EditsList(outbox, id) || TargetList(row.m) == Some(id) ==> EditsList(outbox', id)
    ensures forall id :: EditsItem(outbox, id) || TargetItem(row.m) == Some(id) ==> EditsItem(outbox', id)
  {
    forall id | EditsList(outbox, id) || TargetList(row.m) == Some(id) ensures EditsList(outbox', id) {
      if TargetList(row.m) != Some(id) {
        var r :| r in outbox && r.status == Pending && TargetList(r.m) == Some(id);
        assert r in outbox';
      }
    }
    forall id | EditsItem(outbox, id) || TargetItem(row.m) == Some(id) ensures EditsItem(outbox', id) {
      if TargetItem(row.m) != Some(id) {
        var r :| r in outbox && r.status == Pending && TargetItem(r.m) == Some(id);
        assert r in outbox';
      }
    }
  }

  /** Putting a pending row into the outbox, new or in place of a waiting one with the same key and targets. */
  lemma {:induction false} UpsertEdited(db: Db, u: Id, c: Client, c': Client, row: OutboxRow)
    requires row.status == Pending && c'.outbox == Upsert(c.outbox, row) && c'.cursor == c.cursor
    requires FreshMid(db, u, c.outbox, row.m.mid)
             || (exists s :: s in c.outbox && s.status == Pending && SameKeyAndTargets(s.m, row.m) && UniqueMids(c.outbox))
    requires forall id :: TargetList(row.m) != Some(id) ==> SameAt(c.lists, c'.lists, id)
    requires forall id :: TargetItem(row.m) != Some(id) ==> SameAt(c.items, c'.items, id)
    ensures Edited(db, u, c, c')
  {
    forall r ensures r in c'.outbox <==> r == row || (r in c.outbox && r.m.mid != row.m.mid) {
      UpsertMember(c.outbox, row, r);
    }
    forall r | r in c.outbox && r.m.mid == row.m.mid ensures r.status == Pending && SameKeyAndTargets(r.m, row.m) {
      HasMidMember(c.outbox, r);
    }
    forall id | NamesList(c.outbox, id) ensures NamesList(c'.outbox, id) {
      var i :| 0 <= i < |c.outbox| && TargetList(c.outbox[i].m) == Some(id);
      NamesListBy(c'.outbox, if c.outbox[i].m.mid == row.m.mid then row else c.outbox[i], id);
    }
    forall id | NamesItem(c.outbox, id) ensures NamesItem(c'.outbox, id) {
      var i :| 0 <= i < |c.outbox| && TargetItem(c.outbox[i].m) == Some(id);
      NamesItemBy(c'.outbox, if c.outbox[i].m.mid == row.m.mid then row else c.outbox[i], id);
    }
    UpsertEdits(c.outbox, c'.outbox, row);
  }

  lemma {:induction false} EditedRefl(db: Db, u: Id, c: Client)
    ensures Edited(db, u, c, c)
  {
  }

  lemma {:induction false} ItemEditIsEdited(db: Db, u: Id, c: Client, e: Edit)
    requires UniqueMids(c.outbox) && FreshMid(db, u, c.outbox, e.mid) && IsItemEdit(e) && e.itemId in c.items
    ensures Edited(db, u, c, ApplyEdit(c, e))
  {
    var m := QueuedPatch(c, e);
    if FindPending(c.outbox, e.itemId).Some? {
      FindPendingIsThere(c.outbox, e.itemId);
      var s := OutboxRow(FindPending(c.outbox, e.itemId).value, Pending);
      assert SameKeyAndTargets(s.m, m);
    }
    UpsertEdited(db, u, c, ApplyEdit(c, e), OutboxRow(m, Pending));
  }

  lemma {:induction false} NewItemIsEdited(db: Db, u: Id, c: Client, e: Edit)
    requires FreshMid(db, u, c.outbox, e.mid) && e.AddItem? && e.product.None? != e.freeText.None?
    ensures Edited(db, u, c, ApplyEdit(c, e))
  {
    var position := NextAfter(OpenPositions(c.items, e.listId));
    UpsertEdited(db, u, c, ApplyEdit(c, e), OutboxRow(
      ItemCreate(e.mid, e.listId, Some(e.id), e.product, e.freeText, Quantity(e.thousandths, 3), e.unit, false, Some(position)), Pending));
  }

  lemma {:induction false} EditIsEdited(db: Db, u: Id, c: Client, e: Edit)
    requires UniqueMids(c.outbox) && FreshMid(db, u, c.outbox, e.mid)
    ensures Edited(db, u, c, ApplyEdit(c, e))
  {
    var c' := ApplyEdit(c, e);
    if c' == c {
      EditedRefl(db, u, c);
    } else if IsItemEdit(e) {
      ItemEditIsEdited(db, u, c, e);
    } else if e.AddList? {
      UpsertEdited(db, u, c, c', OutboxRow(ListCreate(e.mid, Some(e.id), e.name), Pending));
    } else if e.AddItem? {
      NewItemIsEdited(db, u, c, e);
    } else {
      UpsertEdited(db, u, c, c', OutboxRow(ListPatchOf(c.lists[e.listId], e), Pending));
    }
  }

  lemma {:induction false} EditsAreEdited(db: Db, u: Id, c: Client, edits: seq<Edit>)
    requires UniqueMids(c.outbox) && ValidEdits(db, u, c, edits)
    ensures Edited(db, u, c, ApplyEdits(c, edits))
    decreases |edits|
  {
    if edits == [] {
      EditedRefl(db, u, c);
    } else {
      var c1 := ApplyEdit(c, edits[0]);
      EditIsEdited(db, u, c, edits[0]);
      EditsAreEdited(db, u, c1, edits[1..]);
      EditedTransitive(db, u, c, c1, ApplyEdits(c, edits));
    }
  }

  lemma {:induction false} EditsAreNames(outbox: seq<OutboxRow>, id: Id)
    ensures EditsList(outbox, id) ==> NamesList(outbox, id)
    ensures EditsItem(outbox, id) ==> NamesItem(outbox, id)
  {
    if EditsList(outbox, id) {
      var r :| r in outbox && r.status == Pending && TargetList(r.m) == Some(id);
      NamesListBy(outbox, r, id);
    }
    if EditsItem(outbox, id) {
      var r :| r in outbox && r.status == Pending && TargetItem(r.m) == Some(id);
      NamesItemBy(outbox, r, id);
    }
  }

  lemma {:induction false} EditedKeepsTracks(db: Db, u: Id, c: Client, c': Client)
    requires Tracks(db, u, c) && Edited(db, u, c, c')
    ensures Tracks(db, u, c')
  {
    forall id ensures ListTracked(db, u, c', id) && NoStrayList(db, u, c', id) {
      assert ListTracked(db, u, c, id) && NoStrayList(db, u, c, id);
      if !NamesList(c'.outbox, id) { EditsAreNames(c'.outbox, id); }
    }
    forall id ensures ItemTracked(db, u, c', id) && NoStrayItem(db, u, c', id) {
      assert ItemTracked(db, u, c, id) && NoStrayItem(db, u, c, id);
      if !NamesItem(c'.outbox, id) { EditsAreNames(c'.outbox, id); }
    }
  }

  lemma {:induction false} EditsTrack(db: Db, u: Id, c: Client, edits: seq<Edit>)
    requires Tracked(db, u, c) && ValidEdits(db, u, c, edits)
    ensures Tracked(db, u, ApplyEdits(c, edits))
  {
    EditsAreEdited(db, u, c, edits);
    EditedKeepsTracks(db, u, c, ApplyEdits(c, edits));
  }

  lemma {:induction false} EditsKeep(db: Db, u: Id, c: Client, edits: seq<Edit>)
    requires WorldInv(db, u, c) && ValidEdits(db, u, c, edits)
    ensures WorldInv(db, u, ApplyEdits(c, edits))
  {
    var c' := ApplyEdits(c, edits);
    EditsAreEdited(db, u, c, edits);
    EditsTrack(db, u, c, edits);
    forall r | r in c'.outbox && IsSendable(r) && KeyOf(u, r.m) in db.records ensures Stamped(db, u, r.m, At(c')) {
      assert Descends(db, u, c.outbox, r);
      assert KeyOf(u, r.m) == Key(u, Op(r.m), r.m.mid);
    }
  }
}
