/** Taking the server's version of a conflict, and exactly when the device stays in step. */
module Discards {
  import opened Basics
  import opened ShoppingLists
  import opened ShoppingListLaws
  import opened Replica
  import opened ReplicaLaws
  import opened Convergence

  // ---- What a discard lets go of ----

  /** The list and the item the discarded mutation named, and the item the conflict's server row is laid over. */
  function ReleasedList(c: Client, mid: Id): Option<Id> {
    match FindRow(c.outbox, mid)
    case Some(row) => TargetList(row.m)
    case None => None
  }

  function ReleasedItem(c: Client, mid: Id): Option<Id> {
    match FindRow(c.outbox, mid)
    case Some(row) => TargetItem(row.m)
    case None => None
  }

  function RestoredItem(c: Client, mid: Id): Option<Id> {
    if mid in c.conflicts && c.conflicts[mid].server.Some? then c.conflicts[mid].itemId else None
  }

  /** Some other waiting mutation names the row. */
  predicate OtherNamesList(outbox: seq<OutboxRow>, mid: Id, id: Id) {
    exists i :: 0 <= i < |outbox| && outbox[i].m.mid != mid && TargetList(outbox[i].m) == Some(id)
  }

  predicate OtherNamesItem(outbox: seq<OutboxRow>, mid: Id, id: Id) {
    exists i :: 0 <= i < |outbox| && outbox[i].m.mid != mid && TargetItem(outbox[i].m) == Some(id)
  }

  /** The device's row of an item once the conflict's server row is laid over the restored one. */
  function RowAfter(c: Client, mid: Id, id: Id): Option<LocalItem>
    requires mid in c.conflicts
  {
    if RestoredItem(c, mid) == Some(id) && id in c.items
    then Some(Overlay(c.items[id], c.conflicts[mid].server.value))
    else RowOf(c.items, id)
  }

  /** The condition, read off the conflict, the tables and the cursor before the call: what the discard lets go of is
      still named by another mutation, or in step. */
  predicate DiscardSafe(db: Db, u: Id, c: Client, mid: Id) {
    mid in c.conflicts ==>
      && (ReleasedList(c, mid).Some? ==> SafeToReleaseList(db, u, c, mid, ReleasedList(c, mid).value))
      && (ReleasedItem(c, mid).Some? ==> SafeToReleaseItem(db, u, c, mid, ReleasedItem(c, mid).value))
      && (RestoredItem(c, mid).Some? ==> SafeToReleaseItem(db, u, c, mid, RestoredItem(c, mid).value))
  }

  predicate SafeToReleaseList(db: Db, u: Id, c: Client, mid: Id, id: Id) {
    OtherNamesList(c.outbox, mid, id) || ListInStep(db, u, RowOf(c.lists, id), At(c), id)
  }

  predicate SafeToReleaseItem(db: Db, u: Id, c: Client, mid: Id, id: Id)
    requires mid in c.conflicts
  {
    OtherNamesItem(c.outbox, mid, id) || ItemInStep(db, u, RowAfter(c, mid, id), At(c), id)
  }

  // ---- The outbox after a discard ----

  lemma {:induction false} FoundRow(outbox: seq<OutboxRow>, mid: Id)
    ensures match FindRow(outbox, mid)
            case Some(row) => row in outbox && row.m.mid == mid
            case None => forall r :: r in outbox ==> r.m.mid != mid
  {
    if outbox != [] { FoundRow(outbox[1..], mid); }
  }

  lemma {:induction false} DeletedNamesList(outbox: seq<OutboxRow>, mid: Id, id: Id)
    ensures NamesList(Delete(outbox, mid), id) <==> OtherNamesList(outbox, mid, id)
  {
    var left := Delete(outbox, mid);
    if NamesList(left, id) {
      var i :| 0 <= i < |left| && TargetList(left[i].m) == Some(id);
      DeleteMember(outbox, mid, left[i]);
    }
    if OtherNamesList(outbox, mid, id) {
      var i :| 0 <= i < |outbox| && outbox[i].m.mid != mid && TargetList(outbox[i].m) == Some(id);
      DeleteMember(outbox, mid, outbox[i]);
      NamesListBy(left, outbox[i], id);
    }
  }

  lemma {:induction false} DeletedNamesItem(outbox: seq<OutboxRow>, mid: Id, id: Id)
    ensures NamesItem(Delete(outbox, mid), id) <==> OtherNamesItem(outbox, mid, id)
  {
    var left := Delete(outbox, mid);
    if NamesItem(left, id) {
      var i :| 0 <= i < |left| && TargetItem(left[i].m) == Some(id);
      DeleteMember(outbox, mid, left[i]);
    }
    if OtherNamesItem(outbox, mid, id) {
      var i :| 0 <= i < |outbox| && outbox[i].m.mid != mid && TargetItem(outbox[i].m) == Some(id);
      DeleteMember(outbox, mid, outbox[i]);
      NamesItemBy(left, outbox[i], id);
    }
  }

  /** A row that only the discarded mutation names is the one it releases. */
  lemma {:induction false} OnlyReleasedList(c: Client, mid: Id, id: Id)
    requires UniqueMids(c.outbox) && NamesList(c.outbox, id) && !OtherNamesList(c.outbox, mid, id)
    ensures ReleasedList(c, mid) == Some(id)
  {
    FoundRow(c.outbox, mid);
    var i :| 0 <= i < |c.outbox| && TargetList(c.outbox[i].m) == Some(id);
    assert c.outbox[i] in c.outbox && c.outbox[i].m.mid == mid;
  }

  lemma {:induction false} OnlyReleasedItem(c: Client, mid: Id, id: Id)
    requires UniqueMids(c.outbox) && NamesItem(c.outbox, id) && !OtherNamesItem(c.outbox, mid, id)
    ensures ReleasedItem(c, mid) == Some(id)
  {
    FoundRow(c.outbox, mid);
    var i :| 0 <= i < |c.outbox| && TargetItem(c.outbox[i].m) == Some(id);
    assert c.outbox[i] in c.outbox && c.outbox[i].m.mid == mid;
  }

  lemma {:induction false} DiscardedList(db: Db, u: Id, c: Client, mid: Id, id: Id)
    requires mid in c.conflicts
    ensures var c' := TakeServer(c, mid);
            NamesList(c'.outbox, id) || ListInStep(db, u, RowOf(c'.lists, id), At(c'), id) <==> SafeToReleaseList(db, u, c, mid, id)
  {
    DeletedNamesList(c.outbox, mid, id);
  }

  lemma {:induction false} DiscardedItem(db: Db, u: Id, c: Client, mid: Id, id: Id)
    requires mid in c.conflicts
    ensures var c' := TakeServer(c, mid);
            NamesItem(c'.outbox, id) || ItemInStep(db, u, RowOf(c'.items, id), At(c'), id) <==> SafeToReleaseItem(db, u, c, mid, id)
  {
    DeletedNamesItem(c.outbox, mid, id);
  }

  lemma {:induction false} SafeList(db: Db, u: Id, c: Client, mid: Id, id: Id)
    requires Tracked(db, u, c) && mid in c.conflicts && DiscardSafe(db, u, c, mid)
    ensures SafeToReleaseList(db, u, c, mid, id)
  {
    TracksIff(db, u, c);
    if NamesList(c.outbox, id) && !OtherNamesList(c.outbox, mid, id) { OnlyReleasedList(c, mid, id); }
  }

  lemma {:induction false} SafeItem(db: Db, u: Id, c: Client, mid: Id, id: Id)
    requires Tracked(db, u, c) && mid in c.conflicts && DiscardSafe(db, u, c, mid)
    ensures SafeToReleaseItem(db, u, c, mid, id)
  {
    TracksIff(db, u, c);
    if NamesItem(c.outbox, id) && !OtherNamesItem(c.outbox, mid, id) { OnlyReleasedItem(c, mid, id); }
  }

  lemma {:induction false} DeletedKeeps(db: Db, u: Id, c: Client, mid: Id)
    requires UniqueMids(c.outbox) && mid in c.conflicts
    ensures UniqueMids(TakeServer(c, mid).outbox)
    ensures Redelivers(db, u, c) ==> Redelivers(db, u, TakeServer(c, mid))
  {
    forall r ensures r in TakeServer(c, mid).outbox ==> r in c.outbox { DeleteMember(c.outbox, mid, r); }
  }

  // ---- Main results ----

  /** Taking the server's version keeps every row in sight if and only if everything the discard lets go of,
      the list the mutation named as well as the item, is still named by another mutation or in step by itself. */
  lemma {:induction false} DiscardKeepsIff(db: Db, u: Id, c: Client, mid: Id)
    requires Tracked(db, u, c)
    ensures Tracked(db, u, TakeServer(c, mid)) <==> DiscardSafe(db, u, c, mid)
    ensures Redelivers(db, u, c) ==> Redelivers(db, u, TakeServer(c, mid))
  {
    if mid in c.conflicts {
      var c' := TakeServer(c, mid);
      DeletedKeeps(db, u, c, mid);
      TracksIff(db, u, c');
      forall id ensures NamesList(c'.outbox, id) || ListInStep(db, u, RowOf(c'.lists, id), At(c'), id)
                        <==> SafeToReleaseList(db, u, c, mid, id)
      {
        DiscardedList(db, u, c, mid, id);
      }
      forall id ensures NamesItem(c'.outbox, id) || ItemInStep(db, u, RowOf(c'.items, id), At(c'), id)
                        <==> SafeToReleaseItem(db, u, c, mid, id)
      {
        DiscardedItem(db, u, c, mid, id);
      }
      if DiscardSafe(db, u, c, mid) {
        forall id ensures SafeToReleaseList(db, u, c, mid, id) { SafeList(db, u, c, mid, id); }
        forall id ensures SafeToReleaseItem(db, u, c, mid, id) { SafeItem(db, u, c, mid, id); }
      }
    }
  }

  /** Equal but for the owner and the sequence number, which a device does not store. */
  predicate SameContents(s: ItemRow, t: ItemRow) {
    s == t.(user := s.user, syncSeq := s.syncSeq)
  }

  /** For a patch of an item in conflict with the server's row `s` of it: the list must be in step or named by another
      mutation, and so must the item, unless `s` is still the server's row. */
  lemma {:induction false} DiscardKeepsItemIff(db: Db, u: Id, c: Client, mid: Id, row: OutboxRow, s: ItemRow)
    requires Tracked(db, u, c) && mid in c.conflicts && row in c.outbox && row.m.mid == mid && row.m.ItemPatch?
    requires c.conflicts[mid].server == Some(ItemResponse(row.m.itemId, s)) && c.conflicts[mid].itemId == Some(row.m.itemId)
    requires OwnItem(db, u, row.m.itemId) && row.m.itemId in c.items
    requires var local := c.items[row.m.itemId];
             local.listId == s.listId && local.product == s.product && local.freeText == s.freeText
    ensures Tracked(db, u, TakeServer(c, mid)) <==>
            && (OtherNamesList(c.outbox, mid, row.m.listId) || ListInStep(db, u, RowOf(c.lists, row.m.listId), At(c), row.m.listId))
            && (|| OtherNamesItem(c.outbox, mid, row.m.itemId)
                || SameContents(s, db.items[row.m.itemId])
                || db.items[row.m.itemId].syncSeq > At(c))
  {
    FoundRow(c.outbox, mid);
    DiscardKeepsIff(db, u, c, mid);
    assert RowAfter(c, mid, row.m.itemId) == Some(ToLocalItem(s.listId, s));
  }

  /** For a patch of a list the local row stays as it was edited, so it must be in step by itself or still be named. */
  lemma {:induction false} DiscardKeepsListIff(db: Db, u: Id, c: Client, mid: Id, row: OutboxRow)
    requires Tracked(db, u, c) && mid in c.conflicts && row in c.outbox && row.m.mid == mid && row.m.ListPatch?
    requires c.conflicts[mid].itemId == None
    ensures TakeServer(c, mid).lists == c.lists
    ensures Tracked(db, u, TakeServer(c, mid)) <==>
            OtherNamesList(c.outbox, mid, row.m.listId) || ListInStep(db, u, RowOf(c.lists, row.m.listId), At(c), row.m.listId)
  {
    FoundRow(c.outbox, mid);
    DiscardKeepsIff(db, u, c, mid);
  }
}
