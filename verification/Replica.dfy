/** The device's copy of the lists as a value: optimistic rows, the outbox of unsent mutations,
    conflict rows and the cursor, and what each local edit and each sync response does to them. */
module Replica {
  import opened Basics
  import opened ShoppingLists
  import opened ShoppingListLaws

  datatype LocalList = LocalList(
    name: string, status: Status, version: nat, contentRevision: nat, deleted: bool,
    createdAt: int, updatedAt: int, isDraft: bool)

  datatype LocalItem = LocalItem(
    listId: Id, product: Option<Id>, freeText: Option<string>, thousandths: int, unit: Unit,
    checked: bool, position: nat, version: nat, deleted: bool)

  datatype SendStatus = Pending | InFlight | InConflict | Blocked

  /** An outbox row is keyed by its mutation's id and kept in the order of insertion. */
  datatype OutboxRow = OutboxRow(m: Mutation, status: SendStatus)

  datatype ConflictRow = ConflictRow(code: Rejection, server: Option<Response>, itemId: Option<Id>)

  datatype Client = Client(
    lists: map<Id, LocalList>, items: map<Id, LocalItem>, outbox: seq<OutboxRow>,
    conflicts: map<Id, ConflictRow>, cursor: Option<Cursor>)

  datatype SyncResponse = SyncResponse(cursor: Cursor, fullSnapshot: bool, lists: seq<ListDto>, conflicts: seq<Conflict>)

  function ToLocalList(row: ListRow): LocalList {
    LocalList(row.name, row.status, row.version, row.contentSeq, row.deleted, row.createdAt, row.updatedAt, false)
  }

  function ToLocalItem(listId: Id, row: ItemRow): LocalItem {
    LocalItem(listId, row.product, row.freeText, row.thousandths, row.unit, row.checked, row.position, row.version, row.deleted)
  }

  // ---- Outbox ----

  predicate HasMid(outbox: seq<OutboxRow>, mid: Id) {
    exists i :: 0 <= i < |outbox| && outbox[i].m.mid == mid
  }

  function Upsert(outbox: seq<OutboxRow>, row: OutboxRow): seq<OutboxRow> {
    if HasMid(outbox, row.m.mid) then
      seq(|outbox|, i requires 0 <= i < |outbox| => if outbox[i].m.mid == row.m.mid then row else outbox[i])
    else outbox + [row]
  }

  function Delete(outbox: seq<OutboxRow>, mid: Id): seq<OutboxRow> {
    if outbox == [] then []
    else if outbox[0].m.mid == mid then Delete(outbox[1..], mid)
    else [outbox[0]] + Delete(outbox[1..], mid)
  }

  predicate IsSendable(row: OutboxRow) {
    row.status == Pending || row.status == InFlight
  }

  function Sendable(outbox: seq<OutboxRow>): seq<OutboxRow> {
    if outbox == [] then []
    else if IsSendable(outbox[0]) then [outbox[0]] + Sendable(outbox[1..])
    else Sendable(outbox[1..])
  }

  function WithStatus(outbox: seq<OutboxRow>, batch: seq<OutboxRow>, status: SendStatus): seq<OutboxRow>
    decreases |batch|
  {
    if batch == [] then outbox
    else WithStatus(Upsert(outbox, batch[0].(status := status)), batch[1..], status)
  }

  /** The outbox row a further patch of the item is folded into, if one still waits. */
  function FindPending(outbox: seq<OutboxRow>, itemId: Id): Option<Mutation> {
    if outbox == [] then None
    else if outbox[0].status == Pending && outbox[0].m.ItemPatch? && outbox[0].m.itemId == itemId then Some(outbox[0].m)
    else FindPending(outbox[1..], itemId)
  }

  /** List ids and item ids of waiting rows; a response never overwrites what they name. */
  predicate NamesList(outbox: seq<OutboxRow>, id: Id) {
    exists i :: 0 <= i < |outbox| && TargetList(outbox[i].m) == Some(id)
  }

  predicate NamesItem(outbox: seq<OutboxRow>, id: Id) {
    exists i :: 0 <= i < |outbox| && TargetItem(outbox[i].m) == Some(id)
  }

  // ---- Local edits ----

  datatype Edit =
    | AddList(id: Id, name: string, mid: Id, now: int)
    | AddItem(id: Id, listId: Id, product: Option<Id>, freeText: Option<string>, thousandths: int, unit: Unit, mid: Id)
    | SetQuantity(itemId: Id, thousandths: int, mid: Id)
    | SetChecked(itemId: Id, checked: bool, mid: Id)
    | SetItemDeleted(itemId: Id, deleted: bool, mid: Id)
    | SetListDeleted(listId: Id, deleted: bool, mid: Id)
    | SetListArchived(listId: Id, archived: bool, mid: Id)

  function OpenItems(items: map<Id, LocalItem>, listId: Id): set<Id> {
    set i | i in items && items[i].listId == listId && !items[i].deleted
  }

  function OpenPositions(items: map<Id, LocalItem>, listId: Id): set<nat> {
    set i | i in OpenItems(items, listId) :: items[i].position
  }

  function EditedItem(row: LocalItem, e: Edit): LocalItem {
    match e
    case SetQuantity(_, thousandths, _) => row.(thousandths := thousandths)
    case SetChecked(_, checked, _) => row.(checked := checked)
    case SetItemDeleted(_, deleted, _) => row.(deleted := deleted)
    case _ => row
  }

  function EditedList(row: LocalList, e: Edit): LocalList {
    match e
    case SetListDeleted(_, deleted, _) => row.(deleted := deleted)
    case SetListArchived(_, archived, _) => row.(status := if archived then Archived else Active)
    case _ => row
  }

  predicate IsItemEdit(e: Edit) {
    e.SetQuantity? || e.SetChecked? || e.SetItemDeleted?
  }

  /** The patch an item edit queues, against the version the device holds. */
  function ItemPatchOf(row: LocalItem, e: Edit): Mutation
    requires IsItemEdit(e)
  {
    ItemPatch(e.mid, row.listId, e.itemId, row.version,
              if e.SetQuantity? then Some(Quantity(e.thousandths, 3)) else None, None,
              if e.SetChecked? then Some(e.checked) else None, None,
              if e.SetItemDeleted? then Some(e.deleted) else None)
  }

  function ListPatchOf(row: LocalList, e: Edit): Mutation
    requires e.SetListDeleted? || e.SetListArchived?
  {
    ListPatch(e.mid, e.listId, row.version, None,
              if e.SetListArchived? then Some(if e.archived then Archived else Active) else None,
              if e.SetListDeleted? then Some(e.deleted) else None)
  }

  function OrElse<T>(a: Option<T>, b: Option<T>): Option<T> {
    if a.Some? then a else b
  }

  function MergePatch(existing: Mutation, incoming: Mutation): Mutation
    requires existing.ItemPatch? && incoming.ItemPatch?
  {
    existing.(newAmount := OrElse(incoming.newAmount, existing.newAmount),
              newUnit := OrElse(incoming.newUnit, existing.newUnit),
              newChecked := OrElse(incoming.newChecked, existing.newChecked),
              newPosition := OrElse(incoming.newPosition, existing.newPosition),
              deleted := OrElse(incoming.deleted, existing.deleted))
  }

  lemma {:induction false} FindPendingIsThere(outbox: seq<OutboxRow>, itemId: Id)
    requires FindPending(outbox, itemId).Some?
    ensures var m := FindPending(outbox, itemId).value;
            m.ItemPatch? && m.itemId == itemId && OutboxRow(m, Pending) in outbox
  {
    if !(outbox[0].status == Pending && outbox[0].m.ItemPatch? && outbox[0].m.itemId == itemId) {
      FindPendingIsThere(outbox[1..], itemId);
    }
  }

  /** The mutation queued for an item edit: a new one, or the waiting one with the edit folded in. */
  function QueuedPatch(c: Client, e: Edit): (m: Mutation)
    requires IsItemEdit(e) && e.itemId in c.items
    ensures m.ItemPatch? && m.itemId == e.itemId
  {
    var patch := ItemPatchOf(c.items[e.itemId], e);
    match FindPending(c.outbox, e.itemId)
    case None => patch
    case Some(waiting) => FindPendingIsThere(c.outbox, e.itemId); MergePatch(waiting, patch)
  }

  /** A local edit writes the row and the outbox together. Editing a row the device lacks, or adding an item
      that is not either a product or a text, fails and changes nothing. */
  ghost function ApplyEdit(c: Client, e: Edit): Client {
    match e
    case AddList(id, name, mid, now) =>
      c.(lists := c.lists[id := LocalList(name, Active, 1, 0, false, now, now, false)],
         outbox := Upsert(c.outbox, OutboxRow(ListCreate(mid, Some(id), name), Pending)))
    case AddItem(id, listId, product, freeText, thousandths, unit, mid) =>
      if product.None? == freeText.None? then c
      else
        var position := NextAfter(OpenPositions(c.items, listId));
        c.(items := c.items[id := LocalItem(listId, product, freeText, thousandths, unit, false, position, 1, false)],
           outbox := Upsert(c.outbox, OutboxRow(
             ItemCreate(mid, listId, Some(id), product, freeText, Quantity(thousandths, 3), unit, false, Some(position)), Pending)))
    case SetListDeleted(_, _, _) => PatchLocalList(c, e)
    case SetListArchived(_, _, _) => PatchLocalList(c, e)
    case _ => PatchLocalItem(c, e)
  }

  function PatchLocalItem(c: Client, e: Edit): Client
    requires IsItemEdit(e)
  {
    if e.itemId !in c.items then c
    else c.(items := c.items[e.itemId := EditedItem(c.items[e.itemId], e)],
            outbox := Upsert(c.outbox, OutboxRow(QueuedPatch(c, e), Pending)))
  }

  function PatchLocalList(c: Client, e: Edit): Client
    requires e.SetListDeleted? || e.SetListArchived?
  {
    if e.listId !in c.lists then c
    else c.(lists := c.lists[e.listId := EditedList(c.lists[e.listId], e)],
            outbox := Upsert(c.outbox, OutboxRow(ListPatchOf(c.lists[e.listId], e), Pending)))
  }

  ghost function ApplyEdits(c: Client, edits: seq<Edit>): Client
    decreases |edits|
  {
    if edits == [] then c else ApplyEdits(ApplyEdit(c, edits[0]), edits[1..])
  }

  // ---- Responses ----

  /** The conflict reported for `mid`; the last one wins. */
  function FindConflict(conflicts: seq<Conflict>, mid: Id): Option<Conflict> {
    if conflicts == [] then None
    else if conflicts[|conflicts| - 1].mid == mid then Some(conflicts[|conflicts| - 1])
    else FindConflict(conflicts[..|conflicts| - 1], mid)
  }

  /** What becomes of one sent row: gone when no conflict names it, otherwise waiting again or in conflict. */
  function SettleRow(c: Client, row: OutboxRow, conflict: Option<Conflict>): Client {
    match conflict
    case None => c.(outbox := Delete(c.outbox, row.m.mid), conflicts := c.conflicts - {row.m.mid})
    case Some(k) =>
      if k.code == CursorExpired then
        c.(outbox := Upsert(c.outbox, row.(status := Pending)), conflicts := c.conflicts - {row.m.mid})
      else
        c.(outbox := Upsert(c.outbox, row.(status := InConflict)),
           conflicts := c.conflicts[k.mid := ConflictRow(k.code, k.server, TargetItem(row.m))])
  }

  function Settle(c: Client, sent: seq<OutboxRow>, conflicts: seq<Conflict>): Client
    decreases |sent|
  {
    if sent == [] then c
    else Settle(SettleRow(c, sent[0], FindConflict(conflicts, sent[0].m.mid)), sent[1..], conflicts)
  }

  predicate DeliversItem(items: seq<(Id, ItemRow)>, id: Id) {
    exists j :: 0 <= j < |items| && items[j].0 == id
  }

  predicate InSnapshotItems(dtos: seq<ListDto>, id: Id) {
    exists i :: 0 <= i < |dtos| && DeliversItem(dtos[i].items, id)
  }

  predicate InSnapshotLists(dtos: seq<ListDto>, id: Id) {
    exists i :: 0 <= i < |dtos| && dtos[i].id == id
  }

  /** A full snapshot drops the rows it lacks, except those a waiting mutation names. */
  function DropMissing(c: Client, dtos: seq<ListDto>): Client {
    c.(lists := map id | id in c.lists && (InSnapshotLists(dtos, id) || NamesList(c.outbox, id)) :: c.lists[id],
       items := map id | id in c.items && (InSnapshotItems(dtos, id) || NamesItem(c.outbox, id)) :: c.items[id])
  }

  function ReceiveItems(c: Client, listId: Id, items: seq<(Id, ItemRow)>): Client
    decreases |items|
  {
    if items == [] then c
    else if NamesItem(c.outbox, items[0].0) then ReceiveItems(c, listId, items[1..])
    else ReceiveItems(c.(items := c.items[items[0].0 := ToLocalItem(listId, items[0].1)]), listId, items[1..])
  }

  function ReceiveList(c: Client, dto: ListDto): Client {
    if NamesList(c.outbox, dto.id) && dto.id in c.lists then
      if dto.list.deleted || dto.list.status == Archived
      then c.(lists := c.lists[dto.id := c.lists[dto.id].(isDraft := true)])
      else c
    else c.(lists := c.lists[dto.id := ToLocalList(dto.list)])
  }

  function Receive(c: Client, dtos: seq<ListDto>): Client
    decreases |dtos|
  {
    if dtos == [] then c
    else Receive(ReceiveItems(ReceiveList(c, dtos[0]), dtos[0].id, dtos[0].items), dtos[1..])
  }

  function ApplyResponse(c: Client, sent: seq<OutboxRow>, r: SyncResponse): Client {
    var settled := Settle(c, sent, r.conflicts);
    var kept := if r.fullSnapshot then DropMissing(settled, r.lists) else settled;
    Receive(kept, r.lists).(cursor := Some(r.cursor))
  }

  /** A list a REST route answered with is written over the local rows whatever waits. */
  function PersistItems(items: map<Id, LocalItem>, listId: Id, rows: seq<(Id, ItemRow)>): map<Id, LocalItem>
    decreases |rows|
  {
    if rows == [] then items
    else PersistItems(items[rows[0].0 := ToLocalItem(listId, rows[0].1)], listId, rows[1..])
  }

  function PersistServerList(c: Client, dto: ListDto): Client {
    c.(lists := c.lists[dto.id := ToLocalList(dto.list)], items := PersistItems(c.items, dto.id, dto.items))
  }

  // ---- Conflicts ----

  function FindRow(outbox: seq<OutboxRow>, mid: Id): Option<OutboxRow> {
    if outbox == [] then None
    else if outbox[0].m.mid == mid then Some(outbox[0])
    else FindRow(outbox[1..], mid)
  }

  function VersionOf(r: Response): nat {
    match r
    case ListResponse(_, list) => list.version
    case ItemResponse(_, item) => item.version
  }

  function WithMid(m: Mutation, mid: Id): Mutation {
    m.(mid := mid)
  }

  /** The mutation under a new id, expecting the version the server reported. */
  function Renewed(m: Mutation, newMid: Id, server: Option<Response>): Mutation {
    match m
    case ListPatch(_, listId, expected, name, status, deleted) =>
      ListPatch(newMid, listId, if server.Some? then VersionOf(server.value) else expected, name, status, deleted)
    case ItemPatch(_, listId, itemId, expected, amount, unit, checked, position, deleted) =>
      ItemPatch(newMid, listId, itemId, if server.Some? then VersionOf(server.value) else expected,
                amount, unit, checked, position, deleted)
    case _ => WithMid(m, newMid)
  }

  /** Same place in the outbox, new mutation id. */
  function Replace(outbox: seq<OutboxRow>, mid: Id, row: OutboxRow): seq<OutboxRow> {
    seq(|outbox|, i requires 0 <= i < |outbox| => if outbox[i].m.mid == mid then row else outbox[i])
  }

  function KeepLocal(c: Client, mid: Id, newMid: Id): Client {
    if mid !in c.conflicts then c
    else
      var outbox :=
        match FindRow(c.outbox, mid)
        case None => c.outbox
        case Some(row) => Replace(c.outbox, mid, OutboxRow(Renewed(row.m, newMid, c.conflicts[mid].server), Pending));
      c.(outbox := outbox, conflicts := c.conflicts - {mid})
  }

  /** The fields a conflict's server row carries, laid over the local item. A list row has only a
      version and a deletion mark in common with an item. */
  function Overlay(row: LocalItem, server: Response): LocalItem {
    match server
    case ItemResponse(_, s) =>
      row.(thousandths := s.thousandths, unit := s.unit, checked := s.checked, position := s.position,
           version := s.version, deleted := s.deleted)
    case ListResponse(_, s) => row.(version := s.version, deleted := s.deleted)
  }

  function TakeServer(c: Client, mid: Id): Client {
    if mid !in c.conflicts then c
    else
      var k := c.conflicts[mid];
      var items :=
        if k.server.Some? && k.itemId.Some? && k.itemId.value in c.items
        then c.items[k.itemId.value := Overlay(c.items[k.itemId.value], k.server.value)]
        else c.items;
      c.(items := items, outbox := Delete(c.outbox, mid), conflicts := c.conflicts - {mid})
  }
}
