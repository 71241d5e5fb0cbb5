/** The server's shopping lists as a value: rows, sequence numbers, idempotency records and what
    every mutation handler does to them. The service class is proved against these functions. */
module ShoppingLists {
  import opened Basics

  const MAX_ACTIVE_ITEMS: nat := 200
  const CURSOR_VERSION: int := 1
  /** 90 days, in seconds. */
  const TOMBSTONE_RETENTION: int := 90 * 24 * 3600

  datatype Status = Active | Archived

  datatype Unit = Each | Kilogram | Gram | Litre | Millilitre | UnknownUnit

  /** A decimal string: `digits` shifted `scale` places right of the point. */
  datatype Quantity = Quantity(digits: int, scale: nat)

  datatype ListRow = ListRow(
    user: Id, name: string, status: Status, version: nat, contentSeq: nat,
    createdAt: int, updatedAt: int, deleted: bool)

  /** Quantities are stored with three decimals, so as thousandths. */
  datatype ItemRow = ItemRow(
    user: Id, listId: Id, product: Option<Id>, freeText: Option<string>, thousandths: int, unit: Unit,
    checked: bool, position: nat, version: nat, syncSeq: nat, deleted: bool)

  datatype Operation = OpListCreate | OpListPatch | OpItemCreate | OpItemPatch | OpListCopy

  datatype Mutation =
    | ListCreate(mid: Id, id: Option<Id>, name: string)
    | ListPatch(mid: Id, listId: Id, expectedVersion: nat,
                newName: Option<string>, newStatus: Option<Status>, deleted: Option<bool>)
    | ItemCreate(mid: Id, listId: Id, id: Option<Id>, product: Option<Id>, freeText: Option<string>,
                 amount: Quantity, unit: Unit, checked: bool, position: Option<nat>)
    | ItemPatch(mid: Id, listId: Id, itemId: Id, expectedVersion: nat, newAmount: Option<Quantity>,
                newUnit: Option<Unit>, newChecked: Option<bool>, newPosition: Option<nat>, deleted: Option<bool>)
    | ListCopy(mid: Id, listId: Id, id: Option<Id>, newName: Option<string>, uncheckedOnly: bool)

  /** A line copied from another list. */
  datatype MappedLine = MappedLine(product: Option<Id>, freeText: Option<string>, amount: Quantity, unit: Unit)

  /** What a handler takes from its surroundings: the clock, the ids it would draw and, for a copy,
      the lines mapped from the source list, each with the id its row gets. */
  datatype Env = Env(now: int, uuid: Id, copied: seq<(Id, MappedLine)>)

  datatype Rejection =
    | NotFound | ValidationError | DuplicateId | MutationConflict | VersionConflict(current: nat)
    | ListDeleted | ItemDeleted | ListArchived | ItemLimit | CursorExpired

  datatype Response = ListResponse(id: Id, list: ListRow) | ItemResponse(id: Id, item: ItemRow)

  /** The stored digest stands for the payload together with its resource. */
  datatype Record = Record(digest: Mutation, response: Response)

  datatype Key = Key(user: Id, op: Operation, mid: Id)

  datatype Db = Db(
    lists: map<Id, ListRow>, items: map<Id, ItemRow>, sequence: map<Id, nat>,
    records: map<Key, Record>, products: map<Id, Id>)

  datatype Outcome = Accepted(db: Db, response: Response) | Rejected(code: Rejection)

  function Op(m: Mutation): Operation {
    match m
    case ListCreate(_, _, _) => OpListCreate
    case ListPatch(_, _, _, _, _, _) => OpListPatch
    case ItemCreate(_, _, _, _, _, _, _, _, _) => OpItemCreate
    case ItemPatch(_, _, _, _, _, _, _, _, _) => OpItemPatch
    case ListCopy(_, _, _, _, _) => OpListCopy
  }

  function KeyOf(u: Id, m: Mutation): Key {
    Key(u, Op(m), m.mid)
  }

  /** Everything but the mutation id itself. */
  function Digest(m: Mutation): Mutation {
    m.(mid := Id(0))
  }

  // ---- Sequence ----

  function Seq(db: Db, u: Id): nat {
    if u in db.sequence then db.sequence[u] else 0
  }

  function Bump(db: Db, u: Id): Db {
    db.(sequence := db.sequence[u := Seq(db, u) + 1])
  }

  function Touch(row: ListRow, sequence: nat, bumpVersion: bool, now: int): ListRow {
    row.(version := if bumpVersion then row.version + 1 else row.version,
         contentSeq := sequence, updatedAt := now)
  }

  // ---- Validation and lookups ----

  predicate ValidQuantity(q: Quantity) {
    q.digits > 0 && q.scale <= 3
  }

  function Thousandths(q: Quantity): int
    requires q.scale <= 3
  {
    match 3 - q.scale
    case 0 => q.digits
    case 1 => q.digits * 10
    case 2 => q.digits * 100
    case _ => q.digits * 1000
  }

  /** The stripped free text; blank text counts as none. */
  function StrippedText(freeText: Option<string>): Option<string> {
    var stripped := Trim(freeText.GetOr(""));
    if stripped == "" then None else Some(stripped)
  }

  predicate ValidReference(product: Option<Id>, freeText: Option<string>) {
    product.None? != StrippedText(freeText).None?
  }

  predicate OwnsList(db: Db, u: Id, listId: Id) {
    listId in db.lists && db.lists[listId].user == u
  }

  predicate OwnsItem(db: Db, u: Id, listId: Id, itemId: Id) {
    itemId in db.items && db.items[itemId].listId == listId && db.items[itemId].user == u
  }

  /** Why the items of a list may not be changed, if they may not. */
  function MutableListError(db: Db, u: Id, listId: Id): Option<Rejection> {
    if !OwnsList(db, u, listId) then Some(NotFound)
    else if db.lists[listId].deleted then Some(ListDeleted)
    else if db.lists[listId].status == Archived then Some(ListArchived)
    else None
  }

  /** Why a new list may not take this id. A row of another owner answers as an unknown one. */
  function ListIdError(db: Db, u: Id, id: Id): Option<Rejection> {
    if id !in db.lists then None
    else if db.lists[id].user != u then Some(NotFound)
    else Some(DuplicateId)
  }

  function ItemIdError(db: Db, u: Id, id: Id): Option<Rejection> {
    if id !in db.items then None
    else if db.items[id].user != u then Some(NotFound)
    else Some(DuplicateId)
  }

  function ActiveItems(items: map<Id, ItemRow>, listId: Id): set<Id> {
    set i | i in items && items[i].listId == listId && !items[i].deleted
  }

  function ActivePositions(items: map<Id, ItemRow>, listId: Id): set<nat> {
    set i | i in ActiveItems(items, listId) :: items[i].position
  }

  // ---- Handlers ----

  function NewList(u: Id, name: string, sequence: nat, now: int): ListRow {
    ListRow(u, name, Active, 1, sequence, now, now, false)
  }

  function CreateList(db: Db, u: Id, m: Mutation, env: Env): Outcome
    requires m.ListCreate?
  {
    var id := m.id.GetOr(env.uuid);
    if Trim(m.name) == "" then Rejected(ValidationError)
    else if ListIdError(db, u, id).Some? then Rejected(ListIdError(db, u, id).value)
    else
      var db1 := Bump(db, u);
      var row := NewList(u, Trim(m.name), Seq(db1, u), env.now);
      Accepted(db1.(lists := db1.lists[id := row]), ListResponse(id, row))
  }

  function PatchedList(row: ListRow, m: Mutation, sequence: nat, now: int): ListRow
    requires m.ListPatch?
  {
    var named := if m.newName.Some? then row.(name := Trim(m.newName.value)) else row;
    var stated := if m.newStatus.Some? then named.(status := m.newStatus.value) else named;
    var marked := if m.deleted == Some(true) then stated.(deleted := true) else stated;
    Touch(marked, sequence, true, now)
  }

  function PatchList(db: Db, u: Id, m: Mutation, env: Env): Outcome
    requires m.ListPatch?
  {
    if !OwnsList(db, u, m.listId) then Rejected(NotFound)
    else
      var row := db.lists[m.listId];
      if row.deleted then Rejected(ListDeleted)
      else if m.expectedVersion != row.version then Rejected(VersionConflict(row.version))
      else if m.newName.Some? && Trim(m.newName.value) == "" then Rejected(ValidationError)
      else
        var db1 := Bump(db, u);
        var row' := PatchedList(row, m, Seq(db1, u), env.now);
        Accepted(db1.(lists := db1.lists[m.listId := row']), ListResponse(m.listId, row'))
  }

  ghost function CreateItemError(db: Db, u: Id, m: Mutation, id: Id): Option<Rejection>
    requires m.ItemCreate?
  {
    if MutableListError(db, u, m.listId).Some? then MutableListError(db, u, m.listId)
    else if !ValidReference(m.product, m.freeText) then Some(ValidationError)
    else if !ValidQuantity(m.amount) then Some(ValidationError)
    else if m.product.Some? && !(m.product.value in db.products && db.products[m.product.value] == u) then Some(NotFound)
    else if ItemIdError(db, u, id).Some? then ItemIdError(db, u, id)
    else if |ActiveItems(db.items, m.listId)| >= MAX_ACTIVE_ITEMS then Some(ItemLimit)
    else None
  }

  ghost function NewItem(db: Db, u: Id, m: Mutation, sequence: nat): ItemRow
    requires m.ItemCreate? && ValidQuantity(m.amount)
  {
    ItemRow(u, m.listId, m.product, StrippedText(m.freeText), Thousandths(m.amount), m.unit, m.checked,
            m.position.GetOr(NextAfter(ActivePositions(db.items, m.listId))), 1, sequence, false)
  }

  ghost function CreateItem(db: Db, u: Id, m: Mutation, env: Env): Outcome
    requires m.ItemCreate?
  {
    var id := m.id.GetOr(env.uuid);
    if CreateItemError(db, u, m, id).Some? then Rejected(CreateItemError(db, u, m, id).value)
    else
      var db1 := Bump(db, u);
      var row := NewItem(db, u, m, Seq(db1, u));
      Accepted(db1.(items := db1.items[id := row],
                    lists := db1.lists[m.listId := Touch(db.lists[m.listId], Seq(db1, u), false, env.now)]),
               ItemResponse(id, row))
  }

  function PatchItemError(db: Db, u: Id, m: Mutation): Option<Rejection>
    requires m.ItemPatch?
  {
    if MutableListError(db, u, m.listId).Some? then MutableListError(db, u, m.listId)
    else if !OwnsItem(db, u, m.listId, m.itemId) then Some(NotFound)
    else if db.items[m.itemId].deleted then Some(ItemDeleted)
    else if m.expectedVersion != db.items[m.itemId].version then Some(VersionConflict(db.items[m.itemId].version))
    else if m.newAmount.Some? && !ValidQuantity(m.newAmount.value) then Some(ValidationError)
    else None
  }

  function PatchedItem(row: ItemRow, m: Mutation, sequence: nat): ItemRow
    requires m.ItemPatch? && (m.newAmount.Some? ==> ValidQuantity(m.newAmount.value))
  {
    row.(thousandths := if m.newAmount.Some? then Thousandths(m.newAmount.value) else row.thousandths,
         unit := m.newUnit.GetOr(row.unit),
         checked := m.newChecked.GetOr(row.checked),
         position := m.newPosition.GetOr(row.position),
         deleted := row.deleted || m.deleted == Some(true),
         version := row.version + 1,
         syncSeq := sequence)
  }

  function PatchItem(db: Db, u: Id, m: Mutation, env: Env): Outcome
    requires m.ItemPatch?
  {
    if PatchItemError(db, u, m).Some? then Rejected(PatchItemError(db, u, m).value)
    else
      var db1 := Bump(db, u);
      var row := PatchedItem(db.items[m.itemId], m, Seq(db1, u));
      Accepted(db1.(items := db1.items[m.itemId := row],
                    lists := db1.lists[m.listId := Touch(db.lists[m.listId], Seq(db1, u), false, env.now)]),
               ItemResponse(m.itemId, row))
  }

  predicate ValidLine(db: Db, id: Id, line: MappedLine) {
    && (line.product.Some? || StrippedText(line.freeText).Some?)
    && ValidQuantity(line.amount)
    && id !in db.items
  }

  /** Inserts one copied line: it takes the next sequence number and lifts the list to it. */
  function AddLine(db: Db, u: Id, listId: Id, id: Id, line: MappedLine, position: nat, now: int): Db
    requires listId in db.lists && ValidLine(db, id, line)
  {
    var db1 := Bump(db, u);
    var row := ItemRow(u, listId, line.product, if line.product.Some? then None else StrippedText(line.freeText),
                       Thousandths(line.amount), line.unit, false, position, 1, Seq(db1, u), false);
    db1.(items := db1.items[id := row],
         lists := db1.lists[listId := Touch(db.lists[listId], Seq(db1, u), false, now)])
  }

  /** The lines one after the other, at positions from 0 on; nothing once one is invalid. */
  function AddLines(db: Db, u: Id, listId: Id, lines: seq<(Id, MappedLine)>, now: int): (r: Option<Db>)
    requires listId in db.lists
    ensures r.Some? ==> listId in r.value.lists
  {
    if lines == [] then Some(db)
    else
      var n := |lines| - 1;
      match AddLines(db, u, listId, lines[..n], now)
      case None => None
      case Some(db1) =>
        if ValidLine(db1, lines[n].0, lines[n].1) then Some(AddLine(db1, u, listId, lines[n].0, lines[n].1, n, now)) else None
  }

  /** A new list with the mapped lines, or nothing at all. */
  function Materialize(db: Db, u: Id, name: string, id: Id, env: Env): Outcome {
    if ListIdError(db, u, id).Some? then Rejected(ListIdError(db, u, id).value)
    else if |env.copied| > MAX_ACTIVE_ITEMS then Rejected(ItemLimit)
    else
      var db1 := Bump(db, u);
      var db2 := db1.(lists := db1.lists[id := NewList(u, name, Seq(db1, u), env.now)]);
      match AddLines(db2, u, id, env.copied, env.now)
      case None => Rejected(ValidationError)
      case Some(db3) => Accepted(db3, ListResponse(id, db3.lists[id]))
  }

  function CopyList(db: Db, u: Id, m: Mutation, env: Env): Outcome
    requires m.ListCopy?
  {
    if !OwnsList(db, u, m.listId) || db.lists[m.listId].deleted then Rejected(NotFound)
    else if m.newName.Some? && Trim(m.newName.value) == "" then Rejected(ValidationError)
    else
      var name := if m.newName.Some? then Trim(m.newName.value) else db.lists[m.listId].name;
      Materialize(db, u, name, m.id.GetOr(env.uuid), env)
  }

  ghost function Handle(db: Db, u: Id, m: Mutation, env: Env): Outcome {
    match m
    case ListCreate(_, _, _) => CreateList(db, u, m, env)
    case ListPatch(_, _, _, _, _, _) => PatchList(db, u, m, env)
    case ItemCreate(_, _, _, _, _, _, _, _, _) => CreateItem(db, u, m, env)
    case ItemPatch(_, _, _, _, _, _, _, _, _) => PatchItem(db, u, m, env)
    case ListCopy(_, _, _, _, _) => CopyList(db, u, m, env)
  }

  /** One mutation behind its idempotency key. A replay gives the stored response and changes nothing. */
  ghost function Apply(db: Db, u: Id, m: Mutation, env: Env): Outcome {
    var key := KeyOf(u, m);
    if key in db.records then
      if db.records[key].digest == Digest(m) then Accepted(db, db.records[key].response)
      else Rejected(MutationConflict)
    else
      match Handle(db, u, m, env)
      case Rejected(code) => Rejected(code)
      case Accepted(db', response) =>
        Accepted(db'.(records := db'.records[key := Record(Digest(m), response)]), response)
  }

  /** The database after the attempt: a rejected mutation is rolled back to its savepoint. */
  ghost function After(db: Db, u: Id, m: Mutation, env: Env): Db {
    match Apply(db, u, m, env)
    case Accepted(db', _) => db'
    case Rejected(_) => db
  }

  // ---- Sync ----

  datatype Call = Call(m: Mutation, env: Env)

  /** A refused mutation as the response reports it, with the server's row when the code is about one. */
  datatype Conflict = Conflict(mid: Id, code: Rejection, server: Option<Response>)

  function ServerCopy(db: Db, m: Mutation, code: Rejection): Option<Response> {
    if (code.ListDeleted? || code.ListArchived? || (code.VersionConflict? && m.ListPatch?))
       && !m.ListCreate? && m.listId in db.lists then Some(ListResponse(m.listId, db.lists[m.listId]))
    else if (code.ItemDeleted? || code.VersionConflict?) && m.ItemPatch? && m.itemId in db.items
    then Some(ItemResponse(m.itemId, db.items[m.itemId]))
    else None
  }

  ghost function ApplyBatch(db: Db, u: Id, calls: seq<Call>): (Db, seq<Conflict>)
    decreases |calls|
  {
    if calls == [] then (db, [])
    else
      var rest := ApplyBatch(After(db, u, calls[0].m, calls[0].env), u, calls[1..]);
      match Apply(db, u, calls[0].m, calls[0].env)
      case Accepted(_, _) => rest
      case Rejected(code) => (rest.0, [Conflict(calls[0].m.mid, code, ServerCopy(db, calls[0].m, code))] + rest.1)
  }

  /** A cursor as it arrives: unreadable text, or the decoded fields. */
  datatype Cursor = Unreadable | Token(version: int, user: Id, sequence: int, issuedAt: int)

  datatype SyncCursor = SyncCursor(sequence: Option<nat>, replayAllowed: bool)

  function ParseCursor(db: Db, u: Id, cursor: Option<Cursor>, now: int): SyncCursor {
    match cursor
    case None => SyncCursor(None, true)
    case Some(Unreadable) => SyncCursor(None, false)
    case Some(Token(version, user, sequence, issuedAt)) =>
      if version != CURSOR_VERSION || user != u then SyncCursor(None, false)
      else if now - issuedAt > TOMBSTONE_RETENTION then SyncCursor(None, false)
      else if sequence < 0 || sequence > Seq(db, u) then SyncCursor(None, false)
      else SyncCursor(Some(sequence), true)
  }

  function Expired(calls: seq<Call>): seq<Conflict> {
    seq(|calls|, i requires 0 <= i < |calls| => Conflict(calls[i].m.mid, CursorExpired, None))
  }

  /** The writing half of a sync: the committed database and the conflicts. */
  ghost function SyncWrite(db: Db, u: Id, cursor: Option<Cursor>, calls: seq<Call>, now: int): (Db, seq<Conflict>) {
    if !ParseCursor(db, u, cursor, now).replayAllowed then (db, Expired(calls)) else ApplyBatch(db, u, calls)
  }

  datatype ListDto = ListDto(id: Id, list: ListRow, items: seq<(Id, ItemRow)>)

  predicate ListDue(db: Db, u: Id, since: Option<nat>, id: Id) {
    OwnsList(db, u, id) && (since.Some? ==> db.lists[id].contentSeq > since.value)
  }

  predicate ItemDue(db: Db, u: Id, since: Option<nat>, listId: Id, id: Id) {
    OwnsItem(db, u, listId, id) && (since.Some? ==> db.items[id].syncSeq > since.value)
  }

  /** One list as the two queries answer it: its row from `dbL`, its due items from the later `dbI`. */
  ghost predicate Answers(dbL: Db, dbI: Db, u: Id, since: Option<nat>, dto: ListDto) {
    && ListDue(dbL, u, since, dto.id) && dto.list == dbL.lists[dto.id]
    && (forall j :: 0 <= j < |dto.items| ==> ItemDue(dbI, u, since, dto.id, dto.items[j].0) && dto.items[j].1 == dbI.items[dto.items[j].0])
    && (forall id :: ItemDue(dbI, u, since, dto.id, id) ==> exists j :: 0 <= j < |dto.items| && dto.items[j].0 == id)
  }

  /** `dtos` is an answer to the list query on `dbL` followed by the item query on `dbI`. */
  ghost predicate Delivers(dbL: Db, dbI: Db, u: Id, since: Option<nat>, dtos: seq<ListDto>) {
    && (forall i :: 0 <= i < |dtos| ==> Answers(dbL, dbI, u, since, dtos[i]))
    && (forall id :: ListDue(dbL, u, since, id) ==> exists i :: 0 <= i < |dtos| && dtos[i].id == id)
    && (forall i, j :: 0 <= i < j < |dtos| ==> dtos[i].id != dtos[j].id)
  }
}
