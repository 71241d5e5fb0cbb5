/** What each list request answers and writes: the first check it fails, or the row it leaves, field by field. */
module ListAnswers {
  import opened Basics
  import opened ShoppingLists
  import opened ShoppingListLaws

  // ---- Checks and rows in the request's own terms ----

  function Pow10(n: nat): int {
    if n == 0 then 1 else 10 * Pow10(n - 1)
  }

  /** `thousandths` is the decimal number `q` as the tables hold it. */
  predicate IsQuantity(thousandths: int, q: Quantity) {
    thousandths * Pow10(q.scale) == q.digits * 1000
  }

  predicate Storable(q: Quantity) {
    q.digits > 0 && q.scale <= 3
  }

  lemma {:induction false} ThousandthsAre(q: Quantity)
    requires q.scale <= 3
    ensures IsQuantity(Thousandths(q), q)
  {
    assert Pow10(0) == 1 && Pow10(1) == 10 && Pow10(2) == 100 && Pow10(3) == 1000;
  }

  predicate HasText(text: Option<string>) {
    text.Some? && !Blank(text.value)
  }

  /** The stored text is the given one without the spaces around it, and blank text is none. */
  ghost predicate IsText(stored: Option<string>, given: Option<string>) {
    if HasText(given) then stored.Some? && IsTrimmed(stored.value, given.value) else stored.None?
  }

  lemma {:induction false} StrippedIs(text: Option<string>)
    ensures IsText(StrippedText(text), text)
  {
    TrimTrims(text.GetOr(""));
  }

  predicate OwnedBy(db: Db, u: Id, listId: Id) {
    listId in db.lists && db.lists[listId].user == u
  }

  predicate ListIs(db: Db, listId: Id, holds: ListRow -> bool) {
    listId in db.lists && holds(db.lists[listId])
  }

  predicate ItemIs(db: Db, itemId: Id, holds: ItemRow -> bool) {
    itemId in db.items && holds(db.items[itemId])
  }

  function VersionOfList(db: Db, listId: Id): nat {
    if listId in db.lists then db.lists[listId].version else 0
  }

  function VersionOfItem(db: Db, itemId: Id): nat {
    if itemId in db.items then db.items[itemId].version else 0
  }

  function OpenIds(db: Db, listId: Id): set<Id> {
    set i | i in db.items && db.items[i].listId == listId && !db.items[i].deleted
  }

  /** One past the last open item of the list, or 0. */
  ghost predicate IsLast(db: Db, listId: Id, position: nat) {
    && (forall i :: i in OpenIds(db, listId) ==> db.items[i].position < position)
    && (position == 0 || exists i :: i in OpenIds(db, listId) && db.items[i].position == position - 1)
  }

  lemma {:induction false} NextIsLast(db: Db, listId: Id)
    ensures IsLast(db, listId, NextAfter(ActivePositions(db.items, listId)))
  {
    var ps := ActivePositions(db.items, listId);
    NextAfterIsLast(ps);
    forall i | i in OpenIds(db, listId) ensures db.items[i].position in ps { assert i in ActiveItems(db.items, listId); }
    if NextAfter(ps) > 0 {
      var i :| i in ActiveItems(db.items, listId) && db.items[i].position == NextAfter(ps) - 1;
      assert i in OpenIds(db, listId);
    }
  }

  /** The account's next number is taken and nothing differs but the list and, if given, the item. */
  ghost predicate OnlyWrites(db: Db, db': Db, u: Id, listId: Id, item: Option<Id>) {
    && listId in db'.lists && db'.lists == db.lists[listId := db'.lists[listId]]
    && (match item
        case None => db'.items == db.items
        case Some(id) => id in db'.items && db'.items == db.items[id := db'.items[id]])
    && db'.sequence == db.sequence[u := (if u in db.sequence then db.sequence[u] else 0) + 1]
    && db'.products == db.products && db'.records == db.records
  }

  /** A list header that only shows that one of its items was written. */
  predicate OnlyTouched(row: ListRow, row': ListRow, sequence: nat, now: int) {
    && row'.user == row.user && row'.name == row.name && row'.status == row.status && row'.version == row.version
    && row'.createdAt == row.createdAt && row'.deleted == row.deleted
    && row'.contentSeq == sequence && row'.updatedAt == now
  }

  function Chosen(id: Option<Id>, drawn: Id): Id {
    if id.Some? then id.value else drawn
  }

  // ---- A new list ----

  ghost predicate IsNewList(row: ListRow, u: Id, name: string, sequence: nat, now: int) {
    && row.user == u && IsTrimmed(row.name, name) && row.name != "" && row.status.Active? && !row.deleted
    && row.version == 1 && row.contentSeq == sequence && row.createdAt == now && row.updatedAt == now
  }

  function ListCreateRefusal(db: Db, u: Id, m: Mutation, id: Id): Option<Rejection>
    requires m.ListCreate?
  {
    Must(!Blank(m.name), ValidationError,
    Must(id in db.lists ==> db.lists[id].user == u, NotFound,
    Must(id !in db.lists, DuplicateId, None)))
  }

  lemma {:induction false} CreateListAnswers(db: Db, u: Id, m: Mutation, env: Env)
    requires m.ListCreate?
    ensures var id := Chosen(m.id, env.uuid);
            var refusal := ListCreateRefusal(db, u, m, id);
            match Handle(db, u, m, env)
            case Rejected(code) => refusal == Some(code)
            case Accepted(db', response) =>
              && refusal == None && OnlyWrites(db, db', u, id, None)
              && IsNewList(db'.lists[id], u, m.name, Seq(db, u) + 1, env.now) && response == ListResponse(id, db'.lists[id])
  {
    TrimTrims(m.name);
  }

  // ---- A patched list ----

  ghost predicate IsPatchedList(row: ListRow, row': ListRow, m: Mutation, sequence: nat, now: int)
    requires m.ListPatch?
  {
    && row'.user == row.user && row'.createdAt == row.createdAt && row'.version == row.version + 1
    && row'.contentSeq == sequence && row'.updatedAt == now
    && (if m.newName.Some? then IsTrimmed(row'.name, m.newName.value) && row'.name != "" else row'.name == row.name)
    && row'.status == (if m.newStatus.Some? then m.newStatus.value else row.status)
    && (row'.deleted <==> row.deleted || m.deleted == Some(true))
  }

  function ListPatchRefusal(db: Db, u: Id, m: Mutation): Option<Rejection>
    requires m.ListPatch?
  {
    Must(OwnedBy(db, u, m.listId), NotFound,
    Must(!ListIs(db, m.listId, (row: ListRow) => row.deleted), ListDeleted,
    Must(m.expectedVersion == VersionOfList(db, m.listId), VersionConflict(VersionOfList(db, m.listId)),
    Must(m.newName.Some? ==> !Blank(m.newName.value), ValidationError, None))))
  }

  lemma {:induction false} PatchListAnswers(db: Db, u: Id, m: Mutation, env: Env)
    requires m.ListPatch?
    ensures match Handle(db, u, m, env)
            case Rejected(code) => ListPatchRefusal(db, u, m) == Some(code)
            case Accepted(db', response) =>
              && ListPatchRefusal(db, u, m) == None && OnlyWrites(db, db', u, m.listId, None)
              && IsPatchedList(db.lists[m.listId], db'.lists[m.listId], m, Seq(db, u) + 1, env.now)
              && response == ListResponse(m.listId, db'.lists[m.listId])
  {
    if m.newName.Some? { TrimTrims(m.newName.value); }
  }

  // ---- A new item ----

  function ItemCreateRefusal(db: Db, u: Id, m: Mutation, id: Id): Option<Rejection>
    requires m.ItemCreate?
  {
    Must(OwnedBy(db, u, m.listId), NotFound,
    Must(!ListIs(db, m.listId, (row: ListRow) => row.deleted), ListDeleted,
    Must(!ListIs(db, m.listId, (row: ListRow) => row.status.Archived?), ListArchived,
    Must(m.product.Some? != HasText(m.freeText), ValidationError,
    Must(Storable(m.amount), ValidationError,
    Must(m.product.Some? ==> m.product.value in db.products && db.products[m.product.value] == u, NotFound,
    Must(id in db.items ==> db.items[id].user == u, NotFound,
    Must(id !in db.items, DuplicateId,
    Must(|OpenIds(db, m.listId)| < 200, ItemLimit, None)))))))))
  }

  /** Every field of the row a creation leaves. */
  ghost predicate IsNewItem(db: Db, row: ItemRow, u: Id, m: Mutation, sequence: nat)
    requires m.ItemCreate?
  {
    && row.user == u && row.listId == m.listId && row.product == m.product && IsText(row.freeText, m.freeText)
    && IsQuantity(row.thousandths, m.amount) && row.unit == m.unit && row.checked == m.checked && !row.deleted
    && row.version == 1 && row.syncSeq == sequence
    && if m.position.Some? then row.position == m.position.value else IsLast(db, m.listId, row.position)
  }

  lemma {:induction false} CreateItemRefusal(db: Db, u: Id, m: Mutation, id: Id)
    requires m.ItemCreate?
    ensures CreateItemError(db, u, m, id) == ItemCreateRefusal(db, u, m, id)
  {
    StrippedIs(m.freeText);
    assert OpenIds(db, m.listId) == ActiveItems(db.items, m.listId);
  }

  lemma {:induction false} CreateItemAnswers(db: Db, u: Id, m: Mutation, env: Env)
    requires m.ItemCreate?
    ensures var id := Chosen(m.id, env.uuid);
            match Handle(db, u, m, env)
            case Rejected(code) => ItemCreateRefusal(db, u, m, id) == Some(code)
            case Accepted(db', response) =>
              && ItemCreateRefusal(db, u, m, id) == None && OnlyWrites(db, db', u, m.listId, Some(id))
              && IsNewItem(db, db'.items[id], u, m, Seq(db, u) + 1)
              && OnlyTouched(db.lists[m.listId], db'.lists[m.listId], Seq(db, u) + 1, env.now)
              && response == ItemResponse(id, db'.items[id])
  {
    CreateItemRefusal(db, u, m, Chosen(m.id, env.uuid));
    if Handle(db, u, m, env).Accepted? {
      StrippedIs(m.freeText);
      ThousandthsAre(m.amount);
      NextIsLast(db, m.listId);
    }
  }

  // ---- A patched item ----

  function ItemPatchRefusal(db: Db, u: Id, m: Mutation): Option<Rejection>
    requires m.ItemPatch?
  {
    Must(OwnedBy(db, u, m.listId), NotFound,
    Must(!ListIs(db, m.listId, (row: ListRow) => row.deleted), ListDeleted,
    Must(!ListIs(db, m.listId, (row: ListRow) => row.status.Archived?), ListArchived,
    Must(ItemIs(db, m.itemId, (row: ItemRow) => row.listId == m.listId && row.user == u), NotFound,
    Must(!ItemIs(db, m.itemId, (row: ItemRow) => row.deleted), ItemDeleted,
    Must(m.expectedVersion == VersionOfItem(db, m.itemId), VersionConflict(VersionOfItem(db, m.itemId)),
    Must(m.newAmount.Some? ==> Storable(m.newAmount.value), ValidationError, None)))))))
  }

  predicate IsPatchedItem(row: ItemRow, row': ItemRow, m: Mutation, sequence: nat)
    requires m.ItemPatch?
  {
    && row'.user == row.user && row'.listId == row.listId && row'.product == row.product && row'.freeText == row.freeText
    && (if m.newAmount.Some? then IsQuantity(row'.thousandths, m.newAmount.value) else row'.thousandths == row.thousandths)
    && row'.unit == (if m.newUnit.Some? then m.newUnit.value else row.unit)
    && row'.checked == (if m.newChecked.Some? then m.newChecked.value else row.checked)
    && row'.position == (if m.newPosition.Some? then m.newPosition.value else row.position)
    && (row'.deleted <==> row.deleted || m.deleted == Some(true))
    && row'.version == row.version + 1 && row'.syncSeq == sequence
  }

  lemma {:induction false} PatchItemAnswers(db: Db, u: Id, m: Mutation, env: Env)
    requires m.ItemPatch?
    ensures match Handle(db, u, m, env)
            case Rejected(code) => ItemPatchRefusal(db, u, m) == Some(code)
            case Accepted(db', response) =>
              && ItemPatchRefusal(db, u, m) == None && OnlyWrites(db, db', u, m.listId, Some(m.itemId))
              && IsPatchedItem(db.items[m.itemId], db'.items[m.itemId], m, Seq(db, u) + 1)
              && OnlyTouched(db.lists[m.listId], db'.lists[m.listId], Seq(db, u) + 1, env.now)
              && response == ItemResponse(m.itemId, db'.items[m.itemId])
  {
    if m.newAmount.Some? && m.newAmount.value.scale <= 3 { ThousandthsAre(m.newAmount.value); }
  }

  // ---- A copied list ----

  predicate Usable(line: MappedLine) {
    (line.product.Some? || HasText(line.freeText)) && Storable(line.amount)
  }

  /** Each line can be stored under an id that no item and no line before it has. */
  predicate AllUsable(items: map<Id, ItemRow>, lines: seq<(Id, MappedLine)>) {
    && (forall i :: 0 <= i < |lines| ==> Usable(lines[i].1) && lines[i].0 !in items)
    && (forall i, j :: 0 <= i < j < |lines| ==> lines[i].0 != lines[j].0)
  }

  ghost predicate IsCopiedItem(row: ItemRow, u: Id, listId: Id, line: MappedLine, position: nat, sequence: nat) {
    && row.user == u && row.listId == listId && row.product == line.product
    && IsText(row.freeText, if line.product.Some? then None else line.freeText)
    && IsQuantity(row.thousandths, line.amount) && row.unit == line.unit && !row.checked && !row.deleted
    && row.position == position && row.version == 1 && row.syncSeq == sequence
  }

  /** Every line has become an item in its place, with the next number; no other item differs. */
  ghost predicate ItemsCopied(items: map<Id, ItemRow>, items': map<Id, ItemRow>, u: Id, listId: Id,
                              lines: seq<(Id, MappedLine)>, sequence: nat) {
    && (forall i :: 0 <= i < |lines| ==>
          lines[i].0 in items' && IsCopiedItem(items'[lines[i].0], u, listId, lines[i].1, i, sequence + 1 + i))
    && (forall id :: id in items ==> id in items' && items'[id] == items[id])
    && (forall id :: id in items' && id !in items ==> exists i :: 0 <= i < |lines| && lines[i].0 == id)
  }

  ghost predicate LinesWritten(db: Db, db': Db, u: Id, listId: Id, lines: seq<(Id, MappedLine)>, now: int)
    requires listId in db.lists
  {
    && ItemsCopied(db.items, db'.items, u, listId, lines, Seq(db, u)) && Seq(db', u) == Seq(db, u) + |lines|
    && (forall v :: v != u ==> Seq(db', v) == Seq(db, v)) && db'.products == db.products && db'.records == db.records
    && listId in db'.lists && db'.lists == db.lists[listId := db'.lists[listId]]
    && if lines == [] then db'.lists[listId] == db.lists[listId]
       else OnlyTouched(db.lists[listId], db'.lists[listId], Seq(db, u) + |lines|, now)
  }

  lemma {:induction false} LineAdded(db: Db, u: Id, listId: Id, id: Id, line: MappedLine, position: nat, now: int)
    requires listId in db.lists && ValidLine(db, id, line)
    ensures var db' := AddLine(db, u, listId, id, line, position, now);
            && OnlyWrites(db, db', u, listId, Some(id))
            && IsCopiedItem(db'.items[id], u, listId, line, position, Seq(db, u) + 1)
            && OnlyTouched(db.lists[listId], db'.lists[listId], Seq(db, u) + 1, now)
  {
    StrippedIs(line.freeText);
    StrippedIs(None);
    ThousandthsAre(line.amount);
  }

  lemma {:induction false} ItemCopied(items: map<Id, ItemRow>, items1: map<Id, ItemRow>, items': map<Id, ItemRow>, u: Id, listId: Id,
                                      lines: seq<(Id, MappedLine)>, sequence: nat)
    requires lines != [] && ItemsCopied(items, items1, u, listId, lines[..|lines| - 1], sequence)
    requires var (id, line) := lines[|lines| - 1];
             && id !in items1 && id in items' && items' == items1[id := items'[id]]
             && IsCopiedItem(items'[id], u, listId, line, |lines| - 1, sequence + |lines|)
    ensures ItemsCopied(items, items', u, listId, lines, sequence)
  {
    var n := |lines| - 1;
    forall i | 0 <= i < n ensures lines[..n][i] == lines[i] {}
    forall i | 0 <= i < |lines|
      ensures lines[i].0 in items' && IsCopiedItem(items'[lines[i].0], u, listId, lines[i].1, i, sequence + 1 + i)
    {
      if i < n { assert lines[..n][i].0 in items1; }
    }
    forall k | k in items' && k !in items ensures exists i :: 0 <= i < |lines| && lines[i].0 == k {
      if k in items1 {
        var i :| 0 <= i < n && lines[..n][i].0 == k;
        assert lines[i].0 == k;
      } else {
        assert lines[n].0 == k;
      }
    }
  }

  lemma {:induction false} LineCopied(db: Db, db1: Db, u: Id, listId: Id, lines: seq<(Id, MappedLine)>, now: int)
    requires listId in db.lists && lines != [] && LinesWritten(db, db1, u, listId, lines[..|lines| - 1], now)
    requires var n := |lines| - 1; ValidLine(db1, lines[n].0, lines[n].1)
    ensures var n := |lines| - 1;
            LinesWritten(db, AddLine(db1, u, listId, lines[n].0, lines[n].1, n, now), u, listId, lines, now)
  {
    var n := |lines| - 1;
    LineAdded(db1, u, listId, lines[n].0, lines[n].1, n, now);
    ItemCopied(db.items, db1.items, AddLine(db1, u, listId, lines[n].0, lines[n].1, n, now).items, u, listId, lines, Seq(db, u));
  }

  lemma {:induction false} UsableStep(db: Db, db1: Db, u: Id, listId: Id, lines: seq<(Id, MappedLine)>)
    requires lines != [] && ItemsCopied(db.items, db1.items, u, listId, lines[..|lines| - 1], Seq(db, u))
    ensures var n := |lines| - 1;
            AllUsable(db.items, lines) <==> AllUsable(db.items, lines[..n]) && ValidLine(db1, lines[n].0, lines[n].1)
  {
    var n := |lines| - 1;
    StrippedIs(lines[n].1.freeText);
    forall i | 0 <= i < n ensures lines[..n][i] == lines[i] {}
    if AllUsable(db.items, lines[..n]) && ValidLine(db1, lines[n].0, lines[n].1) {
      forall i | 0 <= i < n ensures lines[i].0 != lines[n].0 && Usable(lines[i].1) && lines[i].0 !in db.items {
        assert lines[..n][i].0 in db1.items;
      }
    }
  }

  /** The loop over the lines stores all of them or none, exactly as each is usable. */
  lemma {:induction false} AddLinesAnswers(db: Db, u: Id, listId: Id, lines: seq<(Id, MappedLine)>, now: int)
    requires listId in db.lists
    ensures match AddLines(db, u, listId, lines, now)
            case None => !AllUsable(db.items, lines)
            case Some(db') => AllUsable(db.items, lines) && LinesWritten(db, db', u, listId, lines, now)
  {
    if lines != [] {
      var n := |lines| - 1;
      AddLinesAnswers(db, u, listId, lines[..n], now);
      match AddLines(db, u, listId, lines[..n], now) {
        case None => if AllUsable(db.items, lines) { UsablePrefix(db.items, lines); }
        case Some(db1) =>
          UsableStep(db, db1, u, listId, lines);
          if ValidLine(db1, lines[n].0, lines[n].1) { LineCopied(db, db1, u, listId, lines, now); }
      }
    }
  }

  lemma {:induction false} UsablePrefix(items: map<Id, ItemRow>, lines: seq<(Id, MappedLine)>)
    requires lines != [] && AllUsable(items, lines)
    ensures AllUsable(items, lines[..|lines| - 1])
  {
  }

  predicate CopySource(db: Db, u: Id, listId: Id) {
    OwnedBy(db, u, listId) && !db.lists[listId].deleted
  }

  function ListCopyRefusal(db: Db, u: Id, m: Mutation, env: Env, id: Id): Option<Rejection>
    requires m.ListCopy?
  {
    Must(CopySource(db, u, m.listId), NotFound,
    Must(m.newName.Some? ==> !Blank(m.newName.value), ValidationError,
    Must(id in db.lists ==> db.lists[id].user == u, NotFound,
    Must(id !in db.lists, DuplicateId,
    Must(|env.copied| <= 200, ItemLimit,
    Must(AllUsable(db.items, env.copied), ValidationError, None))))))
  }

  /** A new list in the state its last line left it in, named as asked for or like its source. */
  ghost predicate IsCopy(db: Db, row: ListRow, u: Id, m: Mutation, sequence: nat, now: int)
    requires m.ListCopy? && m.listId in db.lists
  {
    && row.user == u && row.status.Active? && !row.deleted && row.version == 1 && row.contentSeq == sequence
    && row.createdAt == now && row.updatedAt == now
    && if m.newName.Some? then IsTrimmed(row.name, m.newName.value) && row.name != "" else row.name == db.lists[m.listId].name
  }

  ghost predicate CopyWritten(db: Db, db': Db, u: Id, m: Mutation, env: Env, id: Id)
    requires m.ListCopy? && m.listId in db.lists
  {
    && ItemsCopied(db.items, db'.items, u, id, env.copied, Seq(db, u) + 1) && Seq(db', u) == Seq(db, u) + 1 + |env.copied|
    && (forall v :: v != u ==> Seq(db', v) == Seq(db, v)) && db'.products == db.products && db'.records == db.records
    && id in db'.lists && db'.lists == db.lists[id := db'.lists[id]]
    && IsCopy(db, db'.lists[id], u, m, Seq(db, u) + 1 + |env.copied|, env.now)
  }

  /** The last line leaves the new list as if it had been made with that line's number. */
  ghost predicate CopyOf(db: Db, db': Db, u: Id, name: string, id: Id, copied: seq<(Id, MappedLine)>, now: int) {
    && ItemsCopied(db.items, db'.items, u, id, copied, Seq(db, u) + 1) && Seq(db', u) == Seq(db, u) + 1 + |copied|
    && (forall v :: v != u ==> Seq(db', v) == Seq(db, v)) && db'.products == db.products && db'.records == db.records
    && id in db'.lists && db'.lists == db.lists[id := db'.lists[id]]
    && db'.lists[id] == NewList(u, name, Seq(db, u) + 1 + |copied|, now)
  }

  lemma {:induction false} LinesCopied(db: Db, db': Db, u: Id, name: string, id: Id, copied: seq<(Id, MappedLine)>, now: int)
    requires var db1 := Bump(db, u);
             LinesWritten(db1.(lists := db1.lists[id := NewList(u, name, Seq(db1, u), now)]), db', u, id, copied, now)
    ensures CopyOf(db, db', u, name, id, copied, now)
  {
    assert db'.lists == db.lists[id := db'.lists[id]];
  }

  lemma {:induction false} MaterializeAnswers(db: Db, u: Id, name: string, id: Id, env: Env)
    requires id !in db.lists && |env.copied| <= 200
    ensures match Materialize(db, u, name, id, env)
            case Rejected(code) => code == ValidationError && !AllUsable(db.items, env.copied)
            case Accepted(db', response) =>
              && AllUsable(db.items, env.copied) && CopyOf(db, db', u, name, id, env.copied, env.now)
              && response == ListResponse(id, db'.lists[id])
  {
    var db1 := Bump(db, u);
    AddLinesAnswers(db1.(lists := db1.lists[id := NewList(u, name, Seq(db1, u), env.now)]), u, id, env.copied, env.now);
    if Materialize(db, u, name, id, env).Accepted? {
      LinesCopied(db, Materialize(db, u, name, id, env).db, u, name, id, env.copied, env.now);
    }
  }

  lemma {:induction false} CopyListAnswers(db: Db, u: Id, m: Mutation, env: Env)
    requires m.ListCopy?
    ensures var id := Chosen(m.id, env.uuid);
            match Handle(db, u, m, env)
            case Rejected(code) => ListCopyRefusal(db, u, m, env, id) == Some(code)
            case Accepted(db', response) =>
              && ListCopyRefusal(db, u, m, env, id) == None && CopyWritten(db, db', u, m, env, id)
              && response == ListResponse(id, db'.lists[id])
  {
    var id := Chosen(m.id, env.uuid);
    if m.newName.Some? { TrimTrims(m.newName.value); }
    if CopySource(db, u, m.listId) && id !in db.lists && |env.copied| <= 200 {
      MaterializeAnswers(db, u, if m.newName.Some? then Trim(m.newName.value) else db.lists[m.listId].name, id, env);
    }
  }

  // ---- Idempotency and sync ----

  lemma {:induction false} RunKeepsRecords(db: Db, calls: seq<UserCall>, k: Key)
    requires Inv(db) && k in db.records
    ensures k in Run(db, calls).records && Run(db, calls).records[k] == db.records[k]
  {
    RunKeeps(db, calls);
  }

  /** Whatever happens in between, a request that was accepted is answered as it was then and changes nothing, and
      any other request under its key is refused. */
  lemma {:induction false} FirstAnswerIsFinal(db: Db, u: Id, m: Mutation, env: Env, between: seq<UserCall>, again: Mutation, env': Env)
    requires Inv(db) && KeyOf(u, m) !in db.records && Apply(db, u, m, env).Accepted? && KeyOf(u, again) == KeyOf(u, m)
    ensures var later := Run(After(db, u, m, env), between);
            Apply(later, u, again, env') ==
            if again == m then Accepted(later, Handle(db, u, m, env).response) else Rejected(MutationConflict)
  {
    AfterKeeps(db, u, m, env);
    RunKeepsRecords(After(db, u, m, env), between, KeyOf(u, m));
    assert again.mid == m.mid;
    assert Digest(again) == Digest(m) <==> again == m by {
      assert Digest(again).(mid := m.mid) == again && Digest(m).(mid := m.mid) == m;
    }
  }

  /** Another account's requests neither use up a mutation id of this one nor change what is recorded under it. */
  lemma {:induction false} RecordsAreSeparate(db: Db, calls: seq<UserCall>, u: Id, op: Operation, mid: Id)
    requires Inv(db) && forall i :: 0 <= i < |calls| ==> calls[i].user != u
    ensures var k, later := Key(u, op, mid), Run(db, calls);
            (k in later.records <==> k in db.records) && (k in db.records ==> later.records[k] == db.records[k])
    decreases |calls|
  {
    if calls != [] {
      var c := calls[0];
      if KeyOf(c.user, c.m) !in db.records && Handle(db, c.user, c.m, c.env).Accepted? { HandleKeeps(db, c.user, c.m, c.env); }
      AfterKeeps(db, c.user, c.m, c.env);
      RecordsAreSeparate(After(db, c.user, c.m, c.env), calls[1..], u, op, mid);
    }
  }

  /** A sync whose cursor is refused writes nothing and reports every mutation as such, in order; any other applies them. */
  lemma {:induction false} SyncWriteAnswers(db: Db, u: Id, cursor: Option<Cursor>, calls: seq<Call>, now: int)
    ensures var (db', conflicts) := SyncWrite(db, u, cursor, calls, now);
            if ParseCursor(db, u, cursor, now).replayAllowed then (db', conflicts) == ApplyBatch(db, u, calls)
            else
              && db' == db && |conflicts| == |calls|
              && forall i :: 0 <= i < |calls| ==>
                   conflicts[i].mid == calls[i].m.mid && conflicts[i].code == CursorExpired && conflicts[i].server == None
  {
  }

  /** What a refusal carries for the device: the server's list when the list stands in the way, the server's item when
      the item does, and nothing otherwise. */
  lemma {:induction false} RefusalCarries(db: Db, u: Id, m: Mutation, env: Env)
    requires Handle(db, u, m, env).Rejected?
    ensures var code := Handle(db, u, m, env).code;
            ServerCopy(db, m, code) ==
            match code
            case ListDeleted => if m.ListCreate? || m.ListCopy? then None else Some(ListResponse(m.listId, db.lists[m.listId]))
            case ListArchived => Some(ListResponse(m.listId, db.lists[m.listId]))
            case ItemDeleted => Some(ItemResponse(m.itemId, db.items[m.itemId]))
            case VersionConflict(_) =>
              if m.ListPatch? then Some(ListResponse(m.listId, db.lists[m.listId])) else Some(ItemResponse(m.itemId, db.items[m.itemId]))
            case _ => None
  {
  }

  /** A cursor is good for a delta exactly if it is of the right version and account, not older than 90 days and not
      ahead of the account; without one the device gets everything, and with any other its mutations are refused. */
  lemma {:induction false} CursorAnswers(db: Db, u: Id, cursor: Option<Cursor>, now: int)
    ensures var parsed := ParseCursor(db, u, cursor, now);
            && (cursor.None? ==> parsed == SyncCursor(None, true))
            && (cursor.Some? && cursor.value.Unreadable? ==> parsed == SyncCursor(None, false))
            && (cursor.Some? && cursor.value.Token? ==>
                  var c := cursor.value;
                  parsed == if c.version == 1 && c.user == u && now <= c.issuedAt + 7776000 && 0 <= c.sequence <= Seq(db, u)
                            then SyncCursor(Some(c.sequence), true) else SyncCursor(None, false))
  {
  }

  /** One more mutation: its effect, or one more conflict that says why it was refused and with which row of the moment. */
  ghost function Report(state: (Db, seq<Conflict>), u: Id, call: Call): (Db, seq<Conflict>) {
    match Apply(state.0, u, call.m, call.env)
    case Accepted(db', _) => (db', state.1)
    case Rejected(code) => (state.0, state.1 + [Conflict(call.m.mid, code, ServerCopy(state.0, call.m, code))])
  }

  function Prepend(conflicts: seq<Conflict>, state: (Db, seq<Conflict>)): (Db, seq<Conflict>) {
    (state.0, conflicts + state.1)
  }

  lemma {:induction false} ReportLater(conflicts: seq<Conflict>, state: (Db, seq<Conflict>), u: Id, call: Call)
    ensures Report(Prepend(conflicts, state), u, call) == Prepend(conflicts, Report(state, u, call))
  {
    match Apply(state.0, u, call.m, call.env)
    case Accepted(_, _) =>
    case Rejected(code) =>
      var k := Conflict(call.m.mid, code, ServerCopy(state.0, call.m, code));
      assert conflicts + (state.1 + [k]) == conflicts + state.1 + [k];
  }

  lemma {:induction false} FirstOfBatch(db: Db, u: Id, first: Call, rest: seq<Call>)
    ensures Report((db, []), u, first).0 == After(db, u, first.m, first.env)
    ensures ApplyBatch(db, u, [first] + rest)
            == Prepend(Report((db, []), u, first).1, ApplyBatch(After(db, u, first.m, first.env), u, rest))
  {
    var calls := [first] + rest;
    assert calls[0] == first && calls[1..] == rest;
    var later := ApplyBatch(After(db, u, first.m, first.env), u, rest);
    var own := Report((db, []), u, first).1;
    match Apply(db, u, first.m, first.env)
    case Accepted(_, _) => assert own + later.1 == later.1;
    case Rejected(code) => assert own == [Conflict(first.m.mid, code, ServerCopy(db, first.m, code))];
  }

  /** The mutations of a batch are applied, and their refusals reported, one after the other. */
  lemma {:induction false} BatchInOrder(db: Db, u: Id, calls: seq<Call>, i: nat)
    requires i < |calls|
    ensures ApplyBatch(db, u, calls[..i + 1]) == Report(ApplyBatch(db, u, calls[..i]), u, calls[i])
    decreases |calls|
  {
    var first, rest := calls[0], calls[1..];
    var db1 := After(db, u, first.m, first.env);
    var own := Report((db, []), u, first).1;
    assert calls[..i + 1] == [first] + rest[..i];
    FirstOfBatch(db, u, first, rest[..i]);
    if i == 0 {
      assert ApplyBatch(db1, u, rest[..0]) == (db1, []) && calls[..0] == [] && own + [] == own;
    } else {
      assert calls[..i] == [first] + rest[..i - 1] && rest[i - 1] == calls[i];
      FirstOfBatch(db, u, first, rest[..i - 1]);
      BatchInOrder(db1, u, rest, i - 1);
      ReportLater(own, ApplyBatch(db1, u, rest[..i - 1]), u, calls[i]);
    }
  }
}
