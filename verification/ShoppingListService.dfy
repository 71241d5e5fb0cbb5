/** The service as it runs: rows are updated in place, one handler at a time, behind a savepoint. */
module ShoppingListService {
  import opened Basics
  import Lists = ShoppingLists
  import opened ShoppingLists

  datatype Reply = Done(response: Response) | Refused(code: Rejection)

  // ---- Lines inserted one after the other ----

  /** One invalid line refuses them all. */
  lemma {:induction false} AddLinesStop(db: Db, u: Id, listId: Id, lines: seq<(Id, MappedLine)>, k: nat, now: int)
    requires listId in db.lists && k <= |lines| && AddLines(db, u, listId, lines[..k], now) == None
    ensures AddLines(db, u, listId, lines, now) == None
  {
    if k == |lines| {
      assert lines[..k] == lines;
    } else {
      assert lines[..|lines| - 1][..k] == lines[..k];
      AddLinesStop(db, u, listId, lines[..|lines| - 1], k, now);
    }
  }

  ghost predicate KeepsRows(db: Db, db': Db) {
    && (forall id :: id in db.lists ==> id in db'.lists && db'.lists[id] == db.lists[id])
    && (forall id :: id in db.items ==> id in db'.items && db'.items[id] == db.items[id])
  }

  lemma {:induction false} AddLinesKeepRows(db: Db, u: Id, listId: Id, lines: seq<(Id, MappedLine)>, now: int)
    requires listId in db.lists && AddLines(db, u, listId, lines, now).Some?
    ensures KeepsRows(db.(lists := db.lists - {listId}), AddLines(db, u, listId, lines, now).value)
  {
    if lines != [] { AddLinesKeepRows(db, u, listId, lines[..|lines| - 1], now); }
  }

  class Service {
    var lists: map<Id, ListRow>
    var items: map<Id, ItemRow>
    var sequence: map<Id, nat>
    var records: map<Key, Record>
    var products: map<Id, Id>

    ghost function State(): Db
      reads this
    {
      Db(lists, items, sequence, records, products)
    }

    constructor (products: map<Id, Id>)
      ensures State() == Db(map[], map[], map[], map[], products)
    {
      lists, items, sequence, records := map[], map[], map[], map[];
      this.products := products;
    }

    method NextSequence(u: Id) returns (n: nat)
      modifies this`sequence
      ensures State() == Bump(old(State()), u) && n == Seq(State(), u)
    {
      n := (if u in sequence then sequence[u] else 0) + 1;
      sequence := sequence[u := n];
    }

    method CreateList(u: Id, m: Mutation, env: Env) returns (r: Reply)
      requires m.ListCreate?
      modifies this
      ensures Performs(old(State()), Lists.CreateList(old(State()), u, m, env), r)
    {
      var id := m.id.GetOr(env.uuid);
      if Trim(m.name) == "" { return Refused(ValidationError); }
      if id in lists { return Refused(if lists[id].user != u then NotFound else DuplicateId); }
      var n := NextSequence(u);
      var row := NewList(u, Trim(m.name), n, env.now);
      lists := lists[id := row];
      return Done(ListResponse(id, row));
    }

    method PatchList(u: Id, m: Mutation, env: Env) returns (r: Reply)
      requires m.ListPatch?
      modifies this
      ensures Performs(old(State()), Lists.PatchList(old(State()), u, m, env), r)
    {
      if m.listId !in lists || lists[m.listId].user != u { return Refused(NotFound); }
      var row := lists[m.listId];
      if row.deleted { return Refused(ListDeleted); }
      if m.expectedVersion != row.version { return Refused(VersionConflict(row.version)); }
      if m.newName.Some? && Trim(m.newName.value) == "" { return Refused(ValidationError); }
      var n := NextSequence(u);
      if m.newName.Some? { row := row.(name := Trim(m.newName.value)); }
      if m.newStatus.Some? { row := row.(status := m.newStatus.value); }
      if m.deleted == Some(true) { row := row.(deleted := true); }
      row := Touch(row, n, true, env.now);
      lists := lists[m.listId := row];
      return Done(ListResponse(m.listId, row));
    }

    method CreateItem(u: Id, m: Mutation, env: Env) returns (r: Reply)
      requires m.ItemCreate?
      modifies this
      ensures Performs(old(State()), Lists.CreateItem(old(State()), u, m, env), r)
    {
      var id := m.id.GetOr(env.uuid);
      var blocked := MutableListError(Db(lists, items, sequence, records, products), u, m.listId);
      if blocked.Some? { return Refused(blocked.value); }
      if !ValidReference(m.product, m.freeText) || !ValidQuantity(m.amount) { return Refused(ValidationError); }
      if m.product.Some? && !(m.product.value in products && products[m.product.value] == u) { return Refused(NotFound); }
      if id in items { return Refused(if items[id].user != u then NotFound else DuplicateId); }
      if |ActiveItems(items, m.listId)| >= MAX_ACTIVE_ITEMS { return Refused(ItemLimit); }
      var n := NextSequence(u);
      var position;
      if m.position.Some? { position := m.position.value; } else { position := FindNextAfter(ActivePositions(items, m.listId)); }
      var row := ItemRow(u, m.listId, m.product, StrippedText(m.freeText), Thousandths(m.amount), m.unit, m.checked,
                         position, 1, n, false);
      items := items[id := row];
      lists := lists[m.listId := Touch(lists[m.listId], n, false, env.now)];
      return Done(ItemResponse(id, row));
    }

    /** The fields the patch names, one after the other. */
    static method Patch(before: ItemRow, m: Mutation, n: nat) returns (row: ItemRow)
      requires m.ItemPatch? && (m.newAmount.Some? ==> ValidQuantity(m.newAmount.value))
      ensures row == PatchedItem(before, m, n)
    {
      row := before;
      if m.newAmount.Some? { row := row.(thousandths := Thousandths(m.newAmount.value)); }
      if m.newUnit.Some? { row := row.(unit := m.newUnit.value); }
      if m.newChecked.Some? { row := row.(checked := m.newChecked.value); }
      if m.newPosition.Some? { row := row.(position := m.newPosition.value); }
      if m.deleted == Some(true) { row := row.(deleted := true); }
      row := row.(version := row.version + 1, syncSeq := n);
    }

    method PatchItem(u: Id, m: Mutation, env: Env) returns (r: Reply)
      requires m.ItemPatch?
      modifies this
      ensures Performs(old(State()), Lists.PatchItem(old(State()), u, m, env), r)
    {
      var refused := PatchItemError(Db(lists, items, sequence, records, products), u, m);
      if refused.Some? { return Refused(refused.value); }
      var n := NextSequence(u);
      var row := Patch(items[m.itemId], m, n);
      items := items[m.itemId := row];
      lists := lists[m.listId := Touch(lists[m.listId], n, false, env.now)];
      return Done(ItemResponse(m.itemId, row));
    }

    method InsertLine(u: Id, listId: Id, id: Id, line: MappedLine, position: nat, now: int)
      requires listId in lists && ValidLine(State(), id, line)
      modifies this`lists, this`items, this`sequence
      ensures State() == AddLine(old(State()), u, listId, id, line, position, now)
    {
      var n := NextSequence(u);
      items := items[id := ItemRow(u, listId, line.product, if line.product.Some? then None else StrippedText(line.freeText),
                                   Thousandths(line.amount), line.unit, false, position, 1, n, false)];
      lists := lists[listId := Touch(lists[listId], n, false, now)];
    }

    /** Stops at the first invalid line; `inserted` is how many came before it. */
    method InsertLines(u: Id, listId: Id, lines: seq<(Id, MappedLine)>, now: int) returns (inserted: nat)
      requires listId in lists
      modifies this`lists, this`items, this`sequence
      ensures inserted <= |lines| && AddLines(old(State()), u, listId, lines[..inserted], now) == Some(State())
      ensures inserted < |lines| ==> !ValidLine(State(), lines[inserted].0, lines[inserted].1)
      ensures inserted < |lines| ==> AddLines(old(State()), u, listId, lines, now) == None
    {
      for i := 0 to |lines|
        invariant listId in lists && AddLines(old(State()), u, listId, lines[..i], now) == Some(State())
      {
        assert lines[..i + 1][..i] == lines[..i];
        if !ValidLine(Db(lists, items, sequence, records, products), lines[i].0, lines[i].1) {
          AddLinesStop(old(State()), u, listId, lines, i + 1, now);
          return i;
        }
        InsertLine(u, listId, lines[i].0, lines[i].1, i, now);
      }
      return |lines|;
    }

    /** On refusal rows may have been added, for the caller's savepoint to remove; no row that was there has changed. */
    method CopyList(u: Id, m: Mutation, env: Env) returns (r: Reply)
      requires m.ListCopy?
      modifies this`lists, this`items, this`sequence
      ensures var o := Lists.CopyList(old(State()), u, m, env);
              match o
              case Accepted(db, response) => State() == db && r == Done(response)
              case Rejected(code) => r == Refused(code) && KeepsRows(old(State()), State())
    {
      if m.listId !in lists || lists[m.listId].user != u || lists[m.listId].deleted { return Refused(NotFound); }
      if m.newName.Some? && Trim(m.newName.value) == "" { return Refused(ValidationError); }
      var name := if m.newName.Some? then Trim(m.newName.value) else lists[m.listId].name;
      var id := m.id.GetOr(env.uuid);
      if id in lists { return Refused(if lists[id].user != u then NotFound else DuplicateId); }
      if |env.copied| > MAX_ACTIVE_ITEMS { return Refused(ItemLimit); }
      var n := NextSequence(u);
      lists := lists[id := NewList(u, name, n, env.now)];
      ghost var started := State();
      var inserted := InsertLines(u, id, env.copied, env.now);
      AddLinesKeepRows(started, u, id, env.copied[..inserted], env.now);
      if inserted < |env.copied| { return Refused(ValidationError); }
      assert env.copied[..inserted] == env.copied;
      return Done(ListResponse(id, lists[id]));
    }

    method Dispatch(u: Id, m: Mutation, env: Env) returns (r: Reply)
      modifies this
      ensures var o := Handle(old(State()), u, m, env);
              match o
              case Accepted(db, response) => State() == db && r == Done(response)
              case Rejected(code) => r == Refused(code)
    {
      match m {
        case ListCreate(_, _, _) => r := CreateList(u, m, env);
        case ListPatch(_, _, _, _, _, _) => r := PatchList(u, m, env);
        case ItemCreate(_, _, _, _, _, _, _, _, _) => r := CreateItem(u, m, env);
        case ItemPatch(_, _, _, _, _, _, _, _, _) => r := PatchItem(u, m, env);
        case ListCopy(_, _, _, _, _) => r := CopyList(u, m, env);
      }
    }

    /** One mutation in its own savepoint, behind its idempotency key. */
    method ApplyMutation(u: Id, m: Mutation, env: Env) returns (r: Reply)
      modifies this
      ensures Performs(old(State()), Apply(old(State()), u, m, env), r)
    {
      var key := KeyOf(u, m);
      if key in records {
        return if records[key].digest == Digest(m) then Done(records[key].response) else Refused(MutationConflict);
      }
      var savedLists, savedItems, savedSequence, savedRecords, savedProducts := lists, items, sequence, records, products;
      r := Dispatch(u, m, env);
      match r {
        case Done(response) => records := records[key := Record(Digest(m), response)];
        case Refused(_) =>
          lists, items, sequence, records, products := savedLists, savedItems, savedSequence, savedRecords, savedProducts;
      }
    }

    /** The writing half of `sync`: the batch is applied in order, or refused whole when the cursor is unusable. */
    method Sync(u: Id, cursor: Option<Cursor>, calls: seq<Call>, now: int) returns (conflicts: seq<Conflict>)
      modifies this
      ensures (State(), conflicts) == SyncWrite(old(State()), u, cursor, calls, now)
    {
      var parsed := ParseCursor(Db(lists, items, sequence, records, products), u, cursor, now);
      if !parsed.replayAllowed { return Expired(calls); }
      conflicts := [];
      var i := 0;
      assert calls[0..] == calls && [] + ApplyBatch(State(), u, calls).1 == ApplyBatch(State(), u, calls).1;
      while i < |calls|
        invariant 0 <= i <= |calls|
        invariant var (db, rest) := ApplyBatch(State(), u, calls[i..]);
                  ApplyBatch(old(State()), u, calls) == (db, conflicts + rest)
      {
        assert calls[i..][0] == calls[i] && calls[i..][1..] == calls[i + 1..];
        var r := ApplyMutation(u, calls[i].m, calls[i].env);
        match r {
          case Done(_) =>
          case Refused(code) =>
            var server := ServerCopy(Db(lists, items, sequence, records, products), calls[i].m, code);
            ghost var conflict := Conflict(calls[i].m.mid, code, server);
            assert forall rest :: conflicts + ([conflict] + rest) == conflicts + [conflict] + rest;
            conflicts := conflicts + [Conflict(calls[i].m.mid, code, server)];
        }
        i := i + 1;
      }
      assert conflicts + [] == conflicts;
    }

    /** The state and the reply are the ones the outcome prescribes; a refusal changes nothing. */
    ghost predicate Performs(before: Db, o: Outcome, r: Reply)
      reads this
    {
      match o
      case Accepted(db, response) => State() == db && r == Done(response)
      case Rejected(code) => State() == before && r == Refused(code)
    }
  }
}
