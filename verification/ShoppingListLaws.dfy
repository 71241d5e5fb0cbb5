/** What every run of the shopping-list server keeps. */
module ShoppingListLaws {
  import opened Basics
  import opened ShoppingLists

  // ---- The invariant ----

  ghost predicate ValidList(db: Db, id: Id)
    requires id in db.lists
  {
    var row := db.lists[id];
    0 < row.contentSeq <= Seq(db, row.user) && row.version >= 1
  }

  ghost predicate ValidItem(db: Db, id: Id)
    requires id in db.items
  {
    var row := db.items[id];
    && OwnsList(db, row.user, row.listId)
    && 0 < row.syncSeq <= db.lists[row.listId].contentSeq
    && row.version >= 1
    && row.thousandths > 0
    && row.product.None? != row.freeText.None?
  }

  ghost predicate WithinLimit(db: Db, listId: Id) {
    |ActiveItems(db.items, listId)| <= MAX_ACTIVE_ITEMS
  }

  ghost predicate Inv(db: Db) {
    && (forall id :: id in db.lists ==> ValidList(db, id))
    && (forall id :: id in db.items ==> ValidItem(db, id))
    && (forall id :: WithinLimit(db, id))
  }

  // ---- The order of states ----

  /** A list row only moves forward, and a row that changed carries a sequence number the
      account had not handed out before. */
  ghost predicate ListAdvances(db: Db, db': Db, id: Id)
    requires id in db.lists
  {
    id in db'.lists &&
    var a, b := db.lists[id], db'.lists[id];
    && a.user == b.user && a.createdAt == b.createdAt
    && a.version <= b.version && a.contentSeq <= b.contentSeq && (a.deleted ==> b.deleted)
    && (a == b || Seq(db, a.user) < b.contentSeq)
  }

  ghost predicate ItemAdvances(db: Db, db': Db, id: Id)
    requires id in db.items
  {
    id in db'.items &&
    var a, b := db.items[id], db'.items[id];
    && a.user == b.user && a.listId == b.listId && a.product == b.product && a.freeText == b.freeText
    && a.version <= b.version && a.syncSeq <= b.syncSeq && (a.deleted ==> b.deleted)
    && (a == b || Seq(db, a.user) < b.syncSeq)
  }

  ghost predicate ListIsNew(db: Db, db': Db, id: Id)
    requires id in db'.lists
  {
    Seq(db, db'.lists[id].user) < db'.lists[id].contentSeq
  }

  ghost predicate ItemIsNew(db: Db, db': Db, id: Id)
    requires id in db'.items
  {
    Seq(db, db'.items[id].user) < db'.items[id].syncSeq
  }

  ghost predicate Advances(db: Db, db': Db) {
    && (forall u :: Seq(db, u) <= Seq(db', u))
    && (forall id :: id in db.lists ==> ListAdvances(db, db', id))
    && (forall id :: id in db'.lists && id !in db.lists ==> ListIsNew(db, db', id))
    && (forall id :: id in db.items ==> ItemAdvances(db, db', id))
    && (forall id :: id in db'.items && id !in db.items ==> ItemIsNew(db, db', id))
    && (forall k :: k in db.records ==> k in db'.records && db'.records[k] == db.records[k])
    && db'.products == db.products
  }

  lemma {:induction false} AdvancesTransitive(a: Db, b: Db, c: Db)
    requires Advances(a, b) && Advances(b, c)
    ensures Advances(a, c)
  {
    forall id | id in a.lists ensures ListAdvances(a, c, id) {
      assert ListAdvances(a, b, id) && ListAdvances(b, c, id);
    }
    forall id | id in c.lists && id !in a.lists ensures ListIsNew(a, c, id) {
      if id in b.lists { assert ListIsNew(a, b, id) && ListAdvances(b, c, id); }
      else { assert ListIsNew(b, c, id); }
    }
    forall id | id in a.items ensures ItemAdvances(a, c, id) {
      assert ItemAdvances(a, b, id) && ItemAdvances(b, c, id);
    }
    forall id | id in c.items && id !in a.items ensures ItemIsNew(a, c, id) {
      if id in b.items { assert ItemIsNew(a, b, id) && ItemAdvances(b, c, id); }
      else { assert ItemIsNew(b, c, id); }
    }
  }

  // ---- One write of a list header, and one write of an item with its list ----

  /** `db'` is `db` with the next sequence number stamped on list `id`. */
  ghost predicate WritesList(db: Db, db': Db, u: Id, id: Id) {
    && db'.sequence == db.sequence[u := Seq(db, u) + 1]
    && id in db'.lists && db'.lists == db.lists[id := db'.lists[id]]
    && db'.products == db.products && db'.records == db.records
    && var row := db'.lists[id];
       && row.user == u && row.contentSeq == Seq(db, u) + 1 && row.version >= 1
       && (id in db.lists ==>
             && db.lists[id].user == u && db.lists[id].createdAt == row.createdAt
             && db.lists[id].version <= row.version && (db.lists[id].deleted ==> row.deleted))
  }

  ghost predicate WritesItem(db: Db, db': Db, u: Id, listId: Id, id: Id) {
    && WritesList(db, db', u, listId)
    && id in db'.items && db'.items == db.items[id := db'.items[id]]
    && var row := db'.items[id];
       && row.user == u && row.listId == listId && row.syncSeq == Seq(db, u) + 1
       && row.version >= 1 && row.thousandths > 0 && row.product.None? != row.freeText.None?
       && (id in db.items ==>
             && db.items[id].user == u && db.items[id].listId == listId
             && db.items[id].product == row.product && db.items[id].freeText == row.freeText
             && db.items[id].version <= row.version && (db.items[id].deleted ==> row.deleted))
       && (id !in db.items ==> |ActiveItems(db.items, listId)| < MAX_ACTIVE_ITEMS)
  }

  lemma {:induction false} ListWriteAdvances(db: Db, db': Db, u: Id, id: Id)
    requires Inv(db) && WritesList(db, db', u, id) && db'.items == db.items
    ensures Advances(db, db')
  {
    forall i | i in db.lists ensures ListAdvances(db, db', i) {
      assert ValidList(db, i);
    }
  }

  lemma {:induction false} ListWriteKeeps(db: Db, db': Db, u: Id, id: Id)
    requires Inv(db) && WritesList(db, db', u, id) && db'.items == db.items
    ensures Inv(db') && Advances(db, db')
  {
    forall i | i in db'.lists ensures ValidList(db', i) {
      if i in db.lists { assert ValidList(db, i); }
    }
    forall i | i in db'.items ensures ValidItem(db', i) {
      assert ValidItem(db, i);
    }
    forall l ensures WithinLimit(db', l) {
      assert WithinLimit(db, l);
    }
    ListWriteAdvances(db, db', u, id);
  }

  lemma {:induction false} ActiveItemsAfterWrite(db: Db, db': Db, u: Id, listId: Id, id: Id, l: Id)
    requires WithinLimit(db, l) && WritesItem(db, db', u, listId, id)
    ensures WithinLimit(db', l)
  {
    var a, b := ActiveItems(db.items, l), ActiveItems(db'.items, l);
    if id in db.items {
      assert b <= a;
      SubsetSize(b, a);
    } else if l == listId {
      assert b <= a + {id};
      SubsetSize(b, a + {id});
    } else {
      assert b == a;
    }
  }

  lemma {:induction false} SubsetSize<T>(a: set<T>, b: set<T>)
    requires a <= b
    ensures |a| <= |b|
  {
    if a != {} {
      var x :| x in a;
      SubsetSize(a - {x}, b - {x});
    }
  }

  lemma {:induction false} ItemWriteKeepsItem(db: Db, db': Db, u: Id, listId: Id, id: Id, i: Id)
    requires Inv(db) && WritesItem(db, db', u, listId, id) && i in db'.items
    ensures ValidItem(db', i)
  {
    if i != id {
      assert ValidItem(db, i) && ValidList(db, db.items[i].listId);
    }
  }

  lemma {:induction false} ItemWriteKeeps(db: Db, db': Db, u: Id, listId: Id, id: Id)
    requires Inv(db) && WritesItem(db, db', u, listId, id)
    ensures Inv(db')
  {
    forall i | i in db'.lists ensures ValidList(db', i) {
      if i in db.lists { assert ValidList(db, i); }
    }
    forall i | i in db'.items ensures ValidItem(db', i) {
      ItemWriteKeepsItem(db, db', u, listId, id, i);
    }
    forall l ensures WithinLimit(db', l) {
      ActiveItemsAfterWrite(db, db', u, listId, id, l);
    }
  }

  lemma {:induction false} ItemWriteAdvances(db: Db, db': Db, u: Id, listId: Id, id: Id)
    requires Inv(db) && WritesItem(db, db', u, listId, id)
    ensures Advances(db, db')
  {
    forall i | i in db.lists ensures ListAdvances(db, db', i) {
      assert ValidList(db, i);
    }
    forall i | i in db.items ensures ItemAdvances(db, db', i) {
      assert ValidItem(db, i) && ValidList(db, db.items[i].listId);
    }
  }

  // ---- Handlers ----

  /** The list a mutation changes, as its sender names it. */
  function TargetList(m: Mutation): Option<Id> {
    if m.ListCreate? || m.ListCopy? then m.id else Some(m.listId)
  }

  function TargetItem(m: Mutation): Option<Id> {
    if m.ItemCreate? then m.id else if m.ItemPatch? then Some(m.itemId) else None
  }

  /** The rows `m` names exist, are the user's, and carry sequence numbers above `c`. */
  ghost predicate Stamped(db: Db, u: Id, m: Mutation, c: nat) {
    && (TargetList(m).Some? ==> OwnsList(db, u, TargetList(m).value) && db.lists[TargetList(m).value].contentSeq > c)
    && (TargetItem(m).Some? ==>
          && TargetItem(m).value in db.items && db.items[TargetItem(m).value].user == u
          && db.items[TargetItem(m).value].syncSeq > c)
  }

  ghost predicate Progress(db: Db, db': Db) {
    Inv(db') && Advances(db, db') && db'.records == db.records
  }

  lemma {:induction false} AddLineWrites(db: Db, u: Id, listId: Id, id: Id, line: MappedLine, position: nat, now: int)
    requires Inv(db) && OwnsList(db, u, listId) && ValidLine(db, id, line)
    requires |ActiveItems(db.items, listId)| < MAX_ACTIVE_ITEMS
    ensures var db' := AddLine(db, u, listId, id, line, position, now);
            && WritesItem(db, db', u, listId, id)
            && db'.lists[listId].contentSeq > db.lists[listId].contentSeq
            && ActiveItems(db'.items, listId) == ActiveItems(db.items, listId) + {id}
  {
    assert ValidList(db, listId);
  }

  lemma {:induction false} OneMoreItem(db: Db, db': Db, u: Id, listId: Id, id: Id)
    requires Inv(db) && WritesItem(db, db', u, listId, id)
    requires ActiveItems(db'.items, listId) == ActiveItems(db.items, listId) + {id} && id !in db.items
    ensures |ActiveItems(db'.items, listId)| == |ActiveItems(db.items, listId)| + 1
  {
    assert id !in ActiveItems(db.items, listId);
  }

  lemma {:induction false} AddLineKeeps(db: Db, u: Id, listId: Id, id: Id, line: MappedLine, position: nat, now: int)
    requires Inv(db) && OwnsList(db, u, listId) && ValidLine(db, id, line)
    requires |ActiveItems(db.items, listId)| < MAX_ACTIVE_ITEMS
    ensures var db' := AddLine(db, u, listId, id, line, position, now);
            && Progress(db, db') && OwnsList(db', u, listId)
            && db'.lists[listId].contentSeq > db.lists[listId].contentSeq
            && |ActiveItems(db'.items, listId)| == |ActiveItems(db.items, listId)| + 1
  {
    var db' := AddLine(db, u, listId, id, line, position, now);
    AddLineWrites(db, u, listId, id, line, position, now);
    ItemWriteProgress(db, db', u, listId, id);
    OneMoreItem(db, db', u, listId, id);
  }

  lemma {:induction false} ItemWriteProgress(db: Db, db': Db, u: Id, listId: Id, id: Id)
    requires Inv(db) && WritesItem(db, db', u, listId, id)
    ensures Progress(db, db') && OwnsList(db', u, listId)
  {
    ItemWriteKeeps(db, db', u, listId, id);
    ItemWriteAdvances(db, db', u, listId, id);
  }

  lemma {:induction false} AddLinesKeeps(db: Db, u: Id, listId: Id, lines: seq<(Id, MappedLine)>, now: int)
    requires Inv(db) && OwnsList(db, u, listId)
    requires |ActiveItems(db.items, listId)| + |lines| <= MAX_ACTIVE_ITEMS
    requires AddLines(db, u, listId, lines, now).Some?
    ensures var db' := AddLines(db, u, listId, lines, now).value;
            && Progress(db, db') && OwnsList(db', u, listId)
            && db'.lists[listId].contentSeq >= db.lists[listId].contentSeq
            && |ActiveItems(db'.items, listId)| == |ActiveItems(db.items, listId)| + |lines|
  {
    if lines != [] {
      var n := |lines| - 1;
      AddLinesKeeps(db, u, listId, lines[..n], now);
      var db1 := AddLines(db, u, listId, lines[..n], now).value;
      AddLineKeeps(db1, u, listId, lines[n].0, lines[n].1, n, now);
      AdvancesTransitive(db, db1, AddLines(db, u, listId, lines, now).value);
    }
  }

  lemma {:induction false} MaterializeKeeps(db: Db, u: Id, name: string, id: Id, env: Env)
    requires Inv(db) && Materialize(db, u, name, id, env).Accepted?
    ensures var db' := Materialize(db, u, name, id, env).db;
            && Progress(db, db') && OwnsList(db', u, id) && db'.lists[id].contentSeq > Seq(db, u)
  {
    var db1 := Bump(db, u);
    var db2 := db1.(lists := db1.lists[id := NewList(u, name, Seq(db1, u), env.now)]);
    ListWriteKeeps(db, db2, u, id);
    forall i | i in db.items ensures db.items[i].listId != id { assert ValidItem(db, i); }
    assert ActiveItems(db2.items, id) == {};
    AddLinesKeeps(db2, u, id, env.copied, env.now);
    AdvancesTransitive(db, db2, Materialize(db, u, name, id, env).db);
  }

  lemma {:induction false} CreateItemWrites(db: Db, u: Id, m: Mutation, env: Env)
    requires Inv(db) && m.ItemCreate? && CreateItem(db, u, m, env).Accepted?
    ensures WritesItem(db, CreateItem(db, u, m, env).db, u, m.listId, m.id.GetOr(env.uuid))
  {
    assert ValidList(db, m.listId);
  }

  lemma {:induction false} PatchItemWrites(db: Db, u: Id, m: Mutation, env: Env)
    requires Inv(db) && m.ItemPatch? && PatchItem(db, u, m, env).Accepted?
    ensures WritesItem(db, PatchItem(db, u, m, env).db, u, m.listId, m.itemId)
  {
    assert ValidList(db, m.listId) && ValidItem(db, m.itemId);
  }

  lemma {:induction false} ItemWriteStamps(db: Db, db': Db, u: Id, m: Mutation, id: Id)
    requires Inv(db) && (m.ItemCreate? || m.ItemPatch?) && WritesItem(db, db', u, m.listId, id)
    requires TargetItem(m).Some? ==> TargetItem(m).value == id
    ensures Progress(db, db') && Stamped(db', u, m, Seq(db, u))
  {
    ItemWriteKeeps(db, db', u, m.listId, id);
    ItemWriteAdvances(db, db', u, m.listId, id);
  }

  lemma {:induction false} CreateListKeeps(db: Db, u: Id, m: Mutation, env: Env)
    requires Inv(db) && m.ListCreate? && CreateList(db, u, m, env).Accepted?
    ensures Progress(db, CreateList(db, u, m, env).db)
    ensures Stamped(CreateList(db, u, m, env).db, u, m, Seq(db, u))
  {
    ListWriteKeeps(db, CreateList(db, u, m, env).db, u, m.id.GetOr(env.uuid));
  }

  lemma {:induction false} PatchListKeeps(db: Db, u: Id, m: Mutation, env: Env)
    requires Inv(db) && m.ListPatch? && PatchList(db, u, m, env).Accepted?
    ensures Progress(db, PatchList(db, u, m, env).db)
    ensures Stamped(PatchList(db, u, m, env).db, u, m, Seq(db, u))
  {
    assert ValidList(db, m.listId);
    ListWriteKeeps(db, PatchList(db, u, m, env).db, u, m.listId);
  }

  lemma {:induction false} CopyListKeeps(db: Db, u: Id, m: Mutation, env: Env)
    requires Inv(db) && m.ListCopy? && CopyList(db, u, m, env).Accepted?
    ensures Progress(db, CopyList(db, u, m, env).db)
    ensures Stamped(CopyList(db, u, m, env).db, u, m, Seq(db, u))
  {
    var name := if m.newName.Some? then Trim(m.newName.value) else db.lists[m.listId].name;
    MaterializeKeeps(db, u, name, m.id.GetOr(env.uuid), env);
  }

  /** Every accepted handler keeps the invariant, moves rows forward only, and stamps what it names
      with a number the account had not used. */
  lemma {:induction false} HandleKeeps(db: Db, u: Id, m: Mutation, env: Env)
    requires Inv(db) && Handle(db, u, m, env).Accepted?
    ensures Progress(db, Handle(db, u, m, env).db)
    ensures Stamped(Handle(db, u, m, env).db, u, m, Seq(db, u))
  {
    var db' := Handle(db, u, m, env).db;
    match m {
      case ListCreate(_, _, _) => CreateListKeeps(db, u, m, env);
      case ListPatch(_, _, _, _, _, _) => PatchListKeeps(db, u, m, env);
      case ItemCreate(_, _, _, _, _, _, _, _, _) =>
        CreateItemWrites(db, u, m, env);
        ItemWriteStamps(db, db', u, m, m.id.GetOr(env.uuid));
      case ItemPatch(_, _, _, _, _, _, _, _, _) =>
        PatchItemWrites(db, u, m, env);
        ItemWriteStamps(db, db', u, m, m.itemId);
      case ListCopy(_, _, _, _, _) => CopyListKeeps(db, u, m, env);
    }
  }

  // ---- Runs ----

  /** A request of any account, as the REST routes and the sync batches issue them. */
  datatype UserCall = UserCall(user: Id, m: Mutation, env: Env)

  ghost function Run(db: Db, calls: seq<UserCall>): Db
    decreases |calls|
  {
    if calls == [] then db
    else Run(After(db, calls[0].user, calls[0].m, calls[0].env), calls[1..])
  }

  lemma {:induction false} RecordingKeeps(db: Db, k: Key, r: Record)
    requires Inv(db)
    ensures Inv(db.(records := db.records[k := r]))
  {
    var db' := db.(records := db.records[k := r]);
    forall id | id in db'.lists ensures ValidList(db', id) { assert ValidList(db, id); }
    forall id | id in db'.items ensures ValidItem(db', id) { assert ValidItem(db, id); }
    forall id ensures WithinLimit(db', id) { assert WithinLimit(db, id); }
  }

  lemma {:induction false} RecordingAdvances(db: Db, k: Key, r: Record)
    requires k !in db.records
    ensures Advances(db, db.(records := db.records[k := r]))
  {
  }

  lemma {:induction false} AfterKeeps(db: Db, u: Id, m: Mutation, env: Env)
    requires Inv(db)
    ensures Inv(After(db, u, m, env)) && Advances(db, After(db, u, m, env))
  {
    if KeyOf(u, m) !in db.records && Handle(db, u, m, env).Accepted? {
      HandleKeeps(db, u, m, env);
      var db1 := Handle(db, u, m, env).db;
      var record := Record(Digest(m), Handle(db, u, m, env).response);
      RecordingKeeps(db1, KeyOf(u, m), record);
      RecordingAdvances(db1, KeyOf(u, m), record);
      AdvancesTransitive(db, db1, After(db, u, m, env));
    }
  }

  lemma {:induction false} RunKeeps(db: Db, calls: seq<UserCall>)
    requires Inv(db)
    ensures Inv(Run(db, calls)) && Advances(db, Run(db, calls))
    decreases |calls|
  {
    if calls != [] {
      var db1 := After(db, calls[0].user, calls[0].m, calls[0].env);
      AfterKeeps(db, calls[0].user, calls[0].m, calls[0].env);
      RunKeeps(db1, calls[1..]);
      AdvancesTransitive(db, db1, Run(db, calls));
    }
  }
}
