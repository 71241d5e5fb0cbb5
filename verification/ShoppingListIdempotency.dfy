/** Idempotency keys, savepoints and optimistic versions over whole runs of the shopping-list server. */
module ShoppingListIdempotency {
  import opened Basics
  import opened ShoppingLists
  import opened ShoppingListLaws

  // ---- One effect per key ----

  /** How many requests with key `k` changed anything at all in the course of a run. */
  ghost function Changes(db: Db, calls: seq<UserCall>, k: Key): nat
    decreases |calls|
  {
    if calls == [] then 0
    else
      var db1 := After(db, calls[0].user, calls[0].m, calls[0].env);
      (if KeyOf(calls[0].user, calls[0].m) == k && db1 != db then 1 else 0) + Changes(db1, calls[1..], k)
  }

  lemma {:induction false} AtMostOnce(db: Db, calls: seq<UserCall>, k: Key)
    requires Inv(db)
    ensures Changes(db, calls, k) <= 1
    ensures k in db.records ==> Changes(db, calls, k) == 0
    ensures k !in db.records ==> (Changes(db, calls, k) == 1 <==> k in Run(db, calls).records)
    decreases |calls|
  {
    if calls != [] {
      var c := calls[0];
      var db1 := After(db, c.user, c.m, c.env);
      AfterKeeps(db, c.user, c.m, c.env);
      AtMostOnce(db1, calls[1..], k);
      RunKeeps(db1, calls[1..]);
      if KeyOf(c.user, c.m) !in db.records && Handle(db, c.user, c.m, c.env).Accepted? {
        HandleKeeps(db, c.user, c.m, c.env);
      }
    }
  }

  // ---- Resending a batch ----

  ghost predicate Recorded(db: Db, u: Id, m: Mutation) {
    KeyOf(u, m) in db.records && db.records[KeyOf(u, m)].digest == Digest(m)
  }

  ghost predicate SameMutations(a: seq<Call>, b: seq<Call>) {
    |a| == |b| && forall i :: 0 <= i < |a| ==> a[i].m == b[i].m
  }

  lemma {:induction false} BatchKeeps(db: Db, u: Id, calls: seq<Call>)
    requires Inv(db)
    ensures Inv(ApplyBatch(db, u, calls).0) && Advances(db, ApplyBatch(db, u, calls).0)
    decreases |calls|
  {
    if calls != [] {
      var db1 := After(db, u, calls[0].m, calls[0].env);
      AfterKeeps(db, u, calls[0].m, calls[0].env);
      BatchKeeps(db1, u, calls[1..]);
      AdvancesTransitive(db, db1, ApplyBatch(db, u, calls).0);
    }
  }

  lemma {:induction false} AcceptedFirstIsRecorded(db: Db, u: Id, m: Mutation, env: Env)
    requires Inv(db) && Apply(db, u, m, env).Accepted?
    ensures Recorded(After(db, u, m, env), u, m)
  {
  }

  lemma {:induction false} StaysRecorded(db: Db, db': Db, u: Id, m: Mutation)
    requires Advances(db, db') && Recorded(db, u, m)
    ensures Recorded(db', u, m)
  {
  }

  ghost predicate AllRecorded(db: Db, u: Id, calls: seq<Call>) {
    forall i :: 0 <= i < |calls| ==> Recorded(db, u, calls[i].m)
  }

  lemma {:induction false} RecordedCons(db: Db, u: Id, calls: seq<Call>)
    requires calls != [] && Recorded(db, u, calls[0].m) && AllRecorded(db, u, calls[1..])
    ensures AllRecorded(db, u, calls)
  {
    forall i | 0 <= i < |calls| ensures Recorded(db, u, calls[i].m) {
      if i > 0 { assert calls[i] == calls[1..][i - 1]; }
    }
  }

  lemma {:induction false} AcceptedBatchIsRecorded(db: Db, u: Id, calls: seq<Call>)
    requires Inv(db) && ApplyBatch(db, u, calls).1 == []
    ensures AllRecorded(ApplyBatch(db, u, calls).0, u, calls)
    decreases |calls|
  {
    if calls != [] {
      var first, rest := calls[0], calls[1..];
      var db1 := After(db, u, first.m, first.env);
      AfterKeeps(db, u, first.m, first.env);
      AcceptedBatchIsRecorded(db1, u, rest);
      BatchKeeps(db1, u, rest);
      AcceptedFirstIsRecorded(db, u, first.m, first.env);
      StaysRecorded(db1, ApplyBatch(db1, u, rest).0, u, first.m);
      RecordedCons(ApplyBatch(db, u, calls).0, u, calls);
    }
  }

  lemma {:induction false} RecordedBatchReplays(db: Db, u: Id, calls: seq<Call>)
    requires forall i :: 0 <= i < |calls| ==> Recorded(db, u, calls[i].m)
    ensures ApplyBatch(db, u, calls) == (db, [])
    decreases |calls|
  {
    if calls != [] {
      assert Recorded(db, u, calls[0].m);
      RecordedBatchReplays(db, u, calls[1..]);
    }
  }

  /** A fully accepted batch that is sent again, at any later time and after anything other devices
      did in between, is accepted again and changes no list, item, version, sequence or record. */
  lemma {:induction false} ResendChangesNothing(db: Db, u: Id, calls: seq<Call>, between: seq<UserCall>, again: seq<Call>)
    requires Inv(db) && ApplyBatch(db, u, calls).1 == []
    requires SameMutations(calls, again)
    ensures var later := Run(ApplyBatch(db, u, calls).0, between);
            ApplyBatch(later, u, again) == (later, [])
  {
    var db1 := ApplyBatch(db, u, calls).0;
    var later := Run(db1, between);
    BatchKeeps(db, u, calls);
    RunKeeps(db1, between);
    AcceptedBatchIsRecorded(db, u, calls);
    forall i | 0 <= i < |again| ensures Recorded(later, u, again[i].m) {
      assert Recorded(db1, u, calls[i].m);
    }
    RecordedBatchReplays(later, u, again);
  }

  // ---- Rejected mutations leave no trace ----

  /** The mutations of a batch that were not rejected, in order. */
  ghost function AcceptedCalls(db: Db, u: Id, calls: seq<Call>): seq<Call>
    decreases |calls|
  {
    if calls == [] then []
    else
      var rest := AcceptedCalls(After(db, u, calls[0].m, calls[0].env), u, calls[1..]);
      if Apply(db, u, calls[0].m, calls[0].env).Accepted? then [calls[0]] + rest else rest
  }

  lemma {:induction false} RejectedLeaveNoTrace(db: Db, u: Id, calls: seq<Call>)
    ensures ApplyBatch(db, u, AcceptedCalls(db, u, calls)) == (ApplyBatch(db, u, calls).0, [])
    ensures |AcceptedCalls(db, u, calls)| + |ApplyBatch(db, u, calls).1| == |calls|
    decreases |calls|
  {
    if calls != [] {
      var db1 := After(db, u, calls[0].m, calls[0].env);
      RejectedLeaveNoTrace(db1, u, calls[1..]);
      if Apply(db, u, calls[0].m, calls[0].env).Accepted? {
        var kept := AcceptedCalls(db, u, calls);
        assert kept[0] == calls[0] && kept[1..] == AcceptedCalls(db1, u, calls[1..]);
      }
    }
  }

  // ---- Optimistic versions ----

  lemma {:induction false} StaleItemPatchRejected(db: Db, u: Id, q: Mutation, env: Env)
    requires q.ItemPatch? && q.itemId in db.items && q.expectedVersion < db.items[q.itemId].version
    ensures Handle(db, u, q, env).Rejected? && After(db, u, q, env) == db
  {
    assert PatchItemError(db, u, q).Some?;
  }

  /** After an item patch is applied, no later patch with the same expected version is ever applied
      to that item again, whatever happens in between. */
  lemma {:induction false} SameVersionItemPatches(db: Db, u: Id, p: Mutation, q: Mutation, env: Env, between: seq<UserCall>, env': Env)
    requires Inv(db) && p.ItemPatch? && q.ItemPatch?
    requires p.itemId == q.itemId && p.expectedVersion == q.expectedVersion
    requires KeyOf(u, p) !in db.records && Apply(db, u, p, env).Accepted?
    ensures var later := Run(After(db, u, p, env), between);
            Handle(later, u, q, env').Rejected? && After(later, u, q, env') == later
  {
    var db1 := After(db, u, p, env);
    AfterKeeps(db, u, p, env);
    RunKeeps(db1, between);
    AcceptedItemPatchBumps(db, u, p, env);
    assert ItemAdvances(db1, Run(db1, between), p.itemId);
    StaleItemPatchRejected(Run(db1, between), u, q, env');
  }

  lemma {:induction false} StaleListPatchRejected(db: Db, u: Id, q: Mutation, env: Env)
    requires q.ListPatch? && q.listId in db.lists && q.expectedVersion < db.lists[q.listId].version
    ensures Handle(db, u, q, env).Rejected? && After(db, u, q, env) == db
  {
  }

  lemma {:induction false} AcceptedListPatchBumps(db: Db, u: Id, p: Mutation, env: Env)
    requires p.ListPatch? && KeyOf(u, p) !in db.records && Apply(db, u, p, env).Accepted?
    ensures p.listId in After(db, u, p, env).lists && After(db, u, p, env).lists[p.listId].version == p.expectedVersion + 1
  {
  }

  lemma {:induction false} AcceptedItemPatchBumps(db: Db, u: Id, p: Mutation, env: Env)
    requires p.ItemPatch? && KeyOf(u, p) !in db.records && Apply(db, u, p, env).Accepted?
    ensures p.itemId in After(db, u, p, env).items && After(db, u, p, env).items[p.itemId].version == p.expectedVersion + 1
  {
  }

  lemma {:induction false} SameVersionListPatches(db: Db, u: Id, p: Mutation, q: Mutation, env: Env, between: seq<UserCall>, env': Env)
    requires Inv(db) && p.ListPatch? && q.ListPatch?
    requires p.listId == q.listId && p.expectedVersion == q.expectedVersion
    requires KeyOf(u, p) !in db.records && Apply(db, u, p, env).Accepted?
    ensures var later := Run(After(db, u, p, env), between);
            Handle(later, u, q, env').Rejected? && After(later, u, q, env') == later
  {
    var db1 := After(db, u, p, env);
    AfterKeeps(db, u, p, env);
    RunKeeps(db1, between);
    AcceptedListPatchBumps(db, u, p, env);
    assert ListAdvances(db1, Run(db1, between), p.listId);
    StaleListPatchRejected(Run(db1, between), u, q, env');
  }

  /** A deleted row is never revived, and a row that was once written is never removed. */
  lemma {:induction false} DeletionIsFinal(db: Db, calls: seq<UserCall>, id: Id)
    requires Inv(db)
    ensures id in db.lists ==> id in Run(db, calls).lists && (db.lists[id].deleted ==> Run(db, calls).lists[id].deleted)
    ensures id in db.items ==> id in Run(db, calls).items && (db.items[id].deleted ==> Run(db, calls).items[id].deleted)
  {
    RunKeeps(db, calls);
    if id in db.lists { assert ListAdvances(db, Run(db, calls), id); }
    if id in db.items { assert ItemAdvances(db, Run(db, calls), id); }
  }

  // ---- Accounts are separate ----

  /** Nothing that belongs to account `u` differs. */
  ghost predicate SameFor(db: Db, db': Db, u: Id) {
    && Seq(db, u) == Seq(db', u)
    && (forall id :: SameList(db, db', u, id))
    && (forall id :: SameItem(db, db', u, id))
  }

  ghost predicate SameList(db: Db, db': Db, u: Id, id: Id) {
    && (OwnsList(db, u, id) <==> OwnsList(db', u, id))
    && (OwnsList(db, u, id) ==> db.lists[id] == db'.lists[id])
  }

  ghost predicate SameItem(db: Db, db': Db, u: Id, id: Id) {
    && (id in db.items && db.items[id].user == u <==> id in db'.items && db'.items[id].user == u)
    && (id in db.items && db.items[id].user == u ==> db'.items[id] == db.items[id])
  }

  lemma {:induction false} SameForTransitive(a: Db, b: Db, c: Db, u: Id)
    requires SameFor(a, b, u) && SameFor(b, c, u)
    ensures SameFor(a, c, u)
  {
    forall id ensures SameList(a, c, u, id) { assert SameList(a, b, u, id) && SameList(b, c, u, id); }
    forall id ensures SameItem(a, c, u, id) { assert SameItem(a, b, u, id) && SameItem(b, c, u, id); }
  }

  lemma {:induction false} AddLineSameFor(db: Db, v: Id, listId: Id, id: Id, line: MappedLine, position: nat, now: int, u: Id)
    requires u != v && OwnsList(db, v, listId) && ValidLine(db, id, line)
    ensures SameFor(db, AddLine(db, v, listId, id, line, position, now), u)
    ensures OwnsList(AddLine(db, v, listId, id, line, position, now), v, listId)
  {
    OneWriteSameFor(db, AddLine(db, v, listId, id, line, position, now), v, listId, Some(id), u);
  }

  lemma {:induction false} AddLinesSameFor(db: Db, v: Id, listId: Id, lines: seq<(Id, MappedLine)>, now: int, u: Id)
    requires u != v && OwnsList(db, v, listId) && AddLines(db, v, listId, lines, now).Some?
    ensures SameFor(db, AddLines(db, v, listId, lines, now).value, u)
    ensures OwnsList(AddLines(db, v, listId, lines, now).value, v, listId)
  {
    if lines != [] {
      var n := |lines| - 1;
      AddLinesSameFor(db, v, listId, lines[..n], now, u);
      var db1 := AddLines(db, v, listId, lines[..n], now).value;
      AddLineSameFor(db1, v, listId, lines[n].0, lines[n].1, n, now, u);
      SameForTransitive(db, db1, AddLines(db, v, listId, lines, now).value, u);
    }
  }

  lemma {:induction false} OneWriteSameFor(db: Db, db': Db, v: Id, listId: Id, item: Option<Id>, u: Id)
    requires u != v && db'.sequence == db.sequence[v := Seq(db, v) + 1]
    requires listId in db'.lists && db'.lists == db.lists[listId := db'.lists[listId]] && db'.lists[listId].user == v
    requires listId in db.lists ==> db.lists[listId].user == v
    requires item.None? ==> db'.items == db.items
    requires item.Some? ==> item.value in db'.items && db'.items == db.items[item.value := db'.items[item.value]]
    requires item.Some? ==> db'.items[item.value].user == v && (item.value in db.items ==> db.items[item.value].user == v)
    ensures SameFor(db, db', u)
  {
  }

  lemma {:induction false} CopySameFor(db: Db, v: Id, m: Mutation, env: Env, u: Id)
    requires u != v && m.ListCopy? && Handle(db, v, m, env).Accepted?
    ensures SameFor(db, Handle(db, v, m, env).db, u)
  {
    var name := if m.newName.Some? then Trim(m.newName.value) else db.lists[m.listId].name;
    var id := m.id.GetOr(env.uuid);
    var db1 := Bump(db, v);
    var db2 := db1.(lists := db1.lists[id := NewList(v, name, Seq(db1, v), env.now)]);
    OneWriteSameFor(db, db2, v, id, None, u);
    AddLinesSameFor(db2, v, id, env.copied, env.now, u);
    SameForTransitive(db, db2, Handle(db, v, m, env).db, u);
  }

  lemma {:induction false} HandleSameFor(db: Db, v: Id, m: Mutation, env: Env, u: Id)
    requires u != v && Handle(db, v, m, env).Accepted?
    ensures SameFor(db, Handle(db, v, m, env).db, u)
  {
    var db' := Handle(db, v, m, env).db;
    match m {
      case ListCreate(_, _, _) => OneWriteSameFor(db, db', v, m.id.GetOr(env.uuid), None, u);
      case ListPatch(_, _, _, _, _, _) => OneWriteSameFor(db, db', v, m.listId, None, u);
      case ItemCreate(_, _, _, _, _, _, _, _, _) =>
        OneWriteSameFor(db, db', v, m.listId, Some(m.id.GetOr(env.uuid)), u);
      case ItemPatch(_, _, _, _, _, _, _, _, _) => OneWriteSameFor(db, db', v, m.listId, Some(m.itemId), u);
      case ListCopy(_, _, _, _, _) => CopySameFor(db, v, m, env, u);
    }
  }

  lemma {:induction false} AfterSameFor(db: Db, v: Id, m: Mutation, env: Env, u: Id)
    requires u != v
    ensures SameFor(db, After(db, v, m, env), u)
  {
    if KeyOf(v, m) !in db.records && Handle(db, v, m, env).Accepted? {
      HandleSameFor(db, v, m, env, u);
      var db1 := Handle(db, v, m, env).db;
      forall id ensures SameList(db, After(db, v, m, env), u, id) { assert SameList(db, db1, u, id); }
      forall id ensures SameItem(db, After(db, v, m, env), u, id) { assert SameItem(db, db1, u, id); }
    }
  }

  /** Requests of other accounts, whatever ids they carry, leave every row and the sequence of this account as they are. */
  lemma {:induction false} AccountsAreSeparate(db: Db, calls: seq<UserCall>, u: Id)
    requires forall i :: 0 <= i < |calls| ==> calls[i].user != u
    ensures SameFor(db, Run(db, calls), u)
    decreases |calls|
  {
    if calls != [] {
      var c := calls[0];
      var db1 := After(db, c.user, c.m, c.env);
      AfterSameFor(db, c.user, c.m, c.env, u);
      AccountsAreSeparate(db1, calls[1..], u);
      SameForTransitive(db, db1, Run(db, calls), u);
    }
  }
}
