/** Which migration a database without a version table has reached, judged by its tables and columns. */
module SchemaDetection {
  import opened Basics

  /** The columns of one table, as a revision declares them. */
  datatype Declared = Declared(table: string, columns: seq<string>)

  datatype Revision = Revision(name: string, tables: seq<Declared>)

  datatype Object = Table(name: string) | Column(table: string, name: string)

  /** The tables that exist, with their columns. */
  type Schema = map<string, set<string>>

  datatype Detection = Verified(latest: Option<string>) | MissingEarlier(revision: string) | Partial(revision: string)

  predicate Exists(schema: Schema, o: Object) {
    match o
    case Table(t) => t in schema
    case Column(t, c) => t in schema && c in schema[t]
  }

  // ---- What a revision declares ----

  ghost predicate DistinctNames(revisions: seq<Revision>) {
    forall i, j :: 0 <= i < j < |revisions| ==> revisions[i].name != revisions[j].name
  }

  function TablesOf(tables: seq<Declared>): set<string> {
    set i | 0 <= i < |tables| :: tables[i].table
  }

  /** All tables the revisions before `n` mention. */
  function Earlier(revisions: seq<Revision>, n: nat): set<string>
    requires n <= |revisions|
  {
    if n == 0 then {} else Earlier(revisions, n - 1) + TablesOf(revisions[n - 1].tables)
  }

  /** The tables revision `n` itself creates; the others it only adds columns to. */
  function Introduced(revisions: seq<Revision>, n: nat): set<string>
    requires n < |revisions|
  {
    TablesOf(revisions[n].tables) - Earlier(revisions, n)
  }

  function Columns(table: string, columns: seq<string>): seq<Object> {
    seq(|columns|, i requires 0 <= i < |columns| => Column(table, columns[i]))
  }

  function DeclaredObjects(d: Declared, introduced: set<string>): seq<Object> {
    (if d.table in introduced then [Table(d.table)] else []) + Columns(d.table, d.columns)
  }

  function Objects(tables: seq<Declared>, introduced: set<string>): seq<Object> {
    if tables == [] then [] else Objects(tables[..|tables| - 1], introduced) + DeclaredObjects(tables[|tables| - 1], introduced)
  }

  function SchemaObjects(revisions: seq<Revision>, n: nat): seq<Object>
    requires n < |revisions|
  {
    Objects(revisions[n].tables, Introduced(revisions, n))
  }

  function Absent(schema: Schema, objects: seq<Object>): seq<Object> {
    if objects == [] then []
    else
      var last := objects[|objects| - 1];
      Absent(schema, objects[..|objects| - 1]) + (if Exists(schema, last) then [] else [last])
  }

  lemma {:induction false} AbsentJoins(schema: Schema, a: seq<Object>, b: seq<Object>)
    ensures Absent(schema, a + b) == Absent(schema, a) + Absent(schema, b)
  {
    if b == [] {
      assert a + b == a;
    } else {
      assert (a + b)[..|a + b| - 1] == a + b[..|b| - 1];
      AbsentJoins(schema, a, b[..|b| - 1]);
    }
  }

  lemma {:induction false} AbsentAll(schema: Schema, objects: seq<Object>)
    requires forall o :: o in objects ==> !Exists(schema, o)
    ensures Absent(schema, objects) == objects
  {
    if objects != [] {
      assert objects == objects[..|objects| - 1] + [objects[|objects| - 1]];
      AbsentAll(schema, objects[..|objects| - 1]);
    }
  }

  lemma {:induction false} AbsentCounts(schema: Schema, objects: seq<Object>)
    ensures |Absent(schema, objects)| <= |objects|
    ensures Absent(schema, objects) == [] <==> forall o :: o in objects ==> Exists(schema, o)
    ensures |Absent(schema, objects)| == |objects| <==> forall o :: o in objects ==> !Exists(schema, o)
  {
    if objects != [] {
      AbsentCounts(schema, objects[..|objects| - 1]);
      assert objects == objects[..|objects| - 1] + [objects[|objects| - 1]];
      assert forall o :: o in objects <==> o in objects[..|objects| - 1] || o == objects[|objects| - 1];
    }
  }

  // ---- What a revision declares, by itself ----

  ghost predicate Mentions(r: Revision, table: string) {
    exists i :: 0 <= i < |r.tables| && r.tables[i].table == table
  }

  /** A revision declares the tables that it is the first to mention, and every column it lists. */
  ghost predicate Declares(revisions: seq<Revision>, n: nat, o: Object)
    requires n < |revisions|
  {
    match o
    case Table(t) => Mentions(revisions[n], t) && forall m :: 0 <= m < n ==> !Mentions(revisions[m], t)
    case Column(t, c) =>
      exists i :: 0 <= i < |revisions[n].tables| && revisions[n].tables[i].table == t && c in revisions[n].tables[i].columns
  }

  lemma {:induction false} EarlierMentions(revisions: seq<Revision>, n: nat, t: string)
    requires n <= |revisions|
    ensures t in Earlier(revisions, n) <==> exists m :: 0 <= m < n && Mentions(revisions[m], t)
  {
    if n > 0 {
      EarlierMentions(revisions, n - 1, t);
      assert t in TablesOf(revisions[n - 1].tables) <==> Mentions(revisions[n - 1], t);
    }
  }

  predicate DeclaredBy(d: Declared, introduced: set<string>, o: Object) {
    match o
    case Table(t) => t == d.table && t in introduced
    case Column(t, c) => t == d.table && c in d.columns
  }

  lemma {:induction false} DeclaredObjectsAre(d: Declared, introduced: set<string>, o: Object)
    ensures o in DeclaredObjects(d, introduced) <==> DeclaredBy(d, introduced, o)
  {
    var own, columns := if d.table in introduced then [Table(d.table)] else [], Columns(d.table, d.columns);
    assert o in own + columns <==> o in own || o in columns;
    if o.Column? && DeclaredBy(d, introduced, o) {
      var i :| 0 <= i < |d.columns| && d.columns[i] == o.name;
      assert columns[i] == o;
    }
  }

  lemma {:induction false} ObjectsAre(tables: seq<Declared>, introduced: set<string>, o: Object)
    ensures o in Objects(tables, introduced) <==> exists i :: 0 <= i < |tables| && DeclaredBy(tables[i], introduced, o)
  {
    if tables != [] {
      var rest, last := tables[..|tables| - 1], tables[|tables| - 1];
      ObjectsAre(rest, introduced, o);
      DeclaredObjectsAre(last, introduced, o);
      assert o in Objects(tables, introduced) <==> o in Objects(rest, introduced) || o in DeclaredObjects(last, introduced);
      assert forall i :: 0 <= i < |rest| ==> rest[i] == tables[i];
      if DeclaredBy(last, introduced, o) { assert DeclaredBy(tables[|tables| - 1], introduced, o); }
    }
  }

  lemma {:induction false} ObjectsAreDeclared(revisions: seq<Revision>, n: nat, o: Object)
    requires n < |revisions|
    ensures o in SchemaObjects(revisions, n) <==> Declares(revisions, n, o)
  {
    var tables, introduced := revisions[n].tables, Introduced(revisions, n);
    ObjectsAre(tables, introduced, o);
    match o
    case Table(t) =>
      EarlierMentions(revisions, n, t);
      assert t in introduced <==> Mentions(revisions[n], t) && t !in Earlier(revisions, n);
      if Declares(revisions, n, o) {
        var i :| 0 <= i < |tables| && tables[i].table == t;
        assert DeclaredBy(tables[i], introduced, o);
      }
    case Column(t, c) =>
      if Declares(revisions, n, o) {
        var i :| 0 <= i < |tables| && tables[i].table == t && c in tables[i].columns;
        assert DeclaredBy(tables[i], introduced, o);
      }
  }

  // ---- The loops over a revision ----

  method IntroducedTables(revisions: seq<Revision>, n: nat) returns (introduced: set<string>)
    requires n < |revisions|
    requires DistinctNames(revisions)
    ensures introduced == Introduced(revisions, n)
  {
    var earlier: set<string> := {};
    for i := 0 to |revisions|
      invariant i <= n && earlier == Earlier(revisions, i)
    {
      if revisions[i].name == revisions[n].name { return TablesOf(revisions[n].tables) - earlier; }
      earlier := earlier + TablesOf(revisions[i].tables);
    }
  }

  method CollectObjects(revisions: seq<Revision>, n: nat) returns (objects: seq<Object>)
    requires n < |revisions|
    requires DistinctNames(revisions)
    ensures objects == SchemaObjects(revisions, n)
  {
    var introduced := IntroducedTables(revisions, n);
    var tables := revisions[n].tables;
    objects := [];
    for i := 0 to |tables|
      invariant objects == Objects(tables[..i], introduced)
    {
      assert tables[..i + 1][..i] == tables[..i];
      ghost var before := objects;
      if tables[i].table in introduced { objects := objects + [Table(tables[i].table)]; }
      objects := objects + Columns(tables[i].table, tables[i].columns);
      assert objects == before + DeclaredObjects(tables[i], introduced);
    }
    assert tables[..|tables|] == tables;
  }

  method MissingColumns(table: string, columns: seq<string>, existing: set<string>) returns (missing: seq<Object>)
    ensures forall schema: Schema :: table in schema && schema[table] == existing ==>
      missing == Absent(schema, Columns(table, columns))
  {
    missing := [];
    for i := 0 to |columns|
      invariant forall schema: Schema :: table in schema && schema[table] == existing ==>
        missing == Absent(schema, Columns(table, columns[..i]))
    {
      assert Columns(table, columns[..i + 1])[..i] == Columns(table, columns[..i]);
      if columns[i] !in existing { missing := missing + [Column(table, columns[i])]; }
    }
    assert columns[..|columns|] == columns;
  }

  method MissingOf(d: Declared, introduced: set<string>, schema: Schema) returns (missing: seq<Object>)
    ensures missing == Absent(schema, DeclaredObjects(d, introduced))
  {
    if d.table !in schema {
      AbsentAll(schema, DeclaredObjects(d, introduced));
      return (if d.table in introduced then [Table(d.table)] else []) + Columns(d.table, d.columns);
    }
    missing := MissingColumns(d.table, d.columns, schema[d.table]);
    AbsentJoins(schema, if d.table in introduced then [Table(d.table)] else [], Columns(d.table, d.columns));
  }

  method MissingSchemaObjects(revisions: seq<Revision>, n: nat, schema: Schema) returns (missing: seq<Object>)
    requires n < |revisions|
    requires DistinctNames(revisions)
    ensures missing == Absent(schema, SchemaObjects(revisions, n))
  {
    var introduced := IntroducedTables(revisions, n);
    var tables := revisions[n].tables;
    missing := [];
    for i := 0 to |tables|
      invariant missing == Absent(schema, Objects(tables[..i], introduced))
    {
      assert tables[..i + 1][..i] == tables[..i];
      AbsentJoins(schema, Objects(tables[..i], introduced), DeclaredObjects(tables[i], introduced));
      var more := MissingOf(tables[i], introduced, schema);
      missing := missing + more;
    }
    assert tables[..|tables|] == tables;
  }

  // ---- Detection ----

  ghost predicate AllExist(revisions: seq<Revision>, schema: Schema, n: nat)
    requires n < |revisions|
  {
    forall o :: Declares(revisions, n, o) ==> Exists(schema, o)
  }

  ghost predicate NoneExists(revisions: seq<Revision>, schema: Schema, n: nat)
    requires n < |revisions|
  {
    (exists o :: Declares(revisions, n, o)) && forall o :: Declares(revisions, n, o) ==> !Exists(schema, o)
  }

  /** Exactly the first `k` revisions are there, and nothing of the others. */
  ghost predicate IsAt(revisions: seq<Revision>, schema: Schema, k: nat) {
    && k <= |revisions|
    && (forall i :: 0 <= i < k ==> AllExist(revisions, schema, i))
    && forall i :: k <= i < |revisions| ==> NoneExists(revisions, schema, i)
  }

  lemma {:induction false} AllOrNone(revisions: seq<Revision>, schema: Schema, n: nat)
    requires n < |revisions|
    ensures NoneExists(revisions, schema, n) ==> !AllExist(revisions, schema, n)
  {
    if NoneExists(revisions, schema, n) { var o :| Declares(revisions, n, o); }
  }

  ghost predicate Somewhere(revisions: seq<Revision>, schema: Schema) {
    exists k :: IsAt(revisions, schema, k)
  }

  /** The answer is right: a revision is detected exactly when everything up to it exists and nothing after
      it does, none exactly when nothing exists at all, and a refusal names the revision to blame. */
  ghost predicate IsRight(revisions: seq<Revision>, schema: Schema, d: Detection) {
    match d
    case Verified(None) => IsAt(revisions, schema, 0)
    case Verified(Some(name)) =>
      exists k :: 0 < k <= |revisions| && IsAt(revisions, schema, k) && revisions[k - 1].name == name
    case MissingEarlier(name) =>
      && !Somewhere(revisions, schema)
      && exists i, j :: 0 <= i < j < |revisions| && revisions[j].name == name
                        && AllExist(revisions, schema, j) && !AllExist(revisions, schema, i)
    case Partial(name) =>
      && !Somewhere(revisions, schema)
      && exists i :: 0 <= i < |revisions| && revisions[i].name == name
                     && !AllExist(revisions, schema, i) && !NoneExists(revisions, schema, i)
  }

  lemma {:induction false} GapIsRight(revisions: seq<Revision>, schema: Schema, i: nat, j: nat)
    requires i <= j < |revisions| && AllExist(revisions, schema, j) && !AllExist(revisions, schema, i)
    ensures IsRight(revisions, schema, MissingEarlier(revisions[j].name))
  {
    AllOrNone(revisions, schema, j);
  }

  lemma {:induction false} PartialIsRight(revisions: seq<Revision>, schema: Schema, i: nat)
    requires i < |revisions| && !AllExist(revisions, schema, i) && !NoneExists(revisions, schema, i)
    ensures IsRight(revisions, schema, Partial(revisions[i].name))
  {
  }

  lemma {:induction false} PlaceIsRight(revisions: seq<Revision>, schema: Schema, k: nat)
    requires IsAt(revisions, schema, k)
    ensures IsRight(revisions, schema, Verified(if k == 0 then None else Some(revisions[k - 1].name)))
  {
  }

  lemma {:induction false} MissingMeans(revisions: seq<Revision>, schema: Schema, n: nat, missing: seq<Object>)
    requires n < |revisions| && missing == Absent(schema, SchemaObjects(revisions, n))
    ensures missing == [] <==> AllExist(revisions, schema, n)
    ensures missing != [] && |missing| == |SchemaObjects(revisions, n)| <==> NoneExists(revisions, schema, n)
    ensures |missing| <= |SchemaObjects(revisions, n)|
  {
    var objects := SchemaObjects(revisions, n);
    AbsentCounts(schema, objects);
    forall o ensures o in objects <==> Declares(revisions, n, o) { ObjectsAreDeclared(revisions, n, o); }
    if objects != [] { assert objects[0] in objects; }
  }

  method AllMissing(revisions: seq<Revision>, schema: Schema) returns (missing: seq<seq<Object>>)
    requires DistinctNames(revisions)
    ensures Lacks(revisions, schema, missing)
  {
    missing := [];
    for i := 0 to |revisions|
      invariant |missing| == i && forall k :: 0 <= k < i ==> missing[k] == Absent(schema, SchemaObjects(revisions, k))
    {
      var m := MissingSchemaObjects(revisions, i, schema);
      missing := missing + [m];
    }
  }

  /** `missing[k]` is what revision `k` lacks. */
  ghost predicate Lacks(revisions: seq<Revision>, schema: Schema, missing: seq<seq<Object>>) {
    |missing| == |revisions| && forall k :: 0 <= k < |missing| ==> missing[k] == Absent(schema, SchemaObjects(revisions, k))
  }

  method VerifiedPrefix(revisions: seq<Revision>, schema: Schema, missing: seq<seq<Object>>) returns (verified: nat)
    requires Lacks(revisions, schema, missing)
    ensures verified <= |revisions| && forall k :: 0 <= k < verified ==> AllExist(revisions, schema, k)
    ensures verified < |revisions| ==> !AllExist(revisions, schema, verified)
  {
    verified := 0;
    while verified < |revisions|
      invariant verified <= |revisions| && forall k :: 0 <= k < verified ==> AllExist(revisions, schema, k)
    {
      MissingMeans(revisions, schema, verified, missing[verified]);
      if missing[verified] != [] { break; }
      verified := verified + 1;
    }
  }

  ghost predicate NoneFrom(revisions: seq<Revision>, schema: Schema, k: nat, n: nat)
    requires n <= |revisions|
  {
    forall i :: k <= i < n ==> NoneExists(revisions, schema, i)
  }

  lemma {:induction false} NoneFromNext(revisions: seq<Revision>, schema: Schema, k: nat, n: nat)
    requires n < |revisions| && NoneFrom(revisions, schema, k, n) && NoneExists(revisions, schema, n)
    ensures NoneFrom(revisions, schema, k, n + 1)
  {
  }

  method CheckLater(revisions: seq<Revision>, schema: Schema, missing: seq<seq<Object>>, verified: nat) returns (refused: Option<Detection>)
    requires DistinctNames(revisions)
    requires Lacks(revisions, schema, missing)
    requires verified <= |revisions| && (verified < |revisions| ==> !AllExist(revisions, schema, verified))
    ensures refused.None? ==> NoneFrom(revisions, schema, verified, |revisions|)
    ensures refused.Some? ==> IsRight(revisions, schema, refused.value)
  {
    for i := verified to |revisions|
      invariant NoneFrom(revisions, schema, verified, i)
    {
      refused := CheckOne(revisions, schema, missing[i], verified, i);
      if refused.Some? { return; }
      NoneFromNext(revisions, schema, verified, i);
    }
    return None;
  }

  method CheckOne(revisions: seq<Revision>, schema: Schema, missing: seq<Object>, verified: nat, i: nat) returns (refused: Option<Detection>)
    requires DistinctNames(revisions)
    requires verified <= i < |revisions| && !AllExist(revisions, schema, verified) && missing == Absent(schema, SchemaObjects(revisions, i))
    ensures refused.None? ==> NoneExists(revisions, schema, i)
    ensures refused.Some? ==> IsRight(revisions, schema, refused.value)
  {
    MissingMeans(revisions, schema, i, missing);
    if missing == [] {
      GapIsRight(revisions, schema, verified, i);
      return Some(MissingEarlier(revisions[i].name));
    }
    var objects := CollectObjects(revisions, i);
    if |missing| < |objects| {
      PartialIsRight(revisions, schema, i);
      return Some(Partial(revisions[i].name));
    }
    return None;
  }

  method DetectSchemaRevision(revisions: seq<Revision>, schema: Schema) returns (d: Detection)
    requires DistinctNames(revisions)
    ensures IsRight(revisions, schema, d)
  {
    var missing := AllMissing(revisions, schema);
    var verified := VerifiedPrefix(revisions, schema, missing);
    var refused := CheckLater(revisions, schema, missing, verified);
    if refused.Some? { return refused.value; }
    PlaceIsRight(revisions, schema, verified);
    return Verified(if verified == 0 then None else Some(revisions[verified - 1].name));
  }

  /** A schema is at one place only, so the detected revision is the only one it could be. */
  lemma {:induction false} PlaceIsUnique(revisions: seq<Revision>, schema: Schema, k: nat, l: nat)
    requires IsAt(revisions, schema, k) && IsAt(revisions, schema, l)
    ensures k == l
  {
    if k < l { AllOrNone(revisions, schema, k); }
    if l < k { AllOrNone(revisions, schema, l); }
  }
}
