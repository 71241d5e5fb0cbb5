/** The private catalog built from an owner's confirmed receipt lines, and what running it again does. */
module CatalogBackfill {
  import opened Basics

  /** A confirmed line with its owner; `text` is the normalised form of `raw`. */
  datatype Line = Line(user: Id, store: Option<Id>, date: Option<int>, product: Option<Id>, raw: string, text: string)

  /** What a product is drafted for: a match inherited from the shared catalog, or a bare text. */
  datatype DraftKey = Matched(user: Id, product: Id) | TextOnly(user: Id, text: string)

  datatype AliasKey = AliasKey(user: Id, text: string, context: Option<Id>)

  datatype Alias = Alias(key: AliasKey, raw: string)

  datatype Draft = Draft(key: DraftKey, name: string, nameAt: Option<int>, count: nat, last: Option<int>,
                         aliases: seq<Alias>)

  datatype Product = Product(user: Id, legacy: Option<Id>, name: string, count: nat, last: Option<int>)

  datatype AliasRow = AliasRow(product: Id, raw: string)

  datatype Tables = Tables(products: map<Id, Product>, aliases: map<AliasKey, AliasRow>)

  // ---- Drafts ----

  function KeyOf(l: Line): DraftKey {
    match l.product
    case Some(p) => Matched(l.user, p)
    case None => TextOnly(l.user, l.text)
  }

  function AliasOf(l: Line): AliasKey {
    AliasKey(l.user, l.text, l.store)
  }

  predicate IsNewer(candidate: Option<int>, current: Option<int>) {
    candidate.Some? && (current.None? || candidate.value > current.value)
  }

  predicate HasAlias(aliases: seq<Alias>, k: AliasKey) {
    exists i :: 0 <= i < |aliases| && aliases[i].key == k
  }

  function NewDraft(k: DraftKey): Draft {
    Draft(k, "", None, 0, None, [])
  }

  function AddLine(d: Draft, l: Line): Draft {
    var renamed := d.name == "" || IsNewer(l.date, d.nameAt);
    Draft(d.key,
          if renamed then l.raw else d.name,
          if renamed then l.date else d.nameAt,
          d.count + 1,
          if IsNewer(l.date, d.last) then l.date else d.last,
          if HasAlias(d.aliases, AliasOf(l)) then d.aliases else d.aliases + [Alias(AliasOf(l), l.raw)])
  }

  /** The place of `k`'s draft, or the number of drafts when there is none. */
  function IndexOf(drafts: seq<Draft>, k: DraftKey): (i: nat)
    ensures i <= |drafts|
    ensures i < |drafts| ==> drafts[i].key == k
    ensures forall j :: 0 <= j < i ==> drafts[j].key != k
  {
    if drafts == [] then 0
    else
      var i := IndexOf(drafts[..|drafts| - 1], k);
      if i < |drafts| - 1 || drafts[i].key == k then i else |drafts|
  }

  function Added(drafts: seq<Draft>, l: Line): seq<Draft> {
    var i := IndexOf(drafts, KeyOf(l));
    if i < |drafts| then drafts[i := AddLine(drafts[i], l)]
    else drafts + [AddLine(NewDraft(KeyOf(l)), l)]
  }

  function Collected(lines: seq<Line>): seq<Draft> {
    if lines == [] then [] else Added(Collected(lines[..|lines| - 1]), lines[|lines| - 1])
  }

  method CollectProducts(lines: seq<Line>) returns (drafts: seq<Draft>)
    ensures drafts == Collected(lines)
  {
    drafts := [];
    for n := 0 to |lines|
      invariant drafts == Collected(lines[..n])
    {
      var l := lines[n];
      assert lines[..n + 1][..n] == lines[..n];
      var i := IndexOf(drafts, KeyOf(l));
      if i == |drafts| {
        drafts := drafts + [AddLine(NewDraft(KeyOf(l)), l)];
      } else {
        drafts := drafts[i := AddLine(drafts[i], l)];
      }
    }
    assert lines[..|lines|] == lines;
  }

  // ---- What a draft holds ----

  /** The lines that belong to `k`, in order. */
  function OfKey(lines: seq<Line>, k: DraftKey): (ls: seq<Line>)
    ensures forall l :: l in ls <==> l in lines && KeyOf(l) == k
  {
    if lines == [] then []
    else
      var rest, l := lines[..|lines| - 1], lines[|lines| - 1];
      assert lines == rest + [l];
      OfKey(rest, k) + (if KeyOf(l) == k then [l] else [])
  }

  function Folded(k: DraftKey, ls: seq<Line>): Draft {
    if ls == [] then NewDraft(k) else AddLine(Folded(k, ls[..|ls| - 1]), ls[|ls| - 1])
  }

  ghost predicate DistinctDrafts(drafts: seq<Draft>) {
    forall i, j :: 0 <= i < j < |drafts| ==> drafts[i].key != drafts[j].key
  }

  ghost predicate HasDraft(drafts: seq<Draft>, k: DraftKey) {
    exists i :: 0 <= i < |drafts| && drafts[i].key == k
  }

  lemma {:induction false} AddedKeys(before: seq<Draft>, l: Line, k: DraftKey)
    requires HasDraft(before, k) || k == KeyOf(l)
    ensures HasDraft(Added(before, l), k)
  {
    var after, at := Added(before, l), IndexOf(before, KeyOf(l));
    if HasDraft(before, k) {
      var i :| 0 <= i < |before| && before[i].key == k;
      assert after[i].key == k;
    } else {
      assert after[at].key == k;
    }
  }

  lemma {:induction false} KeysAreCollected(lines: seq<Line>, l: Line)
    requires l in lines
    ensures HasDraft(Collected(lines), KeyOf(l))
  {
    var rest, last := lines[..|lines| - 1], lines[|lines| - 1];
    if l != last {
      assert lines == rest + [last];
      KeysAreCollected(rest, l);
    }
    AddedKeys(Collected(rest), last, KeyOf(l));
  }

  lemma {:induction false} CollectedDistinct(lines: seq<Line>)
    ensures DistinctDrafts(Collected(lines))
  {
    if lines != [] { CollectedDistinct(lines[..|lines| - 1]); }
  }

  /** `d` was made of exactly the lines of its key, in order, and there are some. */
  ghost predicate Groups(d: Draft, lines: seq<Line>) {
    OfKey(lines, d.key) != [] && d == Folded(d.key, OfKey(lines, d.key))
  }

  lemma {:induction false} OtherKeyGroups(d: Draft, rest: seq<Line>, l: Line)
    requires Groups(d, rest) && KeyOf(l) != d.key
    ensures Groups(d, rest + [l])
  {
    assert (rest + [l])[..|rest|] == rest;
    assert OfKey(rest + [l], d.key) == OfKey(rest, d.key);
  }

  lemma {:induction false} SameKeyGroups(d: Draft, rest: seq<Line>, l: Line)
    requires d == Folded(d.key, OfKey(rest, d.key)) && KeyOf(l) == d.key
    ensures Groups(AddLine(d, l), rest + [l])
  {
    var ls := OfKey(rest, d.key);
    assert (rest + [l])[..|rest|] == rest;
    assert OfKey(rest + [l], d.key) == ls + [l];
    assert (ls + [l])[..|ls|] == ls;
  }

  ghost predicate AllGroup(drafts: seq<Draft>, lines: seq<Line>) {
    forall i :: 0 <= i < |drafts| ==> Groups(drafts[i], lines)
  }

  lemma {:induction false} AddedGroups(before: seq<Draft>, rest: seq<Line>, l: Line)
    requires AllGroup(before, rest) && DistinctDrafts(before)
    requires !HasDraft(before, KeyOf(l)) ==> OfKey(rest, KeyOf(l)) == []
    ensures AllGroup(Added(before, l), rest + [l])
  {
    var k, after := KeyOf(l), Added(before, l);
    var at := IndexOf(before, k);
    forall i | 0 <= i < |after| ensures Groups(after[i], rest + [l]) {
      if i != at {
        assert Groups(before[i], rest);
        OtherKeyGroups(before[i], rest, l);
      } else if i < |before| {
        assert Groups(before[i], rest);
        SameKeyGroups(before[i], rest, l);
      } else {
        SameKeyGroups(NewDraft(k), rest, l);
      }
    }
  }

  lemma {:induction false} NoLines(lines: seq<Line>, k: DraftKey)
    requires !HasDraft(Collected(lines), k)
    ensures OfKey(lines, k) == []
  {
    if OfKey(lines, k) != [] {
      KeysAreCollected(lines, OfKey(lines, k)[0]);
    }
  }

  lemma {:induction false} DraftsGroupLines(lines: seq<Line>)
    ensures AllGroup(Collected(lines), lines)
  {
    if lines != [] {
      var rest, l := lines[..|lines| - 1], lines[|lines| - 1];
      assert lines == rest + [l];
      DraftsGroupLines(rest);
      CollectedDistinct(rest);
      if !HasDraft(Collected(rest), KeyOf(l)) { NoLines(rest, KeyOf(l)); }
      AddedGroups(Collected(rest), rest, l);
    }
  }

  /** `d` holds what the lines of its key say. */
  ghost predicate Tallies(d: Draft, ls: seq<Line>) {
    && d.count == |ls|
    && (d.last.None? ==> forall l :: l in ls ==> l.date.None?)
    && (d.last.Some? ==> exists l :: l in ls && l.date == d.last)
    && (forall l :: l in ls && l.date.Some? ==> d.last.Some? && l.date.value <= d.last.value)
    && (forall k :: HasAlias(d.aliases, k) <==> exists l :: l in ls && k == AliasKey(l.user, l.text, l.store))
    && (forall i, j :: 0 <= i < j < |d.aliases| ==> d.aliases[i].key != d.aliases[j].key)
  }

  /** The name is the text of the first line of the newest day, or of the first line when no line is dated. */
  ghost predicate NamedByNewest(d: Draft, ls: seq<Line>) {
    && d.nameAt == d.last
    && exists i :: 0 <= i < |ls| && ls[i].raw == d.name && ls[i].date == d.last
                   && forall j :: 0 <= j < i ==> ls[j].date != d.last
  }

  lemma {:induction false} AliasAdded(d: Draft, rest: seq<Line>, l: Line, a: AliasKey)
    requires HasAlias(d.aliases, a) <==> exists m :: m in rest && a == AliasKey(m.user, m.text, m.store)
    ensures HasAlias(AddLine(d, l).aliases, a) <==> exists m :: m in rest + [l] && a == AliasKey(m.user, m.text, m.store)
  {
    var after, all := AddLine(d, l).aliases, rest + [l];
    assert all[|rest|] == l;
    if HasAlias(d.aliases, a) {
      var i :| 0 <= i < |d.aliases| && d.aliases[i].key == a;
      assert after[i].key == a;
      var m :| m in rest && a == AliasKey(m.user, m.text, m.store);
      assert m in all;
    } else if AliasOf(l) == a {
      assert after[|d.aliases|].key == a && l in all;
    }
  }

  lemma {:induction false} DatesAdded(d: Draft, rest: seq<Line>, l: Line)
    requires Tallies(d, rest)
    ensures var after, all := AddLine(d, l), rest + [l];
            && (after.last.None? ==> forall m :: m in all ==> m.date.None?)
            && (after.last.Some? ==> exists m :: m in all && m.date == after.last)
            && forall m :: m in all && m.date.Some? ==> after.last.Some? && m.date.value <= after.last.value
  {
    var all := rest + [l];
    assert all[|rest|] == l && l in all && forall m :: m in rest ==> m in all;
  }

  lemma {:induction false} AliasesStayDistinct(d: Draft, l: Line)
    requires forall i, j :: 0 <= i < j < |d.aliases| ==> d.aliases[i].key != d.aliases[j].key
    ensures var after := AddLine(d, l).aliases; forall i, j :: 0 <= i < j < |after| ==> after[i].key != after[j].key
  {
  }

  lemma {:induction false} TallyAdded(d: Draft, rest: seq<Line>, l: Line)
    requires Tallies(d, rest)
    ensures Tallies(AddLine(d, l), rest + [l])
  {
    DatesAdded(d, rest, l);
    AliasesStayDistinct(d, l);
    forall a ensures HasAlias(AddLine(d, l).aliases, a) <==> exists m :: m in rest + [l] && a == AliasKey(m.user, m.text, m.store) {
      AliasAdded(d, rest, l, a);
    }
  }

  lemma {:induction false} FoldedTallies(k: DraftKey, ls: seq<Line>)
    ensures Tallies(Folded(k, ls), ls)
  {
    if ls == [] {
      assert Folded(k, ls) == NewDraft(k);
    } else {
      var rest, l := ls[..|ls| - 1], ls[|ls| - 1];
      assert ls == rest + [l];
      FoldedTallies(k, rest);
      TallyAdded(Folded(k, rest), rest, l);
    }
  }

  lemma {:induction false} NamedStep(d: Draft, ls: seq<Line>, l: Line)
    requires NamedByNewest(d, ls) && d.name != ""
    requires forall m :: m in ls && m.date.Some? ==> d.last.Some? && m.date.value <= d.last.value
    ensures NamedByNewest(AddLine(d, l), ls + [l])
  {
    var i :| 0 <= i < |ls| && ls[i].raw == d.name && ls[i].date == d.last
             && forall j :: 0 <= j < i ==> ls[j].date != d.last;
    var all := ls + [l];
    if IsNewer(l.date, d.last) {
      assert all[|ls|] == l && forall j :: 0 <= j < |ls| ==> all[j] in ls;
    } else {
      assert all[i] == ls[i];
    }
  }

  lemma {:induction false} FoldedIsNamed(k: DraftKey, ls: seq<Line>)
    requires ls != [] && forall l :: l in ls ==> l.raw != ""
    ensures Folded(k, ls).name != "" && NamedByNewest(Folded(k, ls), ls)
  {
    var rest, l := ls[..|ls| - 1], ls[|ls| - 1];
    assert ls == rest + [l];
    if rest == [] {
      assert Folded(k, rest) == NewDraft(k);
      assert ls[0].raw == Folded(k, ls).name;
    } else {
      FoldedIsNamed(k, rest);
      FoldedTallies(k, rest);
      NamedStep(Folded(k, rest), rest, l);
    }
  }

  /** Every draft counts exactly its own lines, carries their newest day and their texts, one per store. */
  lemma {:induction false} DraftsTally(lines: seq<Line>)
    ensures DistinctDrafts(Collected(lines))
    ensures forall l :: l in lines ==> HasDraft(Collected(lines), KeyOf(l))
    ensures forall d :: d in Collected(lines) ==> OfKey(lines, d.key) != [] && Tallies(d, OfKey(lines, d.key))
    ensures forall d :: d in Collected(lines) && (forall l :: l in OfKey(lines, d.key) ==> l.raw != "") ==>
              NamedByNewest(d, OfKey(lines, d.key))
  {
    CollectedDistinct(lines);
    DraftsGroupLines(lines);
    forall l | l in lines ensures HasDraft(Collected(lines), KeyOf(l)) {
      KeysAreCollected(lines, l);
    }
    forall d | d in Collected(lines) ensures OfKey(lines, d.key) != [] && Tallies(d, OfKey(lines, d.key)) {
      assert Groups(d, lines);
      FoldedTallies(d.key, OfKey(lines, d.key));
    }
    forall d | d in Collected(lines) && forall l :: l in OfKey(lines, d.key) ==> l.raw != ""
      ensures NamedByNewest(d, OfKey(lines, d.key))
    {
      assert Groups(d, lines);
      FoldedIsNamed(d.key, OfKey(lines, d.key));
    }
  }

  // ---- Writing the catalog ----

  /** An owner has at most one product for each product of the shared catalog. */
  ghost predicate OneEach(products: map<Id, Product>) {
    forall p, q :: p in products && q in products && products[p].legacy.Some? && SameOrigin(products[p], products[q])
                   ==> p == q
  }

  predicate SameOrigin(x: Product, y: Product) {
    x.legacy == y.legacy && x.user == y.user
  }

  /** The unique and foreign keys of the tables; an alias never leads to another owner's product. */
  ghost predicate Valid(t: Tables) {
    && OneEach(t.products)
    && forall k :: k in t.aliases ==> LeadsHome(k, t.aliases[k].product, t.products)
  }

  predicate LeadsHome(k: AliasKey, p: Id, products: map<Id, Product>) {
    p in products && products[p].user == k.user
  }

  /** The products that came from the shared catalog, by what they came from. */
  function LegacyIds(products: map<Id, Product>): map<DraftKey, Id>
    requires OneEach(products)
  {
    map p | p in products && products[p].legacy.Some? :: Matched(products[p].user, products[p].legacy.value) := p
  }

  /** Where the first alias that is known leads. */
  function FirstTarget(aliases: seq<Alias>, known: map<AliasKey, AliasRow>): Option<Id> {
    if aliases == [] then None
    else if aliases[0].key in known then Some(known[aliases[0].key].product)
    else FirstTarget(aliases[1..], known)
  }

  function ResolveExistingId(d: Draft, legacyIds: map<DraftKey, Id>, known: map<AliasKey, AliasRow>): Option<Id> {
    if d.key.TextOnly? then FirstTarget(d.aliases, known)
    else if d.key in legacyIds then Some(legacyIds[d.key])
    else None
  }

  function AddAliases(known: map<AliasKey, AliasRow>, aliases: seq<Alias>, p: Id): map<AliasKey, AliasRow> {
    if aliases == [] then known
    else
      var m := AddAliases(known, aliases[..|aliases| - 1], p);
      var a := aliases[|aliases| - 1];
      if a.key in m then m else m[a.key := AliasRow(p, a.raw)]
  }

  function NewProduct(d: Draft): Product {
    Product(d.key.user, if d.key.Matched? then Some(d.key.product) else None, d.name, d.count, d.last)
  }

  /** An update of a row that is not there changes nothing. */
  function Overwrite(products: map<Id, Product>, p: Id, d: Draft): map<Id, Product> {
    if p in products then products[p := products[p].(count := d.count, last := d.last)] else products
  }

  /** The stored products, the rows to insert at the end, and the aliases with those to insert. */
  datatype Work = Work(products: map<Id, Product>, added: map<Id, Product>, aliases: map<AliasKey, AliasRow>)

  function Step(w: Work, d: Draft, legacyIds: map<DraftKey, Id>, id: Id): Work {
    match ResolveExistingId(d, legacyIds, w.aliases)
    case None => Work(w.products, w.added[id := NewProduct(d)], AddAliases(w.aliases, d.aliases, id))
    case Some(p) => Work(Overwrite(w.products, p, d), w.added, AddAliases(w.aliases, d.aliases, p))
  }

  /** The first `n` drafts written; `ids[i]` is the id drawn for the `i`-th, should it need one. */
  function Steps(t: Tables, legacyIds: map<DraftKey, Id>, drafts: seq<Draft>, ids: seq<Id>, n: nat): Work
    requires n <= |drafts| == |ids|
  {
    if n == 0 then Work(t.products, map[], t.aliases)
    else Step(Steps(t, legacyIds, drafts, ids, n - 1), drafts[n - 1], legacyIds, ids[n - 1])
  }


  function Backfilled(t: Tables, drafts: seq<Draft>, ids: seq<Id>): Tables
    requires OneEach(t.products) && |drafts| == |ids|
  {
    var w := Steps(t, LegacyIds(t.products), drafts, ids, |drafts|);
    Tables(w.products + w.added, w.aliases)
  }

  class Catalog {
    var products: map<Id, Product>
    var aliases: map<AliasKey, AliasRow>

    ghost function Rows(): Tables
      reads this
    {
      Tables(products, aliases)
    }

    /** The loop over a draft's aliases: those not known yet are recorded for `id`. */
    static method AddTargets(known: map<AliasKey, AliasRow>, aliases: seq<Alias>, id: Id)
      returns (targets: map<AliasKey, AliasRow>)
      ensures targets == AddAliases(known, aliases, id)
    {
      targets := known;
      for j := 0 to |aliases|
        invariant targets == AddAliases(known, aliases[..j], id)
      {
        var a := aliases[j];
        assert aliases[..j + 1][..j] == aliases[..j];
        if a.key !in targets {
          targets := targets[a.key := AliasRow(id, a.raw)];
        }
      }
      assert aliases[..|aliases|] == aliases;
    }

    /** One draft: an insertion noted for later, or an update at once, and its new aliases. */
    method WriteDraft(d: Draft, drawn: Id, legacyIds: map<DraftKey, Id>, newProducts: map<Id, Product>,
                      targets: map<AliasKey, AliasRow>)
      returns (inserts: map<Id, Product>, known: map<AliasKey, AliasRow>)
      modifies this`products
      ensures Work(products, inserts, known) == Step(Work(old(products), newProducts, targets), d, legacyIds, drawn)
    {
      inserts := newProducts;
      var id := drawn;
      var found := ResolveExistingId(d, legacyIds, targets);
      if found.None? {
        inserts := inserts[id := NewProduct(d)];
      } else {
        id := found.value;
        if id in products {
          products := products[id := products[id].(count := d.count, last := d.last)];
        }
      }
      known := AddTargets(targets, d.aliases, id);
    }

    method WriteDrafts(drafts: seq<Draft>, ids: seq<Id>, legacyIds: map<DraftKey, Id>)
      requires |ids| == |drafts|
      modifies this
      ensures var w := Steps(old(Rows()), legacyIds, drafts, ids, |drafts|);
              products == w.products + w.added && aliases == w.aliases
    {
      var targets := aliases;
      var newProducts: map<Id, Product> := map[];
      for i := 0 to |drafts|
        invariant aliases == old(aliases)
        invariant Work(products, newProducts, targets) == Steps(old(Rows()), legacyIds, drafts, ids, i)
      {
        newProducts, targets := WriteDraft(drafts[i], ids[i], legacyIds, newProducts, targets);
      }
      products := products + newProducts;
      aliases := targets;
    }

    method BackfillProducts(lines: seq<Line>, ids: seq<Id>)
      requires OneEach(products) && |ids| == |Collected(lines)|
      modifies this
      ensures Rows() == Backfilled(old(Rows()), Collected(lines), ids)
    {
      var drafts := CollectProducts(lines);
      WriteDrafts(drafts, ids, LegacyIds(products));
    }
  }
}
