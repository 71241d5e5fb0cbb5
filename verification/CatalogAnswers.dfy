/** What a backfill makes of the lines and writes of a draft, field by field. */
module CatalogAnswers {
  import opened Basics
  import opened CatalogBackfill

  // ---- Drafts ----

  /** No line at or after `from` is newer than `at`, and the first of that day has the text `name`. */
  ghost predicate NewestSince(ls: seq<Line>, from: nat, name: string, at: Option<int>) {
    && (forall j :: from <= j < |ls| && ls[j].date.Some? ==> at.Some? && ls[j].date.value <= at.value)
    && exists i :: from <= i < |ls| && ls[i].raw == name && ls[i].date == at && forall j :: from <= j < i ==> ls[j].date != at
  }

  lemma {:induction false} NewestGrows(rest: seq<Line>, l: Line, from: nat, name: string, at: Option<int>)
    requires NewestSince(rest, from, name, at)
    ensures if l.date.Some? && (at.None? || at.value < l.date.value) then NewestSince(rest + [l], from, l.raw, l.date)
            else NewestSince(rest + [l], from, name, at)
  {
    var i :| from <= i < |rest| && rest[i].raw == name && rest[i].date == at && forall j :: from <= j < i ==> rest[j].date != at;
    var all := rest + [l];
    assert all[|rest|] == l && all[i] == rest[i] && forall j :: 0 <= j < |rest| ==> all[j] == rest[j];
  }

  /** A draft is named by the newest of the lines since it last had no name. */
  lemma {:induction false} NamedSinceBlank(k: DraftKey, ls: seq<Line>) returns (from: nat)
    requires ls != []
    ensures from < |ls| && Folded(k, ls[..from]).name == ""
    ensures forall m :: from < m < |ls| ==> Folded(k, ls[..m]).name != ""
    ensures NewestSince(ls, from, Folded(k, ls).name, Folded(k, ls).nameAt)
  {
    var rest, l := ls[..|ls| - 1], ls[|ls| - 1];
    assert ls == rest + [l];
    if Folded(k, rest).name == "" {
      from := |rest|;
      assert ls[from].raw == Folded(k, ls).name;
    } else {
      assert Folded(k, []) == NewDraft(k);
      from := NamedSinceBlank(k, rest);
      NewestGrows(rest, l, from, Folded(k, rest).name, Folded(k, rest).nameAt);
      forall m | 0 <= m <= |rest| ensures rest[..m] == ls[..m] {}
    }
  }

  predicate HasKey(l: Line, k: AliasKey) {
    l.user == k.user && l.text == k.text && l.store == k.context
  }

  /** Line `j` is the first with this alias. */
  ghost predicate FirstWith(ls: seq<Line>, k: AliasKey, j: nat) {
    j < |ls| && HasKey(ls[j], k) && forall i :: 0 <= i < j ==> !HasKey(ls[i], k)
  }

  ghost predicate IsFirst(ls: seq<Line>, a: Alias, j: nat) {
    FirstWith(ls, a.key, j) && a.raw == ls[j].raw
  }

  /** Every alias stands for its first line, with its text as printed there, in the order of those lines. */
  ghost predicate AliasesOf(aliases: seq<Alias>, ls: seq<Line>, first: seq<nat>) {
    && |first| == |aliases| && (forall i, j :: 0 <= i < j < |first| ==> first[i] < first[j])
    && (forall i :: 0 <= i < |aliases| ==> IsFirst(ls, aliases[i], first[i]))
    && forall l :: l in ls ==> HasAlias(aliases, AliasKey(l.user, l.text, l.store))
  }

  lemma {:induction false} FirstStays(rest: seq<Line>, l: Line, a: Alias, j: nat)
    requires IsFirst(rest, a, j)
    ensures IsFirst(rest + [l], a, j)
  {
  }

  lemma {:induction false} NewIsFirst(aliases: seq<Alias>, rest: seq<Line>, l: Line, first: seq<nat>)
    requires AliasesOf(aliases, rest, first) && !HasAlias(aliases, AliasKey(l.user, l.text, l.store))
    ensures IsFirst(rest + [l], Alias(AliasKey(l.user, l.text, l.store), l.raw), |rest|)
  {
    forall i | 0 <= i < |rest| ensures !HasKey(rest[i], AliasKey(l.user, l.text, l.store)) { assert rest[i] in rest; }
  }

  lemma {:induction false} HasAliasAppend(aliases: seq<Alias>, a: Alias, k: AliasKey)
    ensures HasAlias(aliases + [a], k) <==> HasAlias(aliases, k) || a.key == k
  {
    var all := aliases + [a];
    assert all[|aliases|] == a && forall i :: 0 <= i < |aliases| ==> all[i] == aliases[i];
  }

  lemma {:induction false} AliasesGrow(d: Draft, rest: seq<Line>, l: Line, first: seq<nat>)
    requires AliasesOf(d.aliases, rest, first)
    ensures AliasesOf(AddLine(d, l).aliases, rest + [l], if HasAlias(d.aliases, AliasOf(l)) then first else first + [|rest|])
  {
    forall i | 0 <= i < |d.aliases| ensures IsFirst(rest + [l], d.aliases[i], first[i]) {
      FirstStays(rest, l, d.aliases[i], first[i]);
    }
    assert forall i :: 0 <= i < |first| ==> IsFirst(rest, d.aliases[i], first[i]) && first[i] < |rest|;
    if !HasAlias(d.aliases, AliasOf(l)) {
      NewIsFirst(d.aliases, rest, l, first);
      forall k ensures HasAlias(AddLine(d, l).aliases, k) <==> HasAlias(d.aliases, k) || AliasOf(l) == k {
        HasAliasAppend(d.aliases, Alias(AliasOf(l), l.raw), k);
      }
    }
  }

  lemma {:induction false} FoldedAliases(k: DraftKey, ls: seq<Line>) returns (first: seq<nat>)
    ensures AliasesOf(Folded(k, ls).aliases, ls, first)
  {
    if ls == [] {
      first := [];
    } else {
      var rest, l := ls[..|ls| - 1], ls[|ls| - 1];
      assert ls == rest + [l];
      var before := FoldedAliases(k, rest);
      AliasesGrow(Folded(k, rest), rest, l, before);
      first := if HasAlias(Folded(k, rest).aliases, AliasOf(l)) then before else before + [|rest|];
    }
  }

  // ---- Rows ----

  /** The draft's first known alias leads to `p`. */
  ghost predicate LeadsTo(aliases: seq<Alias>, known: map<AliasKey, AliasRow>, p: Id) {
    exists i :: 0 <= i < |aliases| && IsFirstKnown(aliases, known, i) && known[aliases[i].key].product == p
  }

  ghost predicate IsFirstKnown(aliases: seq<Alias>, known: map<AliasKey, AliasRow>, i: int)
    requires 0 <= i < |aliases|
  {
    aliases[i].key in known && forall j :: 0 <= j < i ==> aliases[j].key !in known
  }

  lemma {:induction false} FirstTargetIs(aliases: seq<Alias>, known: map<AliasKey, AliasRow>)
    ensures match FirstTarget(aliases, known)
            case None => forall i :: 0 <= i < |aliases| ==> aliases[i].key !in known
            case Some(p) => LeadsTo(aliases, known, p)
  {
    if aliases != [] {
      var rest := aliases[1..];
      if aliases[0].key in known {
        assert IsFirstKnown(aliases, known, 0);
      } else {
        FirstTargetIs(rest, known);
        if FirstTarget(aliases, known).Some? {
          var i :| 0 <= i < |rest| && IsFirstKnown(rest, known, i) && known[rest[i].key].product == FirstTarget(aliases, known).value;
          forall j | 0 <= j < i + 1 ensures aliases[j].key !in known { if j > 0 { assert rest[j - 1] == aliases[j]; } }
          assert aliases[i + 1] == rest[i] && IsFirstKnown(aliases, known, i + 1);
        } else {
          forall i | 0 <= i < |aliases| ensures aliases[i].key !in known { if i > 0 { assert rest[i - 1] == aliases[i]; } }
        }
      }
    }
  }

  lemma {:induction false} LegacyIdsAre(products: map<Id, Product>, u: Id, x: Id, p: Id)
    requires OneEach(products)
    ensures Matched(u, x) in LegacyIds(products) && LegacyIds(products)[Matched(u, x)] == p <==>
            p in products && products[p].user == u && products[p].legacy == Some(x)
  {
    var ids := LegacyIds(products);
    if p in products && products[p].user == u && products[p].legacy == Some(x) {
      assert Matched(products[p].user, products[p].legacy.value) in ids;
      var q := ids[Matched(u, x)];
      assert q in products && SameOrigin(products[p], products[q]);
    }
  }

  ghost predicate IsNewProduct(p: Product, d: Draft) {
    && p.name == d.name && p.count == d.count && p.last == d.last
    && match d.key
       case Matched(user, product) => p.user == user && p.legacy == Some(product)
       case TextOnly(user, _) => p.user == user && p.legacy == None
  }

  /** The first of the aliases with this key. */
  ghost predicate FirstOf(aliases: seq<Alias>, k: AliasKey, a: Alias) {
    exists i :: 0 <= i < |aliases| && aliases[i] == a && a.key == k && forall j :: 0 <= j < i ==> aliases[j].key != k
  }

  ghost predicate IsRecorded(known: map<AliasKey, AliasRow>, known': map<AliasKey, AliasRow>, aliases: seq<Alias>, p: Id, k: AliasKey) {
    if k in known then k in known' && known'[k] == known[k]
    else if HasAlias(aliases, k) then k in known' && exists a :: FirstOf(aliases, k, a) && known'[k] == AliasRow(p, a.raw)
    else k !in known'
  }

  /** The aliases known before stay; the others of the draft are recorded for its product, as printed first. */
  lemma {:induction false} AliasRecorded(known: map<AliasKey, AliasRow>, aliases: seq<Alias>, p: Id, k: AliasKey)
    ensures IsRecorded(known, AddAliases(known, aliases, p), aliases, p, k)
  {
    if aliases != [] {
      var rest, a := aliases[..|aliases| - 1], aliases[|aliases| - 1];
      assert aliases == rest + [a];
      AliasRecorded(known, rest, p, k);
      HasAliasAppend(rest, a, k);
      if k !in known && HasAlias(rest, k) {
        var x :| FirstOf(rest, k, x) && AddAliases(known, rest, p)[k] == AliasRow(p, x.raw);
        var i :| 0 <= i < |rest| && rest[i] == x && x.key == k && forall j :: 0 <= j < i ==> rest[j].key != k;
        assert aliases[i] == x && FirstOf(aliases, k, x);
      } else if k !in known && a.key == k {
        forall j | 0 <= j < |rest| ensures aliases[j].key != k { assert rest[j] == aliases[j]; }
        assert aliases[|rest|] == a && FirstOf(aliases, k, a);
      }
    }
  }

  /** Where a draft's figures go: to the product of its match, or for a bare text to that of its first known alias. */
  ghost predicate GoesTo(d: Draft, legacyIds: map<DraftKey, Id>, known: map<AliasKey, AliasRow>, p: Id) {
    match d.key
    case Matched(_, _) => d.key in legacyIds && legacyIds[d.key] == p
    case TextOnly(_, _) => LeadsTo(d.aliases, known, p)
  }

  lemma {:induction false} ResolvedGoesTo(d: Draft, legacyIds: map<DraftKey, Id>, known: map<AliasKey, AliasRow>, p: Id)
    ensures ResolveExistingId(d, legacyIds, known) == Some(p) <==> GoesTo(d, legacyIds, known, p)
  {
    FirstTargetIs(d.aliases, known);
    if d.key.TextOnly? && GoesTo(d, legacyIds, known, p) && FirstTarget(d.aliases, known).Some? {
      var i :| 0 <= i < |d.aliases| && IsFirstKnown(d.aliases, known, i) && known[d.aliases[i].key].product == p;
      var j :| 0 <= j < |d.aliases| && IsFirstKnown(d.aliases, known, j)
               && known[d.aliases[j].key].product == FirstTarget(d.aliases, known).value;
      assert i == j;
    }
  }

  ghost predicate OnlyFigures(x: Product, y: Product, count: nat, last: Option<int>) {
    y.user == x.user && y.legacy == x.legacy && y.name == x.name && y.count == count && y.last == last
  }

  /** A draft that leads to a product gives that product its count and last day, if it is stored already, and nothing else. */
  lemma {:induction false} UpdateAnswers(w: Work, d: Draft, legacyIds: map<DraftKey, Id>, id: Id, p: Id)
    requires GoesTo(d, legacyIds, w.aliases, p)
    ensures var w' := Step(w, d, legacyIds, id);
            && w'.added == w.added && w'.products.Keys == w.products.Keys
            && (forall q :: q in w.products ==>
                  if q == p then OnlyFigures(w.products[q], w'.products[q], d.count, d.last) else w'.products[q] == w.products[q])
            && forall k :: IsRecorded(w.aliases, w'.aliases, d.aliases, p, k)
  {
    ResolvedGoesTo(d, legacyIds, w.aliases, p);
    forall k ensures IsRecorded(w.aliases, Step(w, d, legacyIds, id).aliases, d.aliases, p, k) {
      AliasRecorded(w.aliases, d.aliases, p, k);
    }
  }

  /** A draft that leads to none is noted as a new product with all its figures. */
  lemma {:induction false} InsertAnswers(w: Work, d: Draft, legacyIds: map<DraftKey, Id>, id: Id)
    requires forall p :: !GoesTo(d, legacyIds, w.aliases, p)
    ensures var w' := Step(w, d, legacyIds, id);
            && w'.products == w.products && id in w'.added && w'.added == w.added[id := w'.added[id]] && IsNewProduct(w'.added[id], d)
            && forall k :: IsRecorded(w.aliases, w'.aliases, d.aliases, id, k)
  {
    var found := ResolveExistingId(d, legacyIds, w.aliases);
    if found.Some? { ResolvedGoesTo(d, legacyIds, w.aliases, found.value); }
    forall k ensures IsRecorded(w.aliases, Step(w, d, legacyIds, id).aliases, d.aliases, id, k) {
      AliasRecorded(w.aliases, d.aliases, id, k);
    }
  }
}
