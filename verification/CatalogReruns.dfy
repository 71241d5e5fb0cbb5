/** What a backfill leaves behind, and what repeating it on the same lines changes. */
module CatalogReruns {
  import opened Basics
  import opened CatalogBackfill

  /** Ids drawn for new rows: different from each other and from those in use. */
  ghost predicate Drawn(ids: seq<Id>, products: map<Id, Product>) {
    && (forall i, j :: 0 <= i < j < |ids| ==> ids[i] != ids[j])
    && forall i :: 0 <= i < |ids| ==> ids[i] !in products
  }

  /** Every draft has an alias, and its aliases are its owner's; those of a bare text are that text. */
  ghost predicate Usable(drafts: seq<Draft>) {
    forall d :: d in drafts ==> d.aliases != [] && forall a :: a in d.aliases ==> Fits(a.key, d.key)
  }

  predicate Fits(a: AliasKey, k: DraftKey) {
    a.user == k.user && (k.TextOnly? ==> a.text == k.text)
  }

  lemma {:induction false} TalliedIsUsable(d: Draft, ls: seq<Line>)
    requires Tallies(d, ls) && ls != [] && forall l :: l in ls ==> KeyOf(l) == d.key
    ensures d.aliases != [] && forall a :: a in d.aliases ==> Fits(a.key, d.key)
  {
    assert ls[0] in ls;
    assert HasAlias(d.aliases, AliasOf(ls[0]));
    forall a | a in d.aliases ensures Fits(a.key, d.key) {
      assert HasAlias(d.aliases, a.key);
      var l :| l in ls && AliasOf(l) == a.key;
    }
  }

  lemma {:induction false} CollectedUsable(lines: seq<Line>)
    ensures Usable(Collected(lines)) && DistinctDrafts(Collected(lines))
  {
    DraftsTally(lines);
    forall d | d in Collected(lines)
      ensures d.aliases != [] && forall a :: a in d.aliases ==> Fits(a.key, d.key)
    {
      TalliedIsUsable(d, OfKey(lines, d.key));
    }
  }

  // ---- Aliases ----

  lemma {:induction false} AddAliasesAt(known: map<AliasKey, AliasRow>, aliases: seq<Alias>, p: Id, k: AliasKey)
    ensures var m := AddAliases(known, aliases, p);
            && (k in m <==> k in known || HasAlias(aliases, k))
            && (k in known ==> m[k] == known[k])
            && (k in m && k !in known ==> m[k].product == p)
  {
    if aliases != [] {
      var rest, last := aliases[..|aliases| - 1], aliases[|aliases| - 1];
      AddAliasesAt(known, rest, p, k);
      assert HasAlias(aliases, k) <==> HasAlias(rest, k) || last.key == k by {
        if HasAlias(rest, k) {
          var i :| 0 <= i < |rest| && rest[i].key == k;
          assert aliases[i].key == k;
        }
      }
    }
  }

  lemma {:induction false} FirstTargetIn(aliases: seq<Alias>, known: map<AliasKey, AliasRow>)
    requires FirstTarget(aliases, known).Some?
    ensures exists i :: 0 <= i < |aliases| && aliases[i].key in known
                        && known[aliases[i].key].product == FirstTarget(aliases, known).value
  {
    if aliases[0].key !in known {
      FirstTargetIn(aliases[1..], known);
      var i :| 0 <= i < |aliases| - 1 && aliases[1..][i].key in known
               && known[aliases[1..][i].key].product == FirstTarget(aliases, known).value;
      assert aliases[i + 1] == aliases[1..][i];
    }
  }

  /** Once a draft is written, its first alias leads where the draft went. */
  lemma {:induction false} FirstAliasLeads(d: Draft, known: map<AliasKey, AliasRow>, id: Id)
    requires d.key.TextOnly? && d.aliases != []
    ensures var p := FirstTarget(d.aliases, known).GetOr(id);
            var m := AddAliases(known, d.aliases, p);
            d.aliases[0].key in m && m[d.aliases[0].key].product == p
  {
    var p := FirstTarget(d.aliases, known).GetOr(id);
    AddAliasesAt(known, d.aliases, p, d.aliases[0].key);
    assert HasAlias(d.aliases, d.aliases[0].key);
  }

  // ---- Updates ----

  function Overwritten(products: map<Id, Product>, drafts: seq<Draft>, targets: seq<Id>, n: nat): map<Id, Product>
    requires n <= |drafts| == |targets|
  {
    if n == 0 then products
    else Overwrite(Overwritten(products, drafts, targets, n - 1), targets[n - 1], drafts[n - 1])
  }

  /** The last of the first `n` drafts that leads to `p`, or -1. */
  function LastFor(targets: seq<Id>, p: Id, n: nat): (i: int)
    requires n <= |targets|
    ensures -1 <= i < n && (i >= 0 ==> targets[i] == p)
    ensures forall j :: 0 <= j < n && targets[j] == p ==> j <= i
  {
    if n == 0 then -1
    else if targets[n - 1] == p then n - 1
    else LastFor(targets, p, n - 1)
  }

  predicate SameFigures(x: Product, d: Draft) {
    x.count == d.count && x.last == d.last
  }

  lemma {:induction false} OverwrittenAt(products: map<Id, Product>, drafts: seq<Draft>, targets: seq<Id>, n: nat, p: Id)
    requires n <= |drafts| == |targets|
    ensures var after := Overwritten(products, drafts, targets, n);
            && (p in after <==> p in products)
            && (p in products ==>
                  var i := LastFor(targets, p, n);
                  after[p] == if i < 0 then products[p]
                              else products[p].(count := drafts[i].count, last := drafts[i].last))
  {
    if n > 0 { OverwrittenAt(products, drafts, targets, n - 1, p); }
  }

  // ---- The first run ----

  /** Where a draft leads. */
  function Target(t: Tables, d: Draft): Option<Id>
    requires OneEach(t.products)
  {
    ResolveExistingId(d, LegacyIds(t.products), t.aliases)
  }

  /** Where the `i`-th draft went: the id found, or the one drawn. */
  function Went(t: Tables, legacyIds: map<DraftKey, Id>, drafts: seq<Draft>, ids: seq<Id>, i: nat): Id
    requires i < |drafts| == |ids|
  {
    ResolveExistingId(drafts[i], legacyIds, Steps(t, legacyIds, drafts, ids, i).aliases).GetOr(ids[i])
  }

  function AllWent(t: Tables, legacyIds: map<DraftKey, Id>, drafts: seq<Draft>, ids: seq<Id>): (targets: seq<Id>)
    requires |drafts| == |ids|
    ensures |targets| == |drafts|
    ensures forall i :: 0 <= i < |targets| ==> targets[i] == Went(t, legacyIds, drafts, ids, i)
  {
    seq(|drafts|, i requires 0 <= i < |drafts| => Went(t, legacyIds, drafts, ids, i))
  }

  predicate Inserted(t: Tables, legacyIds: map<DraftKey, Id>, drafts: seq<Draft>, ids: seq<Id>, i: nat)
    requires i < |drafts| == |ids|
  {
    ResolveExistingId(drafts[i], legacyIds, Steps(t, legacyIds, drafts, ids, i).aliases).None?
  }

  /** Aliases stay, and every alias of a written draft is there. */
  lemma {:induction false} AliasesGrow(t: Tables, legacyIds: map<DraftKey, Id>, drafts: seq<Draft>, ids: seq<Id>,
                                       n: nat, m: nat, k: AliasKey)
    requires n <= m <= |drafts| == |ids|
    ensures var (before, after) := (Steps(t, legacyIds, drafts, ids, n).aliases,
                                    Steps(t, legacyIds, drafts, ids, m).aliases);
            && (k in before ==> k in after && after[k] == before[k])
            && (n < m && HasAlias(drafts[n].aliases, k) ==> k in after)
    decreases m - n
  {
    if n < m {
      var w := Steps(t, legacyIds, drafts, ids, n);
      AddAliasesAt(w.aliases, drafts[n].aliases, Went(t, legacyIds, drafts, ids, n), k);
      AliasesGrow(t, legacyIds, drafts, ids, n + 1, m, k);
    }
  }

  lemma {:induction false} StepMoves(w: Work, d: Draft, legacyIds: map<DraftKey, Id>, id: Id)
    requires id !in w.products
    ensures var p := ResolveExistingId(d, legacyIds, w.aliases).GetOr(id);
            Step(w, d, legacyIds, id).products == Overwrite(w.products, p, d)
  {
  }

  /** `targets` says where the first `n` drafts went, and none of their drawn ids was in use. */
  ghost predicate Follows(targets: seq<Id>, t: Tables, legacyIds: map<DraftKey, Id>, drafts: seq<Draft>, ids: seq<Id>, n: nat)
    requires n <= |drafts| == |ids| == |targets|
  {
    forall i :: 0 <= i < n ==> FollowsAt(targets, t, legacyIds, drafts, ids, i)
  }

  ghost predicate FollowsAt(targets: seq<Id>, t: Tables, legacyIds: map<DraftKey, Id>, drafts: seq<Draft>, ids: seq<Id>, i: nat)
    requires i < |drafts| == |ids| == |targets|
  {
    ids[i] !in t.products && targets[i] == Went(t, legacyIds, drafts, ids, i)
  }

  /** Stored products only get new figures: those of the last draft that leads to them. */
  lemma {:induction false} StepsUpdate(t: Tables, legacyIds: map<DraftKey, Id>, drafts: seq<Draft>, ids: seq<Id>,
                                       targets: seq<Id>, n: nat)
    requires n <= |drafts| == |ids| == |targets| && Follows(targets, t, legacyIds, drafts, ids, n)
    ensures Steps(t, legacyIds, drafts, ids, n).products == Overwritten(t.products, drafts, targets, n)
  {
    if n > 0 {
      StepsUpdate(t, legacyIds, drafts, ids, targets, n - 1);
      var w := Steps(t, legacyIds, drafts, ids, n - 1);
      assert FollowsAt(targets, t, legacyIds, drafts, ids, n - 1);
      OverwrittenAt(t.products, drafts, targets, n - 1, ids[n - 1]);
      StepMoves(w, drafts[n - 1], legacyIds, ids[n - 1]);
    }
  }

  /** The rows to insert are those of the drafts that led nowhere, under the ids drawn for them. */
  lemma {:induction false} StepsInsert(t: Tables, legacyIds: map<DraftKey, Id>, drafts: seq<Draft>, ids: seq<Id>, n: nat,
                                       i: nat)
    requires i < |drafts| == |ids| && n <= |drafts|
    requires forall j :: 0 <= j < |ids| && j != i ==> ids[j] != ids[i]
    ensures var added := Steps(t, legacyIds, drafts, ids, n).added;
            && (ids[i] in added <==> i < n && Inserted(t, legacyIds, drafts, ids, i))
            && (ids[i] in added ==> added[ids[i]] == NewProduct(drafts[i]))
  {
    if n > 0 {
      StepsInsert(t, legacyIds, drafts, ids, n - 1, i);
    }
  }

  lemma {:induction false} StepsDraw(t: Tables, legacyIds: map<DraftKey, Id>, drafts: seq<Draft>, ids: seq<Id>, n: nat,
                                     p: Id)
    requires n <= |drafts| == |ids| && p in Steps(t, legacyIds, drafts, ids, n).added
    ensures p in ids
  {
    if n > 0 && p in Steps(t, legacyIds, drafts, ids, n - 1).added {
      StepsDraw(t, legacyIds, drafts, ids, n - 1, p);
    }
  }

  // ---- After a run ----

  lemma {:induction false} LegacyIdsAt(products: map<Id, Product>, p: Id)
    requires OneEach(products) && p in products && products[p].legacy.Some?
    ensures var k := Matched(products[p].user, products[p].legacy.value);
            k in LegacyIds(products) && LegacyIds(products)[k] == p
  {
  }

  lemma {:induction false} LegacyIdsFrom(products: map<Id, Product>, k: DraftKey)
    requires OneEach(products) && k in LegacyIds(products)
    ensures k.Matched?
    ensures var p := LegacyIds(products)[k];
            p in products && products[p].user == k.user && products[p].legacy == Some(k.product)
  {
  }

  lemma {:induction false} StoredKeep(t: Tables, drafts: seq<Draft>, ids: seq<Id>, p: Id)
    requires OneEach(t.products) && |drafts| == |ids| && Drawn(ids, t.products) && p in t.products
    ensures var after := Backfilled(t, drafts, ids).products;
            var i := LastFor(AllWent(t, LegacyIds(t.products), drafts, ids), p, |drafts|);
            p in after && after[p] == if i < 0 then t.products[p]
                                      else t.products[p].(count := drafts[i].count, last := drafts[i].last)
  {
    var legacyIds, n := LegacyIds(t.products), |drafts|;
    var targets := AllWent(t, legacyIds, drafts, ids);
    StepsUpdate(t, legacyIds, drafts, ids, targets, n);
    OverwrittenAt(t.products, drafts, targets, n, p);
    if p in Steps(t, legacyIds, drafts, ids, n).added {
      StepsDraw(t, legacyIds, drafts, ids, n, p);
    }
  }

  lemma {:induction false} InsertedKeep(t: Tables, drafts: seq<Draft>, ids: seq<Id>, i: nat)
    requires OneEach(t.products) && i < |drafts| == |ids| && Drawn(ids, t.products)
    ensures var after := Backfilled(t, drafts, ids).products;
            && (ids[i] in after <==> Inserted(t, LegacyIds(t.products), drafts, ids, i))
            && (ids[i] in after ==> after[ids[i]] == NewProduct(drafts[i]))
  {
    var legacyIds, n := LegacyIds(t.products), |drafts|;
    var targets := AllWent(t, legacyIds, drafts, ids);
    StepsUpdate(t, legacyIds, drafts, ids, targets, n);
    OverwrittenAt(t.products, drafts, targets, n, ids[i]);
    StepsInsert(t, legacyIds, drafts, ids, n, i);
  }

  /** Every product after a run was there before or stands under the id drawn for a draft. */
  lemma {:induction false} WhereFrom(t: Tables, drafts: seq<Draft>, ids: seq<Id>, p: Id)
    requires OneEach(t.products) && |drafts| == |ids| && Drawn(ids, t.products)
    requires p in Backfilled(t, drafts, ids).products && p !in t.products
    ensures p in ids
  {
    var legacyIds, n := LegacyIds(t.products), |drafts|;
    var targets := AllWent(t, legacyIds, drafts, ids);
    StepsUpdate(t, legacyIds, drafts, ids, targets, n);
    OverwrittenAt(t.products, drafts, targets, n, p);
    StepsDraw(t, legacyIds, drafts, ids, n, p);
  }

  /** A matched product already in the table is never inserted again. */
  lemma {:induction false} OriginDecides(t: Tables, drafts: seq<Draft>, ids: seq<Id>, p: Id, i: nat)
    requires OneEach(t.products) && i < |drafts| == |ids| && p in t.products
    requires t.products[p].legacy.Some? && SameOrigin(t.products[p], NewProduct(drafts[i]))
    ensures !Inserted(t, LegacyIds(t.products), drafts, ids, i)
  {
    LegacyIdsAt(t.products, p);
  }

  /** Where a row of a run's result comes from: it was stored before (-1), or was inserted for the `i`-th draft. */
  ghost predicate Source(after: map<Id, Product>, t: Tables, drafts: seq<Draft>, ids: seq<Id>, p: Id, i: int)
    requires OneEach(t.products) && |drafts| == |ids| && p in after
  {
    if i < 0 then p in t.products && SameOrigin(after[p], t.products[p])
    else i < |ids| && p == ids[i] && after[p] == NewProduct(drafts[i])
         && Inserted(t, LegacyIds(t.products), drafts, ids, i)
  }

  lemma {:induction false} RowSource(t: Tables, drafts: seq<Draft>, ids: seq<Id>, p: Id) returns (i: int)
    requires OneEach(t.products) && |drafts| == |ids| && Drawn(ids, t.products)
    requires p in Backfilled(t, drafts, ids).products
    ensures Source(Backfilled(t, drafts, ids).products, t, drafts, ids, p, i)
  {
    if p in t.products {
      StoredKeep(t, drafts, ids, p);
      i := -1;
    } else {
      WhereFrom(t, drafts, ids, p);
      i :| 0 <= i < |ids| && ids[i] == p;
      InsertedKeep(t, drafts, ids, i);
    }
  }

  lemma {:induction false} SameOriginSameRow(after: map<Id, Product>, t: Tables, drafts: seq<Draft>, ids: seq<Id>, p: Id, q: Id,
                          i: int, j: int)
    requires OneEach(t.products) && |drafts| == |ids| && DistinctDrafts(drafts) && p in after && q in after
    requires Source(after, t, drafts, ids, p, i) && Source(after, t, drafts, ids, q, j)
    requires after[p].legacy.Some? && SameOrigin(after[p], after[q])
    ensures p == q
  {
    if i < 0 && j >= 0 {
      OriginDecides(t, drafts, ids, p, j);
    } else if i >= 0 && j < 0 {
      OriginDecides(t, drafts, ids, q, i);
    } else if i >= 0 {
      assert drafts[i].key == drafts[j].key;
    }
  }

  lemma {:induction false} RunKeepsOneEach(t: Tables, drafts: seq<Draft>, ids: seq<Id>)
    requires OneEach(t.products) && |drafts| == |ids| && Drawn(ids, t.products) && DistinctDrafts(drafts)
    ensures OneEach(Backfilled(t, drafts, ids).products)
  {
    var after := Backfilled(t, drafts, ids).products;
    forall p, q | p in after && q in after && after[p].legacy.Some? && SameOrigin(after[p], after[q])
      ensures p == q
    {
      var i := RowSource(t, drafts, ids, p);
      var j := RowSource(t, drafts, ids, q);
      SameOriginSameRow(after, t, drafts, ids, p, q, i, j);
    }
  }

  // ---- Owners ----

  /** `p` is, or is about to be, a product of `user`. */
  ghost predicate OwnedBy(p: Id, user: Id, t: Tables, legacyIds: map<DraftKey, Id>, drafts: seq<Draft>, ids: seq<Id>)
    requires |drafts| == |ids|
  {
    || (p in t.products && t.products[p].user == user)
    || exists i :: 0 <= i < |ids| && InsertedFor(p, user, t, legacyIds, drafts, ids, i)
  }

  predicate InsertedFor(p: Id, user: Id, t: Tables, legacyIds: map<DraftKey, Id>, drafts: seq<Draft>, ids: seq<Id>,
                        i: nat)
    requires i < |drafts| == |ids|
  {
    ids[i] == p && drafts[i].key.user == user && Inserted(t, legacyIds, drafts, ids, i)
  }

  ghost predicate AllOwned(known: map<AliasKey, AliasRow>, t: Tables, legacyIds: map<DraftKey, Id>,
                           drafts: seq<Draft>, ids: seq<Id>)
    requires |drafts| == |ids|
  {
    forall k :: k in known ==> OwnedBy(known[k].product, k.user, t, legacyIds, drafts, ids)
  }

  ghost predicate MatchesOwned(legacyIds: map<DraftKey, Id>, t: Tables) {
    forall k :: k in legacyIds ==> legacyIds[k] in t.products && t.products[legacyIds[k]].user == k.user
  }

  /** What an owner's draft leads to is that owner's, if the aliases known so far are. */
  lemma {:induction false} WentHome(t: Tables, legacyIds: map<DraftKey, Id>, drafts: seq<Draft>, ids: seq<Id>, i: nat)
    requires MatchesOwned(legacyIds, t) && i < |drafts| == |ids| && Usable(drafts)
    requires AllOwned(Steps(t, legacyIds, drafts, ids, i).aliases, t, legacyIds, drafts, ids)
    ensures OwnedBy(Went(t, legacyIds, drafts, ids, i), drafts[i].key.user, t, legacyIds, drafts, ids)
  {
    var d := drafts[i];
    var known := Steps(t, legacyIds, drafts, ids, i).aliases;
    var p := Went(t, legacyIds, drafts, ids, i);
    assert d in drafts;
    if Inserted(t, legacyIds, drafts, ids, i) {
      assert InsertedFor(p, d.key.user, t, legacyIds, drafts, ids, i);
    } else if d.key.TextOnly? {
      FirstTargetIn(d.aliases, known);
      var j :| 0 <= j < |d.aliases| && d.aliases[j].key in known && known[d.aliases[j].key].product == p;
      assert d.aliases[j] in d.aliases;
    }
  }

  /** An alias of the next state was known before, or is the draft's and leads where it went. */
  lemma {:induction false} NewAliasAt(t: Tables, legacyIds: map<DraftKey, Id>, drafts: seq<Draft>, ids: seq<Id>, i: nat, k: AliasKey)
    requires i < |drafts| == |ids| && Usable(drafts)
    requires k in Steps(t, legacyIds, drafts, ids, i + 1).aliases
    ensures var (before, after) := (Steps(t, legacyIds, drafts, ids, i).aliases,
                                    Steps(t, legacyIds, drafts, ids, i + 1).aliases);
            if k in before then after[k] == before[k]
            else after[k].product == Went(t, legacyIds, drafts, ids, i) && k.user == drafts[i].key.user
  {
    AddAliasesAt(Steps(t, legacyIds, drafts, ids, i).aliases, drafts[i].aliases,
                 Went(t, legacyIds, drafts, ids, i), k);
    assert drafts[i] in drafts;
  }

  lemma {:induction false} OwnedStep(t: Tables, legacyIds: map<DraftKey, Id>, drafts: seq<Draft>, ids: seq<Id>, i: nat)
    requires MatchesOwned(legacyIds, t) && i < |drafts| == |ids| && Usable(drafts)
    requires AllOwned(Steps(t, legacyIds, drafts, ids, i).aliases, t, legacyIds, drafts, ids)
    ensures AllOwned(Steps(t, legacyIds, drafts, ids, i + 1).aliases, t, legacyIds, drafts, ids)
  {
    WentHome(t, legacyIds, drafts, ids, i);
    var before := Steps(t, legacyIds, drafts, ids, i).aliases;
    var after := Steps(t, legacyIds, drafts, ids, i + 1).aliases;
    forall k | k in after ensures OwnedBy(after[k].product, k.user, t, legacyIds, drafts, ids) {
      NewAliasAt(t, legacyIds, drafts, ids, i, k);
      if k in before { assert OwnedBy(before[k].product, k.user, t, legacyIds, drafts, ids); }
    }
  }

  lemma {:induction false} AliasesOwned(t: Tables, legacyIds: map<DraftKey, Id>, drafts: seq<Draft>, ids: seq<Id>, n: nat)
    requires MatchesOwned(legacyIds, t) && n <= |drafts| == |ids| && Usable(drafts)
    requires AllOwned(t.aliases, t, legacyIds, drafts, ids)
    ensures AllOwned(Steps(t, legacyIds, drafts, ids, n).aliases, t, legacyIds, drafts, ids)
  {
    if n == 0 {
      assert Steps(t, legacyIds, drafts, ids, n).aliases == t.aliases;
    } else {
      var m := n - 1;
      AliasesOwned(t, legacyIds, drafts, ids, m);
      OwnedStep(t, legacyIds, drafts, ids, m);
    }
  }

  lemma {:induction false} AliasesLeadHome(t: Tables, drafts: seq<Draft>, ids: seq<Id>)
    requires Valid(t) && |drafts| == |ids| && Usable(drafts)
    ensures AllOwned(Backfilled(t, drafts, ids).aliases, t, LegacyIds(t.products), drafts, ids)
  {
    var legacyIds := LegacyIds(t.products);
    forall k | k in legacyIds ensures legacyIds[k] in t.products && t.products[legacyIds[k]].user == k.user {
      LegacyIdsFrom(t.products, k);
    }
    forall k | k in t.aliases ensures OwnedBy(t.aliases[k].product, k.user, t, legacyIds, drafts, ids) {
      assert LeadsHome(k, t.aliases[k].product, t.products);
    }
    AliasesOwned(t, legacyIds, drafts, ids, |drafts|);
  }

  lemma {:induction false} OwnedIsHome(t: Tables, drafts: seq<Draft>, ids: seq<Id>, p: Id, user: Id)
    requires OneEach(t.products) && |drafts| == |ids| && Drawn(ids, t.products)
    requires OwnedBy(p, user, t, LegacyIds(t.products), drafts, ids)
    ensures var after := Backfilled(t, drafts, ids).products; p in after && after[p].user == user
  {
    if p in t.products {
      StoredKeep(t, drafts, ids, p);
    }
    if !(p in t.products && t.products[p].user == user) {
      var i :| 0 <= i < |ids| && InsertedFor(p, user, t, LegacyIds(t.products), drafts, ids, i);
      InsertedKeep(t, drafts, ids, i);
    }
  }

  /** A run keeps the keys of the tables, and every alias leads to a product of its own owner. */
  lemma {:induction false} RunKeepsValid(t: Tables, drafts: seq<Draft>, ids: seq<Id>)
    requires Valid(t) && |drafts| == |ids| && Drawn(ids, t.products) && Usable(drafts) && DistinctDrafts(drafts)
    ensures Valid(Backfilled(t, drafts, ids))
  {
    var after := Backfilled(t, drafts, ids);
    RunKeepsOneEach(t, drafts, ids);
    AliasesLeadHome(t, drafts, ids);
    forall k | k in after.aliases ensures LeadsHome(k, after.aliases[k].product, after.products) {
      OwnedIsHome(t, drafts, ids, after.aliases[k].product, k.user);
    }
  }

  // ---- Running it again ----

  /** Every draft leads to a stored product, the one in `targets`, and all its aliases are known. */
  ghost predicate Settled(t: Tables, drafts: seq<Draft>, targets: seq<Id>)
    requires OneEach(t.products)
  {
    && |targets| == |drafts|
    && forall i :: 0 <= i < |drafts| ==> SettledAt(t, drafts[i], targets[i])
  }

  ghost predicate SettledAt(t: Tables, d: Draft, p: Id)
    requires OneEach(t.products)
  {
    && Target(t, d) == Some(p) && p in t.products
    && forall a :: a in d.aliases ==> a.key in t.aliases
  }

  lemma {:induction false} TextSettles(t: Tables, drafts: seq<Draft>, ids: seq<Id>, i: nat)
    requires OneEach(t.products) && i < |drafts| == |ids|
    requires drafts[i].key.TextOnly? && drafts[i].aliases != []
    ensures FirstTarget(drafts[i].aliases, Backfilled(t, drafts, ids).aliases)
            == Some(Went(t, LegacyIds(t.products), drafts, ids, i))
    ensures drafts[i].aliases[0].key in Backfilled(t, drafts, ids).aliases
  {
    var legacyIds, d := LegacyIds(t.products), drafts[i];
    FirstAliasLeads(d, Steps(t, legacyIds, drafts, ids, i).aliases, ids[i]);
    AliasesGrow(t, legacyIds, drafts, ids, i + 1, |drafts|, d.aliases[0].key);
  }

  lemma {:induction false} MatchSettles(t: Tables, drafts: seq<Draft>, ids: seq<Id>, i: nat)
    requires OneEach(t.products) && i < |drafts| == |ids| && Drawn(ids, t.products) && DistinctDrafts(drafts)
    requires drafts[i].key.Matched?
    ensures var after := Backfilled(t, drafts, ids).products;
            var p := Went(t, LegacyIds(t.products), drafts, ids, i);
            && OneEach(after) && p in after
            && drafts[i].key in LegacyIds(after) && LegacyIds(after)[drafts[i].key] == p
  {
    var legacyIds, d := LegacyIds(t.products), drafts[i];
    RunKeepsOneEach(t, drafts, ids);
    if d.key in legacyIds {
      LegacyIdsFrom(t.products, d.key);
      StoredKeep(t, drafts, ids, legacyIds[d.key]);
      LegacyIdsAt(Backfilled(t, drafts, ids).products, legacyIds[d.key]);
    } else {
      InsertedKeep(t, drafts, ids, i);
      LegacyIdsAt(Backfilled(t, drafts, ids).products, ids[i]);
    }
  }

  lemma {:induction false} DraftSettles(t: Tables, drafts: seq<Draft>, ids: seq<Id>, i: nat)
    requires Valid(t) && i < |drafts| == |ids| && Drawn(ids, t.products) && Usable(drafts) && DistinctDrafts(drafts)
    ensures Valid(Backfilled(t, drafts, ids))
    ensures SettledAt(Backfilled(t, drafts, ids), drafts[i], Went(t, LegacyIds(t.products), drafts, ids, i))
  {
    var d, after := drafts[i], Backfilled(t, drafts, ids);
    RunKeepsValid(t, drafts, ids);
    assert d in drafts;
    forall a | a in d.aliases ensures a.key in after.aliases {
      assert HasAlias(d.aliases, a.key);
      AliasesGrow(t, LegacyIds(t.products), drafts, ids, i, |drafts|, a.key);
    }
    if d.key.TextOnly? {
      TextSettles(t, drafts, ids, i);
      var k := d.aliases[0].key;
      assert LeadsHome(k, after.aliases[k].product, after.products);
    } else {
      MatchSettles(t, drafts, ids, i);
    }
  }

  lemma {:induction false} AddKnown(known: map<AliasKey, AliasRow>, aliases: seq<Alias>, p: Id)
    requires forall a :: a in aliases ==> a.key in known
    ensures AddAliases(known, aliases, p) == known
  {
    if aliases != [] { AddKnown(known, aliases[..|aliases| - 1], p); }
  }

  lemma {:induction false} SettledStep(w: Work, d: Draft, legacyIds: map<DraftKey, Id>, id: Id, p: Id)
    requires ResolveExistingId(d, legacyIds, w.aliases) == Some(p)
    requires forall a :: a in d.aliases ==> a.key in w.aliases
    ensures Step(w, d, legacyIds, id) == w.(products := Overwrite(w.products, p, d))
  {
    AddKnown(w.aliases, d.aliases, p);
  }

  lemma {:induction false} SettledSteps(t: Tables, drafts: seq<Draft>, ids: seq<Id>, targets: seq<Id>, n: nat)
    requires OneEach(t.products) && n <= |drafts| == |ids| && Settled(t, drafts, targets)
    ensures Steps(t, LegacyIds(t.products), drafts, ids, n)
            == Work(Overwritten(t.products, drafts, targets, n), map[], t.aliases)
  {
    if n > 0 {
      var legacyIds := LegacyIds(t.products);
      SettledSteps(t, drafts, ids, targets, n - 1);
      var w := Steps(t, legacyIds, drafts, ids, n - 1);
      assert SettledAt(t, drafts[n - 1], targets[n - 1]);
      SettledStep(w, drafts[n - 1], legacyIds, ids[n - 1], targets[n - 1]);
    }
  }

  /** On settled tables a run only writes figures, those of the last draft that leads to each product. */
  lemma {:induction false} SettledRun(t: Tables, drafts: seq<Draft>, ids: seq<Id>, targets: seq<Id>)
    requires OneEach(t.products) && |drafts| == |ids| && Settled(t, drafts, targets)
    ensures Backfilled(t, drafts, ids) == Tables(Overwritten(t.products, drafts, targets, |drafts|), t.aliases)
  {
    SettledSteps(t, drafts, ids, targets, |drafts|);
  }

  lemma {:induction false} OverwrittenTwice(products: map<Id, Product>, drafts: seq<Draft>, targets: seq<Id>)
    requires |drafts| == |targets|
    ensures var once := Overwritten(products, drafts, targets, |drafts|);
            Overwritten(once, drafts, targets, |drafts|) == once
  {
    var n := |drafts|;
    var once := Overwritten(products, drafts, targets, n);
    var twice := Overwritten(once, drafts, targets, n);
    forall p ensures (p in twice <==> p in once) && (p in once ==> twice[p] == once[p]) {
      OverwrittenAt(products, drafts, targets, n, p);
      OverwrittenAt(once, drafts, targets, n, p);
    }
  }

  lemma {:induction false} SettledStays(t: Tables, drafts: seq<Draft>, targets: seq<Id>)
    requires OneEach(t.products) && Settled(t, drafts, targets)
    ensures var after := Tables(Overwritten(t.products, drafts, targets, |drafts|), t.aliases);
            OneEach(after.products) && Settled(after, drafts, targets)
  {
    var products := Overwritten(t.products, drafts, targets, |drafts|);
    forall p ensures && (p in products <==> p in t.products)
                     && (p in products ==> SameOrigin(products[p], t.products[p]))
    {
      OverwrittenAt(t.products, drafts, targets, |drafts|, p);
    }
    assert LegacyIds(products) == LegacyIds(t.products);
    forall i | 0 <= i < |drafts| ensures SettledAt(Tables(products, t.aliases), drafts[i], targets[i]) {
      assert SettledAt(t, drafts[i], targets[i]);
    }
  }

  // ---- Main results ----

  /** The tables after a run over `lines`. */
  function Run(t: Tables, lines: seq<Line>, ids: seq<Id>): Tables
    requires OneEach(t.products) && |ids| == |Collected(lines)|
  {
    Backfilled(t, Collected(lines), ids)
  }

  /** Where each draft of the lines went. */
  function Targets(t: Tables, lines: seq<Line>, ids: seq<Id>): (targets: seq<Id>)
    requires OneEach(t.products) && |ids| == |Collected(lines)|
    ensures |targets| == |ids|
  {
    AllWent(t, LegacyIds(t.products), Collected(lines), ids)
  }

  lemma {:induction false} RunSettles(t: Tables, lines: seq<Line>, ids: seq<Id>)
    requires Valid(t) && |ids| == |Collected(lines)| && Drawn(ids, t.products)
    ensures Valid(Run(t, lines, ids)) && Settled(Run(t, lines, ids), Collected(lines), Targets(t, lines, ids))
  {
    var drafts := Collected(lines);
    CollectedUsable(lines);
    RunKeepsValid(t, drafts, ids);
    forall i | 0 <= i < |drafts| ensures SettledAt(Run(t, lines, ids), drafts[i], Targets(t, lines, ids)[i]) {
      DraftSettles(t, drafts, ids, i);
    }
  }

  predicate SameIdentity(x: Product, y: Product) {
    x.user == y.user && x.legacy == y.legacy && x.name == y.name
  }

  /** The line's text is an alias in its store, of a product of its owner; a matched line's product is there. */
  ghost predicate Catalogued(l: Line, t: Tables) {
    && AliasOf(l) in t.aliases && LeadsHome(AliasOf(l), t.aliases[AliasOf(l)].product, t.products)
    && (l.product.Some? ==> exists p :: p in t.products && t.products[p].user == l.user && t.products[p].legacy == l.product)
  }

  lemma {:induction false} DraftOfLine(lines: seq<Line>, l: Line) returns (i: nat)
    requires l in lines
    ensures i < |Collected(lines)| && Collected(lines)[i].key == KeyOf(l)
    ensures HasAlias(Collected(lines)[i].aliases, AliasOf(l))
  {
    DraftsTally(lines);
    i :| 0 <= i < |Collected(lines)| && Collected(lines)[i].key == KeyOf(l);
    assert Collected(lines)[i] in Collected(lines) && l in OfKey(lines, KeyOf(l));
  }

  lemma {:induction false} SettledCatalogues(t: Tables, d: Draft, p: Id, l: Line)
    requires Valid(t) && SettledAt(t, d, p) && d.key == KeyOf(l) && HasAlias(d.aliases, AliasOf(l))
    ensures Catalogued(l, t)
  {
    var j :| 0 <= j < |d.aliases| && d.aliases[j].key == AliasOf(l);
    assert d.aliases[j] in d.aliases;
    if l.product.Some? { LegacyIdsFrom(t.products, d.key); }
  }

  lemma {:induction false} LineIsCatalogued(t: Tables, lines: seq<Line>, ids: seq<Id>, l: Line)
    requires Valid(t) && |ids| == |Collected(lines)| && Drawn(ids, t.products) && l in lines
    ensures Catalogued(l, Run(t, lines, ids))
  {
    var i := DraftOfLine(lines, l);
    RunSettles(t, lines, ids);
    SettledCatalogues(Run(t, lines, ids), Collected(lines)[i], Targets(t, lines, ids)[i], l);
  }

  /** A run keeps every row but for its figures, and catalogues every line for its owner. */
  lemma {:induction false} RunKeeps(t: Tables, lines: seq<Line>, ids: seq<Id>)
    requires Valid(t) && |ids| == |Collected(lines)| && Drawn(ids, t.products)
    ensures var after := Run(t, lines, ids);
            && Valid(after)
            && (forall p :: p in t.products ==> p in after.products && SameIdentity(after.products[p], t.products[p]))
            && (forall k :: k in t.aliases ==> k in after.aliases && after.aliases[k] == t.aliases[k])
            && forall l :: l in lines ==> Catalogued(l, after)
  {
    var drafts, after := Collected(lines), Run(t, lines, ids);
    RunSettles(t, lines, ids);
    forall p | p in t.products ensures p in after.products && SameIdentity(after.products[p], t.products[p]) {
      StoredKeep(t, drafts, ids, p);
    }
    forall k | k in t.aliases ensures k in after.aliases && after.aliases[k] == t.aliases[k] {
      AliasesGrow(t, LegacyIds(t.products), drafts, ids, 0, |drafts|, k);
    }
    forall l | l in lines ensures Catalogued(l, after) {
      LineIsCatalogued(t, lines, ids, l);
    }
  }

  /** Running again on the same lines inserts nothing: the same products and aliases, at most new figures. */
  lemma {:induction false} RerunInsertsNothing(t: Tables, lines: seq<Line>, ids: seq<Id>, more: seq<Id>)
    requires Valid(t) && |ids| == |more| == |Collected(lines)| && Drawn(ids, t.products)
    ensures OneEach(Run(t, lines, ids).products)
    ensures var first := Run(t, lines, ids);
            var again := Run(first, lines, more);
            && again.aliases == first.aliases && again.products.Keys == first.products.Keys
            && forall p :: p in first.products ==> SameIdentity(again.products[p], first.products[p])
  {
    var drafts, first, targets := Collected(lines), Run(t, lines, ids), Targets(t, lines, ids);
    RunSettles(t, lines, ids);
    SettledRun(first, drafts, more, targets);
    forall p ensures && (p in Run(first, lines, more).products <==> p in first.products)
                     && (p in first.products ==> SameIdentity(Run(first, lines, more).products[p], first.products[p]))
    {
      OverwrittenAt(first.products, drafts, targets, |drafts|, p);
    }
  }

  /** From the second run on nothing changes any more. */
  lemma {:induction false} ThirdRunChangesNothing(t: Tables, lines: seq<Line>, ids: seq<Id>, more: seq<Id>, yetMore: seq<Id>)
    requires Valid(t) && |ids| == |more| == |yetMore| == |Collected(lines)| && Drawn(ids, t.products)
    ensures OneEach(Run(t, lines, ids).products)
    ensures OneEach(Run(Run(t, lines, ids), lines, more).products)
    ensures var again := Run(Run(t, lines, ids), lines, more);
            Run(again, lines, yetMore) == again
  {
    var drafts, first, targets := Collected(lines), Run(t, lines, ids), Targets(t, lines, ids);
    RunSettles(t, lines, ids);
    SettledRun(first, drafts, more, targets);
    SettledStays(first, drafts, targets);
    SettledRun(Run(first, lines, more), drafts, yetMore, targets);
    OverwrittenTwice(first.products, drafts, targets);
  }

  /** The last draft that leads to `p` carries the figures `p` has. */
  ghost predicate LastAgrees(p: Id, products: map<Id, Product>, drafts: seq<Draft>, targets: seq<Id>)
    requires p in products && |drafts| == |targets|
  {
    var j := LastFor(targets, p, |targets|);
    j < 0 || SameFigures(products[p], drafts[j])
  }

  lemma {:induction false} OverwrittenIsSameIff(products: map<Id, Product>, drafts: seq<Draft>, targets: seq<Id>)
    requires |drafts| == |targets|
    ensures Overwritten(products, drafts, targets, |drafts|) == products
            <==> forall p :: p in products ==> LastAgrees(p, products, drafts, targets)
  {
    var again := Overwritten(products, drafts, targets, |drafts|);
    forall p ensures (p in again <==> p in products)
                     && (p in products ==> (again[p] == products[p] <==> LastAgrees(p, products, drafts, targets)))
    {
      OverwrittenAt(products, drafts, targets, |drafts|, p);
    }
    if again == products {
    } else if forall p :: p in products ==> LastAgrees(p, products, drafts, targets) {
      assert forall p :: p in products ==> again[p] == products[p];
    }
  }

  lemma {:induction false} StoredAgrees(t: Tables, drafts: seq<Draft>, ids: seq<Id>, p: Id)
    requires OneEach(t.products) && |drafts| == |ids| && Drawn(ids, t.products)
    requires p in Backfilled(t, drafts, ids).products && p !in ids
    ensures LastAgrees(p, Backfilled(t, drafts, ids).products, drafts, AllWent(t, LegacyIds(t.products), drafts, ids))
  {
    if p !in t.products { WhereFrom(t, drafts, ids, p); }
    StoredKeep(t, drafts, ids, p);
  }

  /** In terms of the first run: nothing changes exactly when, for each product it inserted, the last draft that led to
      the product carries the figures of the draft it was made from. */
  lemma {:induction false} LastDraftDecides(t: Tables, lines: seq<Line>, ids: seq<Id>, more: seq<Id>)
    requires Valid(t) && |ids| == |more| == |Collected(lines)| && Drawn(ids, t.products)
    ensures OneEach(Run(t, lines, ids).products)
    ensures Run(Run(t, lines, ids), lines, more) == Run(t, lines, ids) <==>
            forall i :: 0 <= i < |ids| && ids[i] in Run(t, lines, ids).products ==>
              var j := LastFor(Targets(t, lines, ids), ids[i], |ids|);
              j >= 0 && SameFigures(NewProduct(Collected(lines)[i]), Collected(lines)[j])
  {
    var drafts, first, targets := Collected(lines), Run(t, lines, ids), Targets(t, lines, ids);
    RunSettles(t, lines, ids);
    SettledRun(first, drafts, more, targets);
    OverwrittenIsSameIff(first.products, drafts, targets);
    forall p | p in first.products && p !in ids ensures LastAgrees(p, first.products, drafts, targets) {
      StoredAgrees(t, drafts, ids, p);
    }
    forall i | 0 <= i < |ids| && ids[i] in first.products
      ensures first.products[ids[i]] == NewProduct(drafts[i]) && LastFor(targets, ids[i], |ids|) >= 0
    {
      InsertedKeep(t, drafts, ids, i);
      assert targets[i] == ids[i];
    }
  }

  // ---- A rerun that changes a figure ----

  lemma {:induction false} AddedToFew(d: Draft, l: Line)
    ensures Added([], l) == [AddLine(NewDraft(KeyOf(l)), l)]
    ensures Added([d], l) == if d.key == KeyOf(l) then [AddLine(d, l)] else [d, AddLine(NewDraft(KeyOf(l)), l)]
  {
    var one, at := [d], IndexOf([d], KeyOf(l));
    assert one[0].key == d.key;
    assert at == 0 <==> d.key == KeyOf(l);
  }

  lemma {:induction false} CollectedPush(lines: seq<Line>, l: Line, drafts: seq<Draft>)
    requires Collected(lines) == drafts
    ensures Collected(lines + [l]) == Added(drafts, l)
  {
    assert (lines + [l])[..|lines|] == lines;
  }

  lemma {:induction false} TwiceThenOther(a: Line, b: Line)
    requires KeyOf(a) != KeyOf(b)
    ensures Collected([] + [a] + [a] + [b])
            == [AddLine(AddLine(NewDraft(KeyOf(a)), a), a), AddLine(NewDraft(KeyOf(b)), b)]
  {
    var one := AddLine(NewDraft(KeyOf(a)), a);
    var two := AddLine(one, a);
    AddedToFew(one, a);
    AddedToFew(two, b);
    CollectedPush([], a, []);
    CollectedPush([] + [a], a, [one]);
    CollectedPush([] + [a] + [a], b, [two]);
  }

  lemma {:induction false} AddedTwice(l: Line)
    ensures var once := AddLine(NewDraft(KeyOf(l)), l);
            && once.count == 1 && once.aliases == [Alias(AliasOf(l), l.raw)]
            && AddLine(once, l).count == 2 && AddLine(once, l).aliases == once.aliases
  {
    var once := AddLine(NewDraft(KeyOf(l)), l);
    assert once.aliases == [Alias(AliasOf(l), l.raw)];
    assert once.aliases[0].key == AliasOf(l);
  }

  lemma {:induction false} OneAlias(known: map<AliasKey, AliasRow>, a: Alias, p: Id)
    ensures AddAliases(known, [a], p) == if a.key in known then known else known[a.key := AliasRow(p, a.raw)]
  {
    var one := [a];
    assert one[..|one| - 1] == [] && AddAliases(known, one[..|one| - 1], p) == known;
  }

  lemma {:induction false} TwoSteps(t: Tables, legacyIds: map<DraftKey, Id>, drafts: seq<Draft>, ids: seq<Id>, n: nat)
    requires n == |drafts| == |ids| == 2
    ensures var one := Step(Work(t.products, map[], t.aliases), drafts[0], legacyIds, ids[0]);
            Steps(t, legacyIds, drafts, ids, n) == Step(one, drafts[1], legacyIds, ids[1])
  {
    assert Steps(t, legacyIds, drafts, ids, n - 1)
        == Step(Steps(t, legacyIds, drafts, ids, n - 2), drafts[n - 2], legacyIds, ids[n - 2]);
  }

  /** A matched draft is inserted, and a text with the same alias is led to it before it is stored. */
  lemma {:induction false} TextFollowsMatch(t: Tables, d: Draft, e: Draft, a: Alias, p: Id, q: Id)
    requires t.products == map[] && t.aliases == map[]
    requires d.key.Matched? && e.key.TextOnly? && d.aliases == e.aliases == [a]
    ensures Backfilled(t, [d, e], [p, q]) == Tables(map[p := NewProduct(d)], map[a.key := AliasRow(p, a.raw)])
  {
    var legacyIds := LegacyIds(t.products);
    assert legacyIds == map[];
    TwoSteps(t, legacyIds, [d, e], [p, q], 2);
    OneAlias(t.aliases, a, p);
    var one := Step(Work(t.products, map[], t.aliases), d, legacyIds, p);
    assert one == Work(map[], map[p := NewProduct(d)], map[a.key := AliasRow(p, a.raw)]);
    OneAlias(one.aliases, a, p);
    assert Step(one, e, legacyIds, q) == one;
  }

  lemma {:induction false} MatchLosesFigures(t: Tables, d: Draft, e: Draft, a: Alias, p: Id, more: seq<Id>)
    requires d.key.Matched? && e.key.TextOnly? && d.aliases == e.aliases == [a] && |more| == 2
    requires t == Tables(map[p := NewProduct(d)], map[a.key := AliasRow(p, a.raw)])
    ensures OneEach(t.products)
    ensures Backfilled(t, [d, e], more).products == map[p := NewProduct(d).(count := e.count, last := e.last)]
  {
    var drafts, targets := [d, e], [p, p];
    LegacyIdsAt(t.products, p);
    assert SettledAt(t, d, p) && SettledAt(t, e, p);
    SettledRun(t, drafts, more, targets);
    assert Overwritten(t.products, drafts, targets, 1) == t.products;
  }

  /** Anything bought twice under a match, and then in the same store as the same text without one: the first run
      counts two purchases of the product, the second one. */
  lemma {:induction false} RerunCanChange(matched: Line, bare: Line, p: Id, q: Id, more: seq<Id>)
    requires matched.product.Some? && bare == matched.(product := None) && |more| == 2
    ensures |Collected([] + [matched] + [matched] + [bare])| == 2
    ensures var lines := [] + [matched] + [matched] + [bare];
            var first := Run(Tables(map[], map[]), lines, [p, q]);
            && OneEach(first.products) && p in first.products && first.products[p].count == 2
            && var again := Run(first, lines, more);
               p in again.products && again.products[p].count == 1
  {
    var once := AddLine(NewDraft(KeyOf(matched)), matched);
    var d, e := AddLine(once, matched), AddLine(NewDraft(KeyOf(bare)), bare);
    var a := Alias(AliasOf(matched), matched.raw);
    TwiceThenOther(matched, bare);
    AddedTwice(matched);
    AddedTwice(bare);
    TextFollowsMatch(Tables(map[], map[]), d, e, a, p, q);
    MatchLosesFigures(Tables(map[p := NewProduct(d)], map[a.key := AliasRow(p, a.raw)]), d, e, a, p, more);
  }
}
