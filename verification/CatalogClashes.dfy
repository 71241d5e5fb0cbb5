/** Which receipts make a rerun of the backfill change a figure, read off the tables and the lines given to it. */
module CatalogClashes {
  import opened Basics
  import opened CatalogBackfill
  import opened CatalogReruns

  // ---- The condition ----

  /** The shared product has no private counterpart yet. */
  predicate IsNewMatch(t: Tables, d: Draft)
    requires OneEach(t.products)
  {
    d.key.Matched? && d.key !in LegacyIds(t.products)
  }

  /** The alias is stored already, or an earlier draft has it. */
  predicate KnownBefore(t: Tables, drafts: seq<Draft>, j: nat, k: AliasKey)
    requires j <= |drafts|
  {
    k in t.aliases || exists i :: 0 <= i < j && HasAlias(drafts[i].aliases, k)
  }

  /** The alias is not stored, and draft `i` is the first to have it. */
  predicate FirstHolder(t: Tables, drafts: seq<Draft>, k: AliasKey, i: nat)
    requires i < |drafts|
  {
    k !in t.aliases && HasAlias(drafts[i].aliases, k) && forall h :: 0 <= h < i ==> !HasAlias(drafts[h].aliases, k)
  }

  /** The first alias of the bare text `j` that is known is one that draft `i` brought. */
  predicate Joins(t: Tables, drafts: seq<Draft>, j: nat, i: nat)
    requires OneEach(t.products) && i < |drafts| && j < |drafts|
  {
    && i < j && drafts[j].key.TextOnly? && IsNewMatch(t, drafts[i])
    && exists x :: 0 <= x < |drafts[j].aliases| && JoinsBy(t, drafts, j, i, x)
  }

  predicate JoinsBy(t: Tables, drafts: seq<Draft>, j: nat, i: nat, x: nat)
    requires i < |drafts| && j < |drafts| && x < |drafts[j].aliases|
  {
    && FirstHolder(t, drafts, drafts[j].aliases[x].key, i)
    && forall y :: 0 <= y < x ==> !KnownBefore(t, drafts, j, drafts[j].aliases[y].key)
  }

  /** Of the bare texts that join the new product of draft `i`, `j` is the last. */
  predicate JoinsLast(t: Tables, drafts: seq<Draft>, j: nat, i: nat)
    requires OneEach(t.products) && i < |drafts| && j < |drafts|
  {
    Joins(t, drafts, j, i) && forall k :: j < k < |drafts| ==> !Joins(t, drafts, k, i)
  }

  // ---- Where aliases lead ----

  /** After `n` drafts exactly the stored aliases and those of the drafts are known. */
  lemma {:induction false} AliasKnown(t: Tables, legacyIds: map<DraftKey, Id>, drafts: seq<Draft>, ids: seq<Id>, n: nat, k: AliasKey)
    requires n <= |drafts| == |ids|
    ensures k in Steps(t, legacyIds, drafts, ids, n).aliases <==> KnownBefore(t, drafts, n, k)
  {
    if n > 0 {
      AliasKnown(t, legacyIds, drafts, ids, n - 1, k);
      AddAliasesAt(Steps(t, legacyIds, drafts, ids, n - 1).aliases, drafts[n - 1].aliases,
                   Went(t, legacyIds, drafts, ids, n - 1), k);
    }
  }

  /** A new alias leads where the first draft that has it went, a stored one where it did before. */
  lemma {:induction false} AliasLeads(t: Tables, legacyIds: map<DraftKey, Id>, drafts: seq<Draft>, ids: seq<Id>, n: nat, k: AliasKey, i: nat)
    requires i < n <= |drafts| == |ids| && FirstHolder(t, drafts, k, i)
    ensures var known := Steps(t, legacyIds, drafts, ids, n).aliases;
            k in known && known[k].product == Went(t, legacyIds, drafts, ids, i)
    decreases n
  {
    if i < n - 1 { AliasLeads(t, legacyIds, drafts, ids, n - 1, k, i); } else { AliasKnown(t, legacyIds, drafts, ids, i, k); }
    AddAliasesAt(Steps(t, legacyIds, drafts, ids, n - 1).aliases, drafts[n - 1].aliases,
                 Went(t, legacyIds, drafts, ids, n - 1), k);
  }

  lemma {:induction false} FindHolder(t: Tables, drafts: seq<Draft>, n: nat, k: AliasKey) returns (i: nat)
    requires n <= |drafts| && KnownBefore(t, drafts, n, k) && k !in t.aliases
    ensures i < n && FirstHolder(t, drafts, k, i)
  {
    if KnownBefore(t, drafts, n - 1, k) {
      i := FindHolder(t, drafts, n - 1, k);
    } else {
      i := n - 1;
    }
  }

  /** The first of the aliases that is known. */
  lemma {:induction false} FirstKnown(aliases: seq<Alias>, known: map<AliasKey, AliasRow>) returns (x: nat)
    requires FirstTarget(aliases, known).Some?
    ensures x < |aliases| && aliases[x].key in known && known[aliases[x].key].product == FirstTarget(aliases, known).value
    ensures forall y :: 0 <= y < x ==> aliases[y].key !in known
  {
    if aliases[0].key in known {
      x := 0;
    } else {
      var z := FirstKnown(aliases[1..], known);
      x := z + 1;
      assert forall y :: 0 < y < x ==> aliases[y] == aliases[1..][y - 1];
    }
  }

  lemma {:induction false} FirstKnownIs(aliases: seq<Alias>, known: map<AliasKey, AliasRow>, x: nat)
    requires x < |aliases| && aliases[x].key in known && forall y :: 0 <= y < x ==> aliases[y].key !in known
    ensures FirstTarget(aliases, known) == Some(known[aliases[x].key].product)
  {
    if x > 0 {
      assert aliases[1..][x - 1] == aliases[x];
      assert forall y :: 0 <= y < x - 1 ==> aliases[1..][y] == aliases[y + 1];
      FirstKnownIs(aliases[1..], known, x - 1);
    }
  }

  /** A matched draft leads to the stored counterpart or to the row inserted for it. */
  lemma {:induction false} MatchWent(t: Tables, drafts: seq<Draft>, ids: seq<Id>, i: nat)
    requires OneEach(t.products) && i < |drafts| == |ids| && drafts[i].key.Matched?
    ensures var p := Went(t, LegacyIds(t.products), drafts, ids, i);
            if IsNewMatch(t, drafts[i]) then p == ids[i] && Inserted(t, LegacyIds(t.products), drafts, ids, i)
            else p in t.products && !Inserted(t, LegacyIds(t.products), drafts, ids, i)
  {
    if !IsNewMatch(t, drafts[i]) { LegacyIdsFrom(t.products, drafts[i].key); }
  }

  /** Two bare texts never share an alias. */
  lemma {:induction false} TextsDiffer(drafts: seq<Draft>, i: nat, j: nat, k: AliasKey)
    requires Usable(drafts) && DistinctDrafts(drafts) && i < |drafts| && j < |drafts| && i != j
    requires HasAlias(drafts[i].aliases, k) && HasAlias(drafts[j].aliases, k)
    ensures drafts[i].key.Matched? || drafts[j].key.Matched?
  {
    assert drafts[i] in drafts && drafts[j] in drafts;
    var x :| 0 <= x < |drafts[i].aliases| && drafts[i].aliases[x].key == k;
    var y :| 0 <= y < |drafts[j].aliases| && drafts[j].aliases[y].key == k;
    assert drafts[i].aliases[x] in drafts[i].aliases && drafts[j].aliases[y] in drafts[j].aliases;
    assert Fits(k, drafts[i].key) && Fits(k, drafts[j].key);
  }

  /** A bare text that leads to a row inserted for another draft joins that draft. */
  lemma {:induction false} WentMeansJoins(t: Tables, drafts: seq<Draft>, ids: seq<Id>, j: nat, i: nat)
    requires Valid(t) && i < |drafts| == |ids| && j < |drafts| && i != j && Drawn(ids, t.products)
    requires Usable(drafts) && DistinctDrafts(drafts) && drafts[j].key.TextOnly?
    requires Went(t, LegacyIds(t.products), drafts, ids, j) == ids[i]
    ensures Joins(t, drafts, j, i)
  {
    var legacyIds, d := LegacyIds(t.products), drafts[j];
    var known := Steps(t, legacyIds, drafts, ids, j).aliases;
    assert FirstTarget(d.aliases, known).Some? by { DrawnDiffer(ids, t.products, i, j); }
    var x := FirstKnown(d.aliases, known);
    var k := d.aliases[x].key;
    forall y | 0 <= y < x ensures !KnownBefore(t, drafts, j, d.aliases[y].key) {
      AliasKnown(t, legacyIds, drafts, ids, j, d.aliases[y].key);
    }
    AliasKnown(t, legacyIds, drafts, ids, j, k);
    AliasesGrow(t, legacyIds, drafts, ids, 0, j, k);
    StoredLeadsAway(t, ids, k, i);
    var h := FindHolder(t, drafts, j, k);
    AliasLeads(t, legacyIds, drafts, ids, j, k, h);
    assert HasAlias(d.aliases, k);
    TextsDiffer(drafts, h, j, k);
    MatchWent(t, drafts, ids, h);
    if h != i { DrawnDiffer(ids, t.products, h, i); }
    assert JoinsBy(t, drafts, j, i, x);
  }

  /** A stored alias does not lead to an id that was only drawn. */
  lemma {:induction false} StoredLeadsAway(t: Tables, ids: seq<Id>, k: AliasKey, i: nat)
    requires Valid(t) && i < |ids| && Drawn(ids, t.products)
    ensures k in t.aliases ==> t.aliases[k].product != ids[i]
  {
    assert k in t.aliases ==> LeadsHome(k, t.aliases[k].product, t.products);
  }

  lemma {:induction false} DrawnDiffer(ids: seq<Id>, products: map<Id, Product>, i: nat, j: nat)
    requires Drawn(ids, products) && i < |ids| && j < |ids| && i != j
    ensures ids[i] != ids[j] && ids[i] !in products
  {
  }

  lemma {:induction false} JoinsMeansWent(t: Tables, drafts: seq<Draft>, ids: seq<Id>, j: nat, i: nat)
    requires OneEach(t.products) && i < |drafts| == |ids| && j < |drafts| && Joins(t, drafts, j, i)
    ensures Went(t, LegacyIds(t.products), drafts, ids, j) == ids[i]
  {
    var legacyIds, d := LegacyIds(t.products), drafts[j];
    var known := Steps(t, legacyIds, drafts, ids, j).aliases;
    var x :| 0 <= x < |d.aliases| && JoinsBy(t, drafts, j, i, x);
    forall y | 0 <= y < x ensures d.aliases[y].key !in known {
      assert !KnownBefore(t, drafts, j, d.aliases[y].key);
      AliasKnown(t, legacyIds, drafts, ids, j, d.aliases[y].key);
    }
    AliasLeads(t, legacyIds, drafts, ids, j, d.aliases[x].key, i);
    FirstKnownIs(d.aliases, known, x);
    MatchWent(t, drafts, ids, i);
  }

  /** Another draft leads to the row inserted for draft `i` exactly when it is a bare text that joins it. */
  lemma {:induction false} LeadsThereIff(t: Tables, drafts: seq<Draft>, ids: seq<Id>, j: nat, i: nat)
    requires Valid(t) && i < |drafts| == |ids| && j < |drafts| && i != j && Drawn(ids, t.products)
    requires Usable(drafts) && DistinctDrafts(drafts)
    ensures Went(t, LegacyIds(t.products), drafts, ids, j) == ids[i] <==> Joins(t, drafts, j, i)
  {
    if Joins(t, drafts, j, i) {
      JoinsMeansWent(t, drafts, ids, j, i);
    } else if Went(t, LegacyIds(t.products), drafts, ids, j) == ids[i] {
      if drafts[j].key.TextOnly? {
        WentMeansJoins(t, drafts, ids, j, i);
      } else {
        MatchWent(t, drafts, ids, j);
        DrawnDiffer(ids, t.products, i, j);
      }
    }
  }

  // ---- The main result ----

  /** The last draft that leads to the row inserted for draft `i` is the last bare text that joins it, or `i` itself. */
  lemma {:induction false} LastIsJoin(t: Tables, drafts: seq<Draft>, ids: seq<Id>, targets: seq<Id>, i: nat)
    requires Valid(t) && i < |drafts| == |ids| == |targets| && Drawn(ids, t.products) && Usable(drafts) && DistinctDrafts(drafts)
    requires forall j :: 0 <= j < |ids| ==> targets[j] == Went(t, LegacyIds(t.products), drafts, ids, j)
    requires targets[i] == ids[i]
    ensures var j := LastFor(targets, ids[i], |ids|);
            && j >= i && (j != i ==> JoinsLast(t, drafts, j, i))
            && forall k :: 0 <= k < |ids| && JoinsLast(t, drafts, k, i) ==> k == j
  {
    var j := LastFor(targets, ids[i], |ids|);
    forall k | 0 <= k < |ids| && k != i ensures targets[k] == ids[i] <==> Joins(t, drafts, k, i) {
      LeadsThereIff(t, drafts, ids, k, i);
    }
    if j != i { assert targets[j] == ids[i]; }
    forall k | 0 <= k < |ids| && JoinsLast(t, drafts, k, i) ensures k == j {
      assert targets[k] == ids[i];
    }
  }

  /** The figures of the last bare text that joins a new product are the product's own. */
  predicate NoClash(t: Tables, drafts: seq<Draft>)
    requires OneEach(t.products)
  {
    forall i, j :: 0 <= i < j < |drafts| && JoinsLast(t, drafts, j, i) ==>
      drafts[i].count == drafts[j].count && drafts[i].last == drafts[j].last
  }

  lemma {:induction false} JoinedIsInserted(t: Tables, drafts: seq<Draft>, ids: seq<Id>, i: nat, j: nat)
    requires OneEach(t.products) && |drafts| == |ids| && Drawn(ids, t.products) && i < |ids| && j < |ids| && Joins(t, drafts, j, i)
    ensures ids[i] in Backfilled(t, drafts, ids).products && Went(t, LegacyIds(t.products), drafts, ids, i) == ids[i]
  {
    MatchWent(t, drafts, ids, i);
    InsertedKeep(t, drafts, ids, i);
  }

  lemma {:induction false} InsertedWent(t: Tables, drafts: seq<Draft>, ids: seq<Id>, i: nat)
    requires OneEach(t.products) && i < |drafts| == |ids| && Drawn(ids, t.products)
    requires ids[i] in Backfilled(t, drafts, ids).products
    ensures Went(t, LegacyIds(t.products), drafts, ids, i) == ids[i]
  {
    InsertedKeep(t, drafts, ids, i);
  }

  /** A second run over the same lines changes nothing if and only if no matched draft without a stored product is
      joined, last, by a bare text with another count or day. */
  lemma {:induction false} RerunChangesNothingIff(t: Tables, lines: seq<Line>, ids: seq<Id>, more: seq<Id>)
    requires Valid(t) && |ids| == |more| == |Collected(lines)| && Drawn(ids, t.products)
    ensures OneEach(Run(t, lines, ids).products)
    ensures Run(Run(t, lines, ids), lines, more) == Run(t, lines, ids) <==> NoClash(t, Collected(lines))
  {
    var drafts, targets, first := Collected(lines), Targets(t, lines, ids), Run(t, lines, ids);
    CollectedUsable(lines);
    LastDraftDecides(t, lines, ids, more);
    if NoClash(t, drafts) {
      forall i | 0 <= i < |ids| && ids[i] in first.products
        ensures var j := LastFor(targets, ids[i], |ids|); j >= 0 && SameFigures(NewProduct(drafts[i]), drafts[j])
      {
        InsertedWent(t, drafts, ids, i);
        LastIsJoin(t, drafts, ids, targets, i);
      }
    }
    if Run(first, lines, more) == first {
      forall i, j | 0 <= i < j < |drafts| && JoinsLast(t, drafts, j, i)
        ensures drafts[i].count == drafts[j].count && drafts[i].last == drafts[j].last
      {
        JoinedIsInserted(t, drafts, ids, i, j);
        LastIsJoin(t, drafts, ids, targets, i);
      }
    }
  }
}
