/** Stable sorting, filtering and extremes of sequences, as far as a reordering of the input can show. */
module Sorting {
  /** A sort key of up to three parts; a later part decides between equal earlier parts. */
  datatype Key = Key(major: int, minor: int, last: int := 0) {
    predicate Before(other: Key) {
      || major < other.major
      || (major == other.major && (minor < other.minor || (minor == other.minor && last < other.last)))
    }
  }

  ghost predicate Ordered<T(!new)>(s: seq<T>, key: T -> Key) {
    forall i, j :: 0 <= i < j < |s| ==> !key(s[j]).Before(key(s[i]))
  }

  /** Equal keys belong to equal elements. */
  ghost predicate DistinctKeys<T(!new)>(s: seq<T>, key: T -> Key) {
    forall x, y :: x in s && y in s && key(x) == key(y) ==> x == y
  }

  function Filter<T(!new)>(s: seq<T>, keep: T -> bool): (r: seq<T>)
    ensures |r| <= |s|
  {
    if s == [] then []
    else Filter(s[..|s| - 1], keep) + (if keep(s[|s| - 1]) then [s[|s| - 1]] else [])
  }

  function Insert<T>(s: seq<T>, x: T, key: T -> Key): seq<T> {
    if s == [] || !key(x).Before(key(s[|s| - 1])) then s + [x]
    else Insert(s[..|s| - 1], x, key) + [s[|s| - 1]]
  }

  /** Equal keys keep their order. */
  function Sort<T>(s: seq<T>, key: T -> Key): seq<T> {
    if s == [] then [] else Insert(Sort(s[..|s| - 1], key), s[|s| - 1], key)
  }

  /** The first of the elements with the largest key. */
  function Largest<T(!new)>(s: seq<T>, key: T -> Key): (r: T)
    requires s != []
    ensures r in s && forall x :: x in s ==> !key(r).Before(key(x))
  {
    if |s| == 1 then s[0]
    else
      var best := Largest(s[..|s| - 1], key);
      assert forall x :: x in s ==> x in s[..|s| - 1] || x == s[|s| - 1];
      if key(best).Before(key(s[|s| - 1])) then s[|s| - 1] else best
  }

  // ---- Sorting ----

  lemma {:induction false} Append<T(!new)>(s: seq<T>, x: T, key: T -> Key)
    requires Ordered(s, key) && forall y :: y in s ==> !key(x).Before(key(y))
    ensures Ordered(s + [x], key)
  {
  }

  lemma {:induction false} InsertKeeps<T(!new)>(s: seq<T>, x: T, key: T -> Key)
    ensures multiset(Insert(s, x, key)) == multiset(s) + multiset{x}
    ensures forall y :: y in Insert(s, x, key) <==> y in s || y == x
  {
    if s != [] && key(x).Before(key(s[|s| - 1])) {
      InsertKeeps(s[..|s| - 1], x, key);
      assert s == s[..|s| - 1] + [s[|s| - 1]];
    }
  }

  lemma {:induction false} InsertSorts<T(!new)>(s: seq<T>, x: T, key: T -> Key)
    requires Ordered(s, key)
    ensures Ordered(Insert(s, x, key), key)
  {
    if s == [] || !key(x).Before(key(s[|s| - 1])) {
      Append(s, x, key);
    } else {
      var rest, last := s[..|s| - 1], s[|s| - 1];
      InsertSorts(rest, x, key);
      InsertKeeps(rest, x, key);
      Append(Insert(rest, x, key), last, key);
    }
  }

  lemma {:induction false} SortSorts<T(!new)>(s: seq<T>, key: T -> Key)
    ensures Ordered(Sort(s, key), key) && multiset(Sort(s, key)) == multiset(s)
    ensures |Sort(s, key)| == |s| && forall x :: x in Sort(s, key) <==> x in s
  {
    if s != [] {
      var rest, last := s[..|s| - 1], s[|s| - 1];
      SortSorts(rest, key);
      InsertSorts(Sort(rest, key), last, key);
      InsertKeeps(Sort(rest, key), last, key);
      assert s == rest + [last];
    }
    SameElements(Sort(s, key), s);
  }

  lemma {:induction false} SameElements<T(!new)>(a: seq<T>, b: seq<T>)
    requires multiset(a) == multiset(b)
    ensures |a| == |b| && forall x :: x in a <==> x in b
  {
    assert |a| == |multiset(a)| && |b| == |multiset(b)|;
    forall x ensures x in a <==> x in b {
      assert x in a <==> x in multiset(a);
      assert x in b <==> x in multiset(b);
    }
  }

  lemma {:induction false} SameLast<T(!new)>(a: seq<T>, b: seq<T>, key: T -> Key)
    requires multiset(a) == multiset(b) && Ordered(a, key) && Ordered(b, key) && DistinctKeys(a, key) && a != []
    ensures |a| == |b| && a[|a| - 1] == b[|b| - 1]
  {
    SameElements(a, b);
    var x, y := a[|a| - 1], b[|b| - 1];
    assert x in b && y in a;
    assert !key(x).Before(key(y)) && !key(y).Before(key(x));
    assert key(x) == key(y);
  }

  lemma {:induction false} DropLast<T(!new)>(s: seq<T>)
    requires s != []
    ensures multiset(s[..|s| - 1]) == multiset(s) - multiset{s[|s| - 1]}
    ensures forall x :: x in s[..|s| - 1] ==> x in s
  {
    assert s == s[..|s| - 1] + [s[|s| - 1]];
  }

  /** There is one way to order elements whose keys differ. */
  lemma {:induction false} OrderedIsUnique<T(!new)>(a: seq<T>, b: seq<T>, key: T -> Key)
    requires multiset(a) == multiset(b) && Ordered(a, key) && Ordered(b, key) && DistinctKeys(a, key)
    ensures a == b
  {
    SameElements(a, b);
    if a != [] {
      var n := |a| - 1;
      SameLast(a, b, key);
      DropLast(a);
      DropLast(b);
      OrderedIsUnique(a[..n], b[..n], key);
      assert a == a[..n] + [a[n]] && b == b[..n] + [b[n]];
    }
  }

  lemma {:induction false} SortIgnoresOrder<T(!new)>(a: seq<T>, b: seq<T>, key: T -> Key)
    requires multiset(a) == multiset(b) && DistinctKeys(a, key)
    ensures Sort(a, key) == Sort(b, key)
  {
    SortSorts(a, key);
    SortSorts(b, key);
    OrderedIsUnique(Sort(a, key), Sort(b, key), key);
  }

  lemma {:induction false} CountTwice<T>(s: seq<T>, i: nat, j: nat)
    requires i < j < |s| && s[i] == s[j]
    ensures multiset(s)[s[i]] >= 2
  {
    assert s == s[..j] + [s[j]] + s[j + 1..];
    assert s[..j][i] == s[i];
    assert s[i] in multiset(s[..j]);
  }

  // ---- Filters and extremes ----

  lemma {:induction false} FilterCounts<T(!new)>(s: seq<T>, keep: T -> bool, x: T)
    ensures multiset(Filter(s, keep))[x] == if keep(x) then multiset(s)[x] else 0
  {
    if s != [] {
      FilterCounts(s[..|s| - 1], keep, x);
      assert s == s[..|s| - 1] + [s[|s| - 1]];
    }
  }

  lemma {:induction false} FilterIgnoresOrder<T(!new)>(a: seq<T>, b: seq<T>, keep: T -> bool)
    requires multiset(a) == multiset(b)
    ensures multiset(Filter(a, keep)) == multiset(Filter(b, keep)) && |Filter(a, keep)| == |Filter(b, keep)|
  {
    forall x ensures multiset(Filter(a, keep))[x] == multiset(Filter(b, keep))[x] {
      FilterCounts(a, keep, x);
      FilterCounts(b, keep, x);
    }
    SameElements(Filter(a, keep), Filter(b, keep));
  }

  lemma {:induction false} LargestIgnoresOrder<T(!new)>(a: seq<T>, b: seq<T>, key: T -> Key)
    requires multiset(a) == multiset(b) && DistinctKeys(a, key) && a != []
    ensures b != [] && Largest(a, key) == Largest(b, key)
  {
    SameElements(a, b);
    var x, y := Largest(a, key), Largest(b, key);
    assert x in b && y in a;
    assert key(x) == key(y);
  }

  lemma {:induction false} FilterKeepsAll<T(!new)>(s: seq<T>, keep: T -> bool)
    requires forall x :: x in s ==> keep(x)
    ensures Filter(s, keep) == s
  {
    if s != [] {
      assert s == s[..|s| - 1] + [s[|s| - 1]];
      FilterKeepsAll(s[..|s| - 1], keep);
    }
  }

  lemma {:induction false} FilterMember<T(!new)>(s: seq<T>, keep: T -> bool, x: T)
    ensures x in Filter(s, keep) <==> x in s && keep(x)
  {
    if s != [] {
      FilterMember(s[..|s| - 1], keep, x);
      assert s == s[..|s| - 1] + [s[|s| - 1]];
    }
  }

  lemma {:induction false} FilterMembers<T(!new)>(s: seq<T>, keep: T -> bool)
    ensures forall x :: x in Filter(s, keep) <==> x in s && keep(x)
  {
    forall x ensures x in Filter(s, keep) <==> x in s && keep(x) { FilterMember(s, keep, x); }
  }

  lemma {:induction false} FilterStep<T(!new)>(s: seq<T>, x: T, keep: T -> bool)
    ensures Filter(s + [x], keep) == Filter(s, keep) + (if keep(x) then [x] else [])
  {
    assert (s + [x])[..|s|] == s;
  }

  lemma {:induction false} FilterTwice<T(!new)>(s: seq<T>, first: T -> bool, second: T -> bool)
    requires forall x :: second(x) ==> first(x)
    ensures Filter(Filter(s, first), second) == Filter(s, second)
  {
    if s != [] {
      var rest, last := s[..|s| - 1], s[|s| - 1];
      assert s == rest + [last];
      FilterTwice(rest, first, second);
      FilterStep(rest, last, first);
      FilterStep(rest, last, second);
      if first(last) {
        FilterStep(Filter(rest, first), last, second);
      } else {
        assert Filter(s, first) == Filter(rest, first);
      }
    }
  }

  lemma {:induction false} FilterEmpty<T(!new)>(s: seq<T>, keep: T -> bool)
    ensures Filter(s, keep) == [] <==> forall x :: x in s ==> !keep(x)
  {
    FilterMembers(s, keep);
    if Filter(s, keep) != [] { assert Filter(s, keep)[0] in Filter(s, keep); }
  }

  /** Filtering is the same element by element when the predicates agree. */
  lemma {:induction false} FilterAgrees<T(!new)>(a: seq<T>, b: seq<T>, keep: T -> bool, keep': T -> bool)
    requires |a| == |b| && forall i :: 0 <= i < |a| ==> keep(a[i]) == keep'(b[i]) && (keep(a[i]) ==> a[i] == b[i])
    ensures Filter(a, keep) == Filter(b, keep')
  {
    if a != [] {
      FilterAgrees(a[..|a| - 1], b[..|b| - 1], keep, keep');
    }
  }
}
