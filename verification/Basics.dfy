/** Types and small functions every module shares. */
module Basics {
  /** A uuid. It is compared for equality, and in the order of uuids where a sort breaks ties by id. */
  datatype Id = Id(n: nat)

  datatype Option<+T> = None | Some(value: T) {
    function GetOr(default: T): T {
      match this
      case Some(v) => v
      case None => default
    }
  }

  /** The characters `str.strip()` removes. */
  predicate IsSpace(c: char) {
    || '\t' <= c <= '\r'
    || '\U{1c}' <= c <= ' '
    || c == '\U{85}' || c == '\U{a0}' || c == '\U{1680}'
    || '\U{2000}' <= c <= '\U{200a}'
    || c == '\U{2028}' || c == '\U{2029}' || c == '\U{202f}' || c == '\U{205f}' || c == '\U{3000}'
  }

  const SPACES: seq<char> := [
    '\t', '\n', '\U{b}', '\U{c}', '\r', '\U{1c}', '\U{1d}', '\U{1e}', '\U{1f}', ' ', '\U{85}', '\U{a0}', '\U{1680}',
    '\U{2000}', '\U{2001}', '\U{2002}', '\U{2003}', '\U{2004}', '\U{2005}', '\U{2006}', '\U{2007}', '\U{2008}', '\U{2009}',
    '\U{200a}', '\U{2028}', '\U{2029}', '\U{202f}', '\U{205f}', '\U{3000}']

  /** Exactly these 29 characters are stripped. */
  lemma {:induction false} SpacesAre(c: char)
    ensures IsSpace(c) <==> c in SPACES
  {
  }

  function TrimLeft(s: string): (t: string)
    ensures |t| <= |s|
  {
    if s != [] && IsSpace(s[0]) then TrimLeft(s[1..]) else s
  }

  function TrimRight(s: string): string {
    if s != [] && IsSpace(s[|s| - 1]) then TrimRight(s[..|s| - 1]) else s
  }

  function Trim(s: string): string {
    TrimRight(TrimLeft(s))
  }

  /** `t` is `s` without its leading and trailing spaces. */
  ghost predicate IsTrimmed(t: string, s: string) {
    exists i, j :: TrimsTo(t, s, i, j)
  }

  ghost predicate TrimsTo(t: string, s: string, i: nat, j: nat) {
    && i <= j <= |s| && t == s[i..j]
    && (forall k :: 0 <= k < i ==> IsSpace(s[k])) && (forall k :: j <= k < |s| ==> IsSpace(s[k]))
    && (t != "" ==> !IsSpace(t[0]) && !IsSpace(t[|t| - 1]))
  }

  predicate Blank(s: string) {
    forall k :: 0 <= k < |s| ==> IsSpace(s[k])
  }

  lemma {:induction false} TrimLeftCuts(s: string) returns (i: nat)
    ensures i <= |s| && TrimLeft(s) == s[i..] && (forall k :: 0 <= k < i ==> IsSpace(s[k])) && (i < |s| ==> !IsSpace(s[i]))
  {
    i := 0;
    if s != [] && IsSpace(s[0]) {
      i := TrimLeftCuts(s[1..]);
      assert s[1..][i..] == s[i + 1..];
      forall k | 0 <= k <= i ensures IsSpace(s[k]) { assert k > 0 ==> s[1..][k - 1] == s[k]; }
      i := i + 1;
    }
  }

  lemma {:induction false} TrimRightCuts(s: string) returns (j: nat)
    ensures j <= |s| && TrimRight(s) == s[..j] && (forall k :: j <= k < |s| ==> IsSpace(s[k])) && (j > 0 ==> !IsSpace(s[j - 1]))
  {
    j := |s|;
    if s != [] && IsSpace(s[|s| - 1]) {
      j := TrimRightCuts(s[..|s| - 1]);
      assert s[..|s| - 1][..j] == s[..j];
    } else {
      assert s[..|s|] == s;
    }
  }

  lemma {:induction false} TrimTrims(s: string)
    ensures IsTrimmed(Trim(s), s)
    ensures Trim(s) == "" <==> Blank(s)
  {
    var i := TrimLeftCuts(s);
    var j := TrimRightCuts(s[i..]);
    assert s[i..][..j] == s[i..i + j];
    forall k | i + j <= k < |s| ensures IsSpace(s[k]) { assert s[i..][k - i] == s[k]; }
    assert j > 0 ==> s[i..][j - 1] == s[i + j - 1];
    assert TrimsTo(Trim(s), s, i, i + j);
    if j > 0 { assert !IsSpace(s[i + j - 1]); }
  }

  // ---- Checks one after the other ----

  /** The refusal of a check that fails, or else what the checks after it say. */
  function Must<T>(holds: bool, code: T, next: Option<T>): Option<T> {
    if holds then next else Some(code)
  }

  // ---- The next position of a list ----

  /** One past the largest of `ps`, or 0 when there are none. */
  ghost function NextAfter(ps: set<nat>): nat {
    if ps == {} then 0
    else
      var p :| p in ps;
      var rest := NextAfter(ps - {p});
      if p + 1 > rest then p + 1 else rest
  }

  lemma {:induction false} NextAfterIsLast(ps: set<nat>)
    ensures forall p :: p in ps ==> p < NextAfter(ps)
    ensures NextAfter(ps) == 0 || NextAfter(ps) - 1 in ps
  {
    if ps != {} {
      var p :| p in ps && NextAfter(ps) == (var rest := NextAfter(ps - {p}); if p + 1 > rest then p + 1 else rest);
      NextAfterIsLast(ps - {p});
      forall q | q in ps ensures q < NextAfter(ps) {
        if q != p { assert q in ps - {p}; }
      }
    }
  }

  method FindNextAfter(ps: set<nat>) returns (n: nat)
    ensures n == NextAfter(ps)
  {
    n := 0;
    var rest := ps;
    while rest != {}
      invariant rest <= ps
      invariant forall p :: p in ps && p !in rest ==> p < n
      invariant n == 0 || n - 1 in ps
      decreases |rest|
    {
      var p :| p in rest;
      if p + 1 > n { n := p + 1; }
      rest := rest - {p};
    }
    NextAfterIsLast(ps);
  }
}
