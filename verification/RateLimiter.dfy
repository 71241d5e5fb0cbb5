/** The in-process rate limit: each key keeps the stamps of its recent hits. */
module RateLimiter {
  ghost predicate Rising(s: seq<int>) {
    forall i, j :: 0 <= i < j < |s| ==> s[i] <= s[j]
  }

  /** A hit and the one `limit` later are a whole window apart. */
  ghost predicate Spaced(s: seq<int>, limit: int, window: nat) {
    forall i, j :: 0 <= i < |s| && 0 <= j < |s| && j == i + limit ==> s[i] + window <= s[j]
  }

  function InWindow(s: seq<int>, start: int, window: nat): nat {
    if s == [] then 0
    else InWindow(s[..|s| - 1], start, window) + (if start < s[|s| - 1] <= start + window then 1 else 0)
  }

  function UpTo(s: seq<int>, bound: int): (n: nat)
    ensures n <= |s|
  {
    if s == [] then 0 else UpTo(s[..|s| - 1], bound) + (if s[|s| - 1] <= bound then 1 else 0)
  }

  lemma {:induction false} InWindowIsDifference(s: seq<int>, start: int, window: nat)
    ensures UpTo(s, start + window) == UpTo(s, start) + InWindow(s, start, window)
  {
    if s != [] { InWindowIsDifference(s[..|s| - 1], start, window); }
  }

  /** In a rising sequence the hits up to a bound come first. */
  lemma {:induction false} UpToComesFirst(s: seq<int>, bound: int)
    requires Rising(s)
    ensures forall k :: 0 <= k < |s| ==> (k < UpTo(s, bound) <==> s[k] <= bound)
  {
    if s != [] {
      var n := |s| - 1;
      UpToComesFirst(s[..n], bound);
      forall k | 0 <= k < n ensures s[k] <= s[n] && (k < UpTo(s[..n], bound) <==> s[k] <= bound) { assert s[..n][k] == s[k]; }
    }
  }

  /** Whatever window of the given length one looks at, it holds no more than `limit` hits. */
  lemma {:induction false} NoWindowHoldsMore(s: seq<int>, limit: int, window: nat, start: int)
    requires Rising(s) && Spaced(s, limit, window) && (limit <= 0 ==> s == [])
    ensures InWindow(s, start, window) <= if limit > 0 then limit else 0
  {
    InWindowIsDifference(s, start, window);
    UpToComesFirst(s, start);
    UpToComesFirst(s, start + window);
    var i := UpTo(s, start);
    if limit > 0 && InWindow(s, start, window) > limit { Apart(s, limit, window, i); }
  }

  lemma {:induction false} Apart(s: seq<int>, limit: int, window: nat, i: nat)
    requires Spaced(s, limit, window) && 0 < limit && i + limit < |s|
    ensures s[i] + window <= s[i + limit]
  {
  }

  /** `kept` is the end of `all`, and what was forgotten is a whole window old. */
  ghost predicate Remembers(all: seq<int>, kept: seq<int>, limit: int, window: nat, clock: int) {
    var forgotten := |all| - |kept|;
    && Rising(all) && Spaced(all, limit, window) && (limit <= 0 ==> all == [])
    && forgotten >= 0 && kept == all[forgotten..]
    && (forall i :: 0 <= i < |all| ==> all[i] <= clock)
    && (forall i :: 0 <= i < forgotten ==> all[i] + window <= clock)
  }

  /** The stamps after `start`, in order. */
  function Since(s: seq<int>, start: int): seq<int> {
    if s == [] then [] else Since(s[..|s| - 1], start) + (if s[|s| - 1] > start then [s[|s| - 1]] else [])
  }

  lemma {:induction false} SinceIsTheEnd(s: seq<int>, start: int)
    requires Rising(s)
    ensures Since(s, start) == s[UpTo(s, start)..]
  {
    if s != [] {
      var rest := s[..|s| - 1];
      SinceIsTheEnd(rest, start);
      UpToComesFirst(s, start);
      UpToComesFirst(rest, start);
      if s[|s| - 1] <= start {
        assert rest != [] ==> rest[|rest| - 1] <= s[|s| - 1];
        assert UpTo(rest, start) == |rest|;
      } else {
        assert s[UpTo(rest, start)..] == rest[UpTo(rest, start)..] + [s[|s| - 1]];
      }
    }
  }

  lemma {:induction false} UpToIs(s: seq<int>, bound: int, n: nat)
    requires Rising(s) && n <= |s|
    requires forall i :: 0 <= i < n ==> s[i] <= bound
    requires forall i :: n <= i < |s| ==> s[i] > bound
    ensures UpTo(s, bound) == n
  {
    UpToComesFirst(s, bound);
    var m := UpTo(s, bound);
    assert m < |s| ==> s[m] > bound;
    assert n < |s| ==> (n < m <==> s[n] <= bound);
  }

  /** What is kept and still counts is all that counts. */
  lemma {:induction false} KeptCounts(all: seq<int>, forgotten: nat, start: int)
    requires Rising(all) && forgotten <= |all| && forall i :: 0 <= i < forgotten ==> all[i] <= start
    ensures Since(all[forgotten..], start) == all[UpTo(all, start)..] && UpTo(all, start) >= forgotten
  {
    var kept := all[forgotten..];
    SinceIsTheEnd(kept, start);
    UpToComesFirst(kept, start);
    var n := forgotten + UpTo(kept, start);
    forall i | 0 <= i < n ensures all[i] <= start {
      if i >= forgotten { assert all[i] == kept[i - forgotten]; }
    }
    forall i | n <= i < |all| ensures all[i] > start {
      assert all[i] == kept[i - forgotten];
    }
    UpToIs(all, start, n);
  }

  lemma {:induction false} SinceCounts(all: seq<int>, window: nat, now: int)
    requires Rising(all) && forall i :: 0 <= i < |all| ==> all[i] <= now
    ensures |all[UpTo(all, now - window)..]| == InWindow(all, now - window, window)
  {
    UpToIs(all, now, |all|);
    InWindowIsDifference(all, now - window, window);
  }

  lemma {:induction false} EndRemembers(all: seq<int>, limit: int, window: nat, now: int)
    requires Rising(all) && Spaced(all, limit, window) && (limit <= 0 ==> all == [])
    requires forall i :: 0 <= i < |all| ==> all[i] <= now
    ensures Remembers(all, all[UpTo(all, now - window)..], limit, window, now)
  {
    UpToComesFirst(all, now - window);
  }

  /** Forgetting what is a window old forgets nothing that still counts. */
  lemma {:induction false} PruneKeeps(all: seq<int>, kept: seq<int>, limit: int, window: nat, clock: int, now: int)
    requires Remembers(all, kept, limit, window, clock) && clock <= now
    ensures Remembers(all, Since(kept, now - window), limit, window, now)
    ensures |Since(kept, now - window)| == InWindow(all, now - window, window)
  {
    KeptCounts(all, |all| - |kept|, now - window);
    SinceCounts(all, window, now);
    EndRemembers(all, limit, window, now);
  }

  lemma {:induction false} HitKeeps(all: seq<int>, kept: seq<int>, limit: int, window: nat, now: int)
    requires Remembers(all, kept, limit, window, now) && |kept| < limit
    ensures Remembers(all + [now], kept + [now], limit, window, now)
  {
    var forgotten := |all| - |kept|;
    assert (all + [now])[forgotten..] == kept + [now];
  }

  lemma {:induction false} LaterRemembers(all: seq<int>, kept: seq<int>, limit: int, window: nat, clock: int, now: int)
    requires Remembers(all, kept, limit, window, clock) && clock <= now
    ensures Remembers(all, kept, limit, window, now)
  {
  }

  // ---- Runs ----

  /** One request for a key, under its limit and window. */
  datatype Hit = Hit(key: string, limit: int, window: nat, now: int)

  datatype History = Nothing | Then(earlier: History, hit: Hit)

  function StampsOf(stamps: map<string, seq<int>>, key: string): seq<int> {
    if key in stamps then stamps[key] else []
  }

  /** Fewer than the limit were allowed within the window up to the hit. */
  predicate HasRoom(allowed: seq<int>, limit: int, window: nat, now: int) {
    InWindow(allowed, now - window, window) < limit
  }

  /** The stamps a run of hits allows for each key: a hit is allowed exactly if there is room for it. */
  function Granted(history: History): map<string, seq<int>> {
    match history
    case Nothing => map[]
    case Then(earlier, h) =>
      var before := Granted(earlier);
      before[h.key := StampsOf(before, h.key) + (if HasRoom(StampsOf(before, h.key), h.limit, h.window, h.now) then [h.now] else [])]
  }

  /** The places in `s` of the stamps after `start` and up to `end`. */
  function PlacesIn(s: seq<int>, start: int, end: int): set<nat> {
    set i | 0 <= i < |s| && start < s[i] <= end
  }

  lemma {:induction false} InWindowCounts(s: seq<int>, start: int, window: nat)
    ensures InWindow(s, start, window) == |PlacesIn(s, start, start + window)|
  {
    if s != [] {
      var n := |s| - 1;
      InWindowCounts(s[..n], start, window);
      var before := PlacesIn(s[..n], start, start + window);
      assert PlacesIn(s, start, start + window) == if start < s[n] <= start + window then before + {n} else before;
    }
  }

  lemma {:induction false} RoomMeans(allowed: seq<int>, limit: int, window: nat, now: int)
    ensures HasRoom(allowed, limit, window, now) <==> |PlacesIn(allowed, now - window, now)| < limit
  {
    InWindowCounts(allowed, now - window, window);
  }

  /** A hit is allowed exactly if fewer than the limit were allowed for its key in the window that ends with it; it then
      is one more, and no other key's hits change. */
  lemma {:induction false} HitAnswers(earlier: History, h: Hit)
    ensures var before, after := Granted(earlier), Granted(Then(earlier, h));
            && StampsOf(after, h.key) == StampsOf(before, h.key)
                 + (if |PlacesIn(StampsOf(before, h.key), h.now - h.window, h.now)| < h.limit then [h.now] else [])
            && forall key :: key != h.key ==> StampsOf(after, key) == StampsOf(before, key)
  {
    RoomMeans(StampsOf(Granted(earlier), h.key), h.limit, h.window, h.now);
  }

  type Rule = (int, nat)

  /** Time does not run backwards, and a key is always used with the same rule. */
  ghost predicate Legal(history: History, rules: map<string, Rule>, clock: int) {
    match history
    case Nothing => true
    case Then(earlier, h) => h.now <= clock && h.key in rules && rules[h.key] == (h.limit, h.window) && Legal(earlier, rules, h.now)
  }

  ghost predicate Fair(all: seq<int>, limit: int, window: nat, clock: int) {
    Rising(all) && Spaced(all, limit, window) && (limit <= 0 ==> all == []) && forall i :: 0 <= i < |all| ==> all[i] <= clock
  }

  lemma {:induction false} AllowedIsFair(all: seq<int>, limit: int, window: nat, clock: int, now: int)
    requires Fair(all, limit, window, clock) && clock <= now && HasRoom(all, limit, window, now)
    ensures Fair(all + [now], limit, window, now)
  {
    PruneKeeps(all, all, limit, window, clock, now);
    HitKeeps(all, Since(all, now - window), limit, window, now);
  }

  lemma {:induction false} GrantedIsFair(history: History, rules: map<string, Rule>, clock: int, key: string)
    requires Legal(history, rules, clock) && key in rules
    ensures Fair(StampsOf(Granted(history), key), rules[key].0, rules[key].1, clock)
  {
    match history
    case Nothing =>
    case Then(earlier, h) =>
      var before := StampsOf(Granted(earlier), key);
      GrantedIsFair(earlier, rules, h.now, key);
      if h.key == key && HasRoom(before, h.limit, h.window, h.now) { AllowedIsFair(before, h.limit, h.window, h.now, h.now); }
  }

  /** Over any run of hits, whatever their keys and times, no window of a key's length holds more allowed hits than the
      key's limit. */
  lemma {:induction false} NoRunExceeds(history: History, rules: map<string, Rule>, clock: int, key: string, start: int)
    requires Legal(history, rules, clock) && key in rules
    ensures InWindow(StampsOf(Granted(history), key), start, rules[key].1) <= if rules[key].0 > 0 then rules[key].0 else 0
  {
    GrantedIsFair(history, rules, clock, key);
    NoWindowHoldsMore(StampsOf(Granted(history), key), rules[key].0, rules[key].1, start);
  }

  lemma {:induction false} LegalLater(history: History, rules: map<string, Rule>, clock: int, key: string, rule: Rule, now: int)
    requires Legal(history, rules, clock) && clock <= now && (key in rules ==> rules[key] == rule)
    ensures Legal(history, rules[key := rule], now)
  {
    match history
    case Nothing =>
    case Then(earlier, h) => LegalLater(earlier, rules, h.now, key, rule, h.now);
  }

  ghost predicate AllRemember(allowed: map<string, seq<int>>, hits: map<string, seq<int>>, rules: map<string, Rule>, clock: int) {
    && hits.Keys == allowed.Keys == rules.Keys
    && forall key :: key in hits ==> Remembers(allowed[key], hits[key], rules[key].0, rules[key].1, clock)
  }

  /** One key is decided on; the clock moves on for all of them. */
  lemma {:induction false} DecidedRemember(allowed: map<string, seq<int>>, hits: map<string, seq<int>>, rules: map<string, Rule>,
                                           clock: int, key: string, all: seq<int>, kept: seq<int>, rule: Rule, now: int)
    requires AllRemember(allowed, hits, rules, clock) && clock <= now && Remembers(all, kept, rule.0, rule.1, now)
    ensures AllRemember(allowed[key := all], hits[key := kept], rules[key := rule], now)
  {
    forall other | other in hits ensures Remembers(allowed[other], hits[other], rules[other].0, rules[other].1, now) {
      LaterRemembers(allowed[other], hits[other], rules[other].0, rules[other].1, clock, now);
    }
  }

  class Limiter {
    var hits: map<string, seq<int>>
    /** Every hit ever allowed, every hit at all, the rule each key is used with and the last time the clock was read. */
    ghost var allowed: map<string, seq<int>>
    ghost var history: History
    ghost var rules: map<string, Rule>
    ghost var clock: int

    ghost predicate Valid()
      reads this
    {
      AllRemember(allowed, hits, rules, clock) && allowed == Granted(history) && Legal(history, rules, clock)
    }

    constructor (now: int)
      ensures Valid() && history == Nothing && clock == now
    {
      hits, allowed, history, rules, clock := map[], map[], Nothing, map[], now;
    }

    /** The stamps after `start`. */
    static method Recent(stamps: seq<int>, start: int) returns (recent: seq<int>)
      ensures recent == Since(stamps, start)
    {
      recent := [];
      for i := 0 to |stamps|
        invariant recent == Since(stamps[..i], start)
      {
        assert stamps[..i + 1][..i] == stamps[..i];
        if stamps[i] > start {
          recent := recent + [stamps[i]];
        }
      }
      assert stamps[..|stamps|] == stamps;
    }

    /** The recent stamps, with the new one if there was room for it. */
    static method Decide(stamps: seq<int>, limit: int, window: nat, now: int, ghost before: seq<int>, ghost earlier: int)
      returns (ok: bool, kept: seq<int>)
      requires Remembers(before, stamps, limit, window, earlier) && earlier <= now
      ensures ok <==> HasRoom(before, limit, window, now)
      ensures Remembers(before + (if ok then [now] else []), kept, limit, window, now)
    {
      kept := Recent(stamps, now - window);
      PruneKeeps(before, stamps, limit, window, earlier, now);
      if |kept| >= limit {
        assert before + [] == before;
        return false, kept;
      }
      HitKeeps(before, kept, limit, window, now);
      return true, kept + [now];
    }

    /** Allows the hit exactly if fewer than `limit` were allowed within the window up to now; a key is always used
        with the same rule, and the clock does not run backwards. */
    method AllowMemory(key: string, limit: int, window: nat, now: int) returns (ok: bool)
      requires Valid() && now >= clock && (key in rules ==> rules[key] == (limit, window))
      modifies this
      ensures ok <==> HasRoom(StampsOf(old(allowed), key), limit, window, now)
      ensures Valid() && clock == now && rules == old(rules)[key := (limit, window)]
      ensures history == Then(old(history), Hit(key, limit, window, now))
      ensures allowed == old(allowed)[key := StampsOf(old(allowed), key) + (if ok then [now] else [])]
    {
      ghost var before, earlier := StampsOf(allowed, key), clock;
      var stamps := StampsOf(hits, key);
      var kept;
      ok, kept := Decide(stamps, limit, window, now, before, earlier);
      DecidedRemember(allowed, hits, rules, earlier, key, before + (if ok then [now] else []), kept, (limit, window), now);
      LegalLater(history, rules, earlier, key, (limit, window), now);
      clock := now;
      rules := rules[key := (limit, window)];
      hits := hits[key := kept];
      allowed := allowed[key := before + (if ok then [now] else [])];
      history := Then(history, Hit(key, limit, window, now));
    }

    /** In every state of every limiter, no window of a key's length holds more allowed hits than the key's limit. */
    lemma {:induction false} NeverMore(key: string, start: int)
      requires Valid() && key in rules
      ensures InWindow(StampsOf(allowed, key), start, rules[key].1) <= if rules[key].0 > 0 then rules[key].0 else 0
    {
      NoRunExceeds(history, rules, clock, key, start);
    }
  }
}
