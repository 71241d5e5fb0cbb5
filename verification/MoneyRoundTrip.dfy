/** Printing an amount and reading it back. */
module MoneyRoundTrip {
  import opened Basics
  import opened MoneyText

  // ---- The printed forms ----

  function DigitChar(d: nat): char
    requires d < 10
  {
    '0' + d as char
  }

  function Digits(n: nat): (s: string)
    ensures s != [] && AllDigits(s) && DigitsValue(s) == n
  {
    if n < 10 then [DigitChar(n)]
    else
      var front := Digits(n / 10);
      var s := front + [DigitChar(n % 10)];
      assert s[..|s| - 1] == front;
      s
  }

  function Two(n: nat): (s: string)
    requires n < 100
    ensures |s| == 2 && AllDigits(s) && DigitsValue(s) == n
  {
    var s := [DigitChar(n / 10), DigitChar(n % 10)];
    assert s[..1] == [DigitChar(n / 10)] && s[..1][..0] == [];
    assert DigitsValue(s[..1]) == n / 10;
    s
  }

  /** Groups of three, each after a separator. */
  function Grouped(s: string, sep: char): string
    requires |s| % 3 == 0
  {
    if s == [] then [] else [sep] + s[..3] + Grouped(s[3..], sep)
  }

  /** How many digits stand before the first separator. */
  function LeadLength(s: string): (n: nat)
    requires s != []
    ensures 1 <= n <= 3 && n <= |s| && (|s| - n) % 3 == 0
  {
    (|s| - 1) % 3 + 1
  }

  function Whole(digits: string, sep: Option<char>): (s: string)
    requires digits != []
    ensures s != [] && s[0] == digits[0]
  {
    if sep.None? then digits else digits[..LeadLength(digits)] + Grouped(digits[LeadLength(digits)..], sep.value)
  }

  /** A mark and two digits, at the end. */
  predicate EndsAmount(s: string) {
    |s| == 3 && IsMark(s[0]) && IsDigit(s[1]) && IsDigit(s[2])
  }

  function End(cents: nat, mark: char): (s: string)
    requires cents < 100
    ensures IsMark(mark) ==> EndsAmount(s)
  {
    [mark] + Two(cents)
  }

  function Signed(negative: bool, s: string): string {
    if negative then "-" + s else s
  }

  /** A sign if negative, the whole part in groups, the decimal mark and two digits. */
  function Form(negative: bool, digits: string, sep: Option<char>, end: string): string
    requires digits != []
  {
    Signed(negative, Whole(digits, sep) + end)
  }

  function Size(cents: int): nat {
    if cents < 0 then -cents else cents
  }

  function Printed(cents: int, sep: Option<char>, mark: char): string {
    Form(cents < 0, Digits(Size(cents) / 100), sep, End(Size(cents) % 100, mark))
  }

  predicate IsMark(c: char) {
    c == ',' || c == '.'
  }

  // ---- The matcher takes the whole of a printed amount ----

  lemma {:induction false} EndMatches(end: string)
    requires EndsAmount(end)
    ensures Groups(end) == Some(3) && Tail(end) == Some(3)
  {
    assert Group(end).None?;
  }

  /** After digits alone, only the mark can end a match. */
  lemma {:induction false} PlainGroups(digits: string, end: string)
    requires AllDigits(digits) && EndsAmount(end)
    ensures Groups(digits + end).Some? ==> Groups(digits + end) == Some(|digits| + 3)
    decreases |digits|
  {
    var s := digits + end;
    if digits == [] {
      assert s == end;
      EndMatches(end);
    } else {
      assert s[0] == digits[0];
      assert Tail(s).None?;
      if |digits| >= 3 {
        assert s[3..] == digits[3..] + end;
        assert ThreeDigits(s) by { assert s[..3] == digits[..3]; }
        PlainGroups(digits[3..], end);
      } else {
        assert !ThreeDigits(s) by { assert s[..3][|digits|] == end[0]; }
      }
    }
  }

  lemma {:induction false} RunMatches(digits: string, end: string)
    requires digits != [] && AllDigits(digits) && EndsAmount(end)
    ensures Run(digits + end) == Some(|digits| + 3)
    decreases |digits|
  {
    var s := digits + end;
    assert s[1..] == digits[1..] + end;
    if |digits| == 1 {
      assert s[1..] == end;
      assert Run(end).None?;
      EndMatches(end);
    } else {
      RunMatches(digits[1..], end);
    }
  }

  lemma {:induction false} PlainLead(digits: string, end: string, k: nat)
    requires AllDigits(digits) && EndsAmount(end) && 0 < k <= 3
    ensures Lead(digits + end, k).Some? ==> Lead(digits + end, k) == Some(|digits| + 3)
  {
    var s := digits + end;
    if k <= |digits| {
      assert s[k..] == digits[k..] + end;
      PlainGroups(digits[k..], end);
    } else if k <= |s| {
      assert s[..k][|digits|] == end[0];
    }
  }

  lemma {:induction false} PlainMatches(digits: string, end: string)
    requires digits != [] && AllDigits(digits) && EndsAmount(end)
    ensures Unsigned(digits + end) == Some(|digits| + 3)
  {
    PlainLead(digits, end, 3);
    PlainLead(digits, end, 2);
    PlainLead(digits, end, 1);
    RunMatches(digits, end);
  }

  lemma {:induction false} GroupedMatches(s: string, sep: char, end: string)
    requires |s| % 3 == 0 && AllDigits(s) && IsSeparator(sep) && EndsAmount(end)
    ensures Groups(Grouped(s, sep) + end) == Some(|Grouped(s, sep)| + 3)
    decreases |s|
  {
    var g := Grouped(s, sep) + end;
    if s == [] {
      assert g == end;
      EndMatches(end);
    } else {
      var rest := Grouped(s[3..], sep);
      assert g == [sep] + s[..3] + (rest + end);
      assert g[1..][..3] == s[..3];
      assert Group(g) == Some(4);
      assert g[4..] == rest + end;
      GroupedMatches(s[3..], sep, end);
    }
  }

  lemma {:induction false} LeadMatches(lead: string, s: string, sep: char, end: string)
    requires 1 <= |lead| <= 3 && AllDigits(lead) && s != [] && |s| % 3 == 0 && AllDigits(s) && IsSeparator(sep) && EndsAmount(end)
    ensures Unsigned(lead + (Grouped(s, sep) + end)) == Some(|lead| + (|Grouped(s, sep)| + 3))
  {
    GroupedMatches(s, sep, end);
    assert Grouped(s, sep)[0] == sep;
    LeadThenRest(lead, Grouped(s, sep) + end);
  }

  lemma {:induction false} Associates(a: string, b: string, c: string)
    ensures a + b + c == a + (b + c)
  {
  }

  lemma {:induction false} LeadThenRest(lead: string, rest: string)
    requires 1 <= |lead| <= 3 && AllDigits(lead) && rest != [] && !IsDigit(rest[0]) && Groups(rest).Some?
    ensures Unsigned(lead + rest) == Some(|lead| + Groups(rest).value)
  {
    var all := lead + rest;
    assert all[|lead|..] == rest && all[..|lead|] == lead;
    NoLead(all, |lead|, 2);
    NoLead(all, |lead|, 3);
    OnlyLead(all, |lead|);
  }

  lemma {:induction false} OnlyLead(s: string, k: nat)
    requires 1 <= k <= 3 && Lead(s, k).Some? && forall j :: k < j <= 3 ==> Lead(s, j).None?
    ensures Unsigned(s) == Lead(s, k)
  {
  }

  lemma {:induction false} NoLead(s: string, at: nat, k: nat)
    requires at < |s| && !IsDigit(s[at])
    ensures at < k ==> Lead(s, k).None?
  {
    if at < k <= |s| { assert s[..k][at] == s[at]; }
  }

  lemma {:induction false} UnsignedMatches(digits: string, sep: Option<char>, end: string)
    requires digits != [] && AllDigits(digits) && EndsAmount(end) && (sep.Some? ==> IsSeparator(sep.value))
    ensures Unsigned(Whole(digits, sep) + end) == Some(|Whole(digits, sep)| + 3)
  {
    var n := LeadLength(digits);
    if sep.None? {
      PlainMatches(digits, end);
    } else if n == |digits| {
      assert Whole(digits, sep) == digits;
      PlainMatches(digits, end);
    } else {
      LeadMatches(digits[..n], digits[n..], sep.value, end);
      Associates(digits[..n], Grouped(digits[n..], sep.value), end);
    }
  }

  lemma {:induction false} SearchTakesAll(negative: bool, u: string)
    requires u != [] && u[0] != '-' && Unsigned(u) == Some(|u|)
    ensures Search(Signed(negative, u)) == Some(Signed(negative, u))
  {
    var s := Signed(negative, u);
    if negative { assert s[1..] == u; }
    assert s[..|s|] == s;
  }

  lemma {:induction false} FormMatches(negative: bool, digits: string, sep: Option<char>, end: string)
    requires digits != [] && AllDigits(digits) && EndsAmount(end) && (sep.Some? ==> IsSeparator(sep.value))
    ensures Search(Form(negative, digits, sep, end)) == Some(Form(negative, digits, sep, end))
  {
    UnsignedMatches(digits, sep, end);
    SearchTakesAll(negative, Whole(digits, sep) + end);
  }

  // ---- Cleaning ----

  lemma {:induction false} RemoveJoins(a: string, b: string, c: char)
    ensures Remove(a + b, c) == Remove(a, c) + Remove(b, c)
  {
    if a == [] {
      assert a + b == b;
    } else {
      assert (a + b)[1..] == a[1..] + b;
      RemoveJoins(a[1..], b, c);
    }
  }

  lemma {:induction false} RemoveNothing(s: string, c: char)
    requires c !in s
    ensures Remove(s, c) == s
  {
    if s != [] {
      assert s == [s[0]] + s[1..];
      RemoveNothing(s[1..], c);
    }
  }

  lemma {:induction false} ReplaceJoins(a: string, b: string, c: char, d: char)
    ensures Replace(a + b, c, d) == Replace(a, c, d) + Replace(b, c, d)
  {
  }

  lemma {:induction false} ReplaceNothing(s: string, c: char, d: char)
    requires c !in s
    ensures Replace(s, c, d) == s
  {
  }

  lemma {:induction false} NotADigit(s: string, c: char)
    requires AllDigits(s) && !IsDigit(c)
    ensures c !in s
  {
  }

  lemma {:induction false} RemoveSeparators(s: string, sep: char)
    requires |s| % 3 == 0 && AllDigits(s) && !IsDigit(sep)
    ensures Remove(Grouped(s, sep), sep) == s
    decreases |s|
  {
    if s != [] {
      var rest := Grouped(s[3..], sep);
      assert Grouped(s, sep) == [sep] + (s[..3] + rest);
      RemoveJoins([sep], s[..3] + rest, sep);
      RemoveJoins(s[..3], rest, sep);
      RemoveNothing(s[..3], sep);
      RemoveSeparators(s[3..], sep);
      assert s == s[..3] + s[3..];
    }
  }

  lemma {:induction false} ReplaceSeparators(s: string, a: char, b: char)
    requires |s| % 3 == 0 && AllDigits(s) && !IsDigit(a)
    ensures Replace(Grouped(s, a), a, b) == Grouped(s, b)
    decreases |s|
  {
    if s != [] {
      var rest := Grouped(s[3..], a);
      assert Grouped(s, a) == [a] + (s[..3] + rest);
      ReplaceJoins([a], s[..3] + rest, a, b);
      ReplaceJoins(s[..3], rest, a, b);
      ReplaceNothing(s[..3], a, b);
      ReplaceSeparators(s[3..], a, b);
    }
  }

  lemma {:induction false} GroupedChars(s: string, sep: char, c: char)
    requires |s| % 3 == 0 && AllDigits(s) && !IsDigit(c)
    ensures c in Grouped(s, sep) <==> c == sep && s != []
    decreases |s|
  {
    if s != [] {
      assert Grouped(s, sep) == [sep] + s[..3] + Grouped(s[3..], sep);
      NotADigit(s[..3], c);
      GroupedChars(s[3..], sep, c);
    }
  }

  lemma {:induction false} JoinedWithoutSeparators(lead: string, s: string, sep: char)
    requires AllDigits(lead) && |s| % 3 == 0 && AllDigits(s) && !IsDigit(sep)
    ensures Remove(lead + Grouped(s, sep), sep) == lead + s
  {
    NotADigit(lead, sep);
    RemoveJoins(lead, Grouped(s, sep), sep);
    RemoveNothing(lead, sep);
    RemoveSeparators(s, sep);
  }

  lemma {:induction false} WholeWithoutSeparators(digits: string, sep: char)
    requires digits != [] && AllDigits(digits) && !IsDigit(sep)
    ensures Remove(Whole(digits, Some(sep)), sep) == digits
  {
    var n := LeadLength(digits);
    JoinedWithoutSeparators(digits[..n], digits[n..], sep);
    assert digits == digits[..n] + digits[n..];
  }

  lemma {:induction false} WholeChars(digits: string, sep: Option<char>, c: char)
    requires digits != [] && AllDigits(digits) && !IsDigit(c)
    ensures c in Whole(digits, sep) <==> sep == Some(c) && |digits| > 3
  {
    var n := LeadLength(digits);
    NotADigit(digits, c);
    if sep.Some? {
      GroupedChars(digits[n..], sep.value, c);
      assert c !in digits[..n];
    }
  }

  // ---- The value of a cleaned amount ----

  lemma {:induction false} CentsOfSigned(negative: bool, s: string, cents: nat)
    requires s != [] && s[0] != '-' && UnsignedCents(s) == Some(cents)
    ensures Cents(Signed(negative, s)) == InPrecision(negative, cents)
  {
    if negative { assert Signed(negative, s)[1..] == s; }
  }

  lemma {:induction false} PointedValue(digits: string, two: string)
    requires digits != [] && AllDigits(digits) && |two| == 2 && AllDigits(two)
    ensures UnsignedCents(digits + ['.'] + two) == Some(DigitsValue(digits) * 100 + DigitsValue(two))
  {
    PointedSlices(digits, two);
  }

  lemma {:induction false} PointedSlices(digits: string, two: string)
    requires |two| == 2
    ensures var s := digits + ['.'] + two;
            |s| == |digits| + 3 && s[..|s| - 3] == digits && s[|s| - 3] == '.' && s[|s| - 2..] == two && !AllDigits(s)
  {
    var s := digits + ['.'] + two;
    assert s[|digits|] == '.';
  }

  /** Digits, a point and two digits. */
  lemma {:induction false} PointedCents(negative: bool, digits: string, two: string)
    requires digits != [] && AllDigits(digits) && |two| == 2 && AllDigits(two)
    ensures Cents(Signed(negative, digits + ['.'] + two)) == InPrecision(negative, DigitsValue(digits) * 100 + DigitsValue(two))
  {
    var s := digits + ['.'] + two;
    PointedValue(digits, two);
    assert s[0] == digits[0];
    CentsOfSigned(negative, s, DigitsValue(digits) * 100 + DigitsValue(two));
  }

  lemma {:induction false} ValueJoins(a: string, b: string)
    requires AllDigits(a) && AllDigits(b)
    ensures AllDigits(a + b) && DigitsValue(a + b) >= DigitsValue(a)
    ensures |b| == 2 ==> DigitsValue(a + b) == DigitsValue(a) * 100 + DigitsValue(b)
  {
    if b == [] {
      assert a + b == a;
    } else {
      var s := a + b;
      assert s[..|s| - 1] == a + b[..|b| - 1];
      ValueJoins(a, b[..|b| - 1]);
      if |b| == 2 {
        var t := a + b[..1];
        assert t[..|t| - 1] == a && t[|t| - 1] == b[0];
        assert b[..1][..0] == [];
        assert DigitsValue(b[..1]) == (b[0] - '0') as nat;
      }
    }
  }

  lemma {:induction false} PointlessValue(digits: string, two: string)
    requires digits != [] && AllDigits(digits) && |two| == 2 && AllDigits(two)
    ensures UnsignedCents(digits + two) == Some((DigitsValue(digits) * 100 + DigitsValue(two)) * 100)
  {
    ValueJoins(digits, two);
  }

  /** Without the point the same digits are worth a hundred times as much. */
  lemma {:induction false} PointlessCents(negative: bool, digits: string, two: string)
    requires digits != [] && AllDigits(digits) && |two| == 2 && AllDigits(two)
    ensures Cents(Signed(negative, digits + two)) == InPrecision(negative, (DigitsValue(digits) * 100 + DigitsValue(two)) * 100)
  {
    var s := digits + two;
    PointlessValue(digits, two);
    assert s[0] == digits[0];
    CentsOfSigned(negative, s, (DigitsValue(digits) * 100 + DigitsValue(two)) * 100);
  }

  // ---- Which mark is the decimal one ----

  lemma {:induction false} LastIndexSkips(a: string, b: string, c: char)
    requires c !in b
    ensures LastIndex(a + b, c) == LastIndex(a, c) && LastIndex(a, c) < |a|
  {
    LastIndexBelow(a, c);
    if b == [] {
      assert a + b == a;
    } else {
      assert (a + b)[..|a + b| - 1] == a + b[..|b| - 1];
      LastIndexSkips(a, b[..|b| - 1], c);
    }
  }

  lemma {:induction false} LastIndexBelow(s: string, c: char)
    ensures LastIndex(s, c) < |s|
  {
    if s != [] { LastIndexBelow(s[..|s| - 1], c); }
  }

  lemma {:induction false} CountJoins(a: string, b: string, c: char)
    ensures Count(a + b, c) == Count(a, c) + Count(b, c)
    ensures (c in a ==> Count(a, c) >= 1) && (c !in a ==> Count(a, c) == 0)
  {
    if a == [] {
      assert a + b == b;
    } else {
      assert (a + b)[1..] == a[1..] + b;
      CountJoins(a[1..], b, c);
      assert a == [a[0]] + a[1..];
    }
  }

  lemma {:induction false} OnlyComma(front: string, two: string)
    requires ',' !in front && '.' !in front && AllDigits(two)
    ensures Decimal(front + ([','] + two)) == front + (['.'] + two)
  {
    var s := front + ([','] + two);
    NotADigit(two, ',');
    NotADigit(two, '.');
    assert s[|front|] == ',' && '.' !in s;
    CommaBecomesPoint(front, two);
  }

  lemma {:induction false} OnlyPoint(front: string, two: string)
    requires ',' !in front && '.' !in front && AllDigits(two)
    ensures Decimal(front + (['.'] + two)) == front + (['.'] + two)
  {
    NotADigit(two, ',');
    NotADigit(two, '.');
    assert ',' !in front + (['.'] + two);
    CountJoins(front, ['.'] + two, '.');
    CountJoins(['.'], two, '.');
    CountJoins(two, "", '.');
  }

  /** One mark only: it is the decimal one. */
  lemma {:induction false} OneMark(negative: bool, digits: string, mark: char, two: string)
    requires digits != [] && AllDigits(digits) && IsMark(mark) && |two| == 2 && AllDigits(two)
    ensures Decimal(Signed(negative, digits + ([mark] + two))) == Signed(negative, digits + (['.'] + two))
  {
    SignedJoins(negative, digits, [mark] + two);
    SignedJoins(negative, digits, ['.'] + two);
    NotADigit(digits, ',');
    NotADigit(digits, '.');
    if mark == ',' { OnlyComma(Signed(negative, digits), two); } else { OnlyPoint(Signed(negative, digits), two); }
  }

  lemma {:induction false} SignedWhole(negative: bool, digits: string)
    requires digits != [] && AllDigits(digits) && |digits| > 3
    ensures var front := Signed(negative, Whole(digits, Some('.')));
            '.' in front && ',' !in front && Remove(front, '.') == Signed(negative, digits)
  {
    var whole := Whole(digits, Some('.'));
    WholeChars(digits, Some('.'), '.');
    WholeChars(digits, Some('.'), ',');
    WholeWithoutSeparators(digits, '.');
    if negative {
      RemoveJoins("-", whole, '.');
      RemoveNothing("-", '.');
    }
  }

  lemma {:induction false} SignedJoins(negative: bool, a: string, b: string)
    ensures Signed(negative, a + b) == Signed(negative, a) + b
  {
  }

  /** Dots and a comma: the comma comes last, so the dots are dropped. */
  lemma {:induction false} DotsAndComma(front: string, plain: string, two: string)
    requires '.' in front && ',' !in front && Remove(front, '.') == plain && ',' !in plain && |two| == 2 && AllDigits(two)
    ensures Decimal(front + ([','] + two)) == plain + (['.'] + two)
  {
    var end := [','] + two;
    var s := front + end;
    assert s == (front + [',']) + two && s[|front|] == ',';
    NotADigit(two, ',');
    NotADigit(two, '.');
    LastIndexSkips(front, end, '.');
    LastIndexSkips(front + [','], two, ',');
    RemoveJoins(front, end, '.');
    RemoveNothing(end, '.');
    CommaBecomesPoint(plain, two);
  }

  lemma {:induction false} CommaBecomesPoint(plain: string, two: string)
    requires ',' !in plain && ',' !in two
    ensures Replace(plain + ([','] + two), ',', '.') == plain + (['.'] + two)
  {
    ReplaceJoins(plain, [','] + two, ',', '.');
    ReplaceNothing(plain, ',', '.');
    ReplaceJoins([','], two, ',', '.');
    ReplaceNothing(two, ',', '.');
  }

  /** Dots alone, more than one: all of them are dropped, the decimal one, too. */
  lemma {:induction false} DotsAlone(front: string, plain: string, two: string)
    requires '.' in front && ',' !in front && Remove(front, '.') == plain && |two| == 2 && AllDigits(two)
    ensures Decimal(front + (['.'] + two)) == plain + two
  {
    var end := ['.'] + two;
    NotADigit(two, ',');
    NotADigit(two, '.');
    assert '.' in end && ',' !in front + end;
    CountJoins(front, end, '.');
    CountJoins(end, "", '.');
    RemoveJoins(front, end, '.');
    RemoveJoins(['.'], two, '.');
    RemoveNothing(two, '.');
    assert Remove(['.'], '.') == [];
  }

  // ---- A printed amount, cleaned and evaluated ----

  /** Spaces are gone after cleaning; only dots can be left between the digits. */
  function Kept(sep: Option<char>): Option<char> {
    if sep == Some('.') then sep else None
  }

  predicate Seen(sep: Option<char>) {
    sep.None? || sep == Some(' ') || sep == Some('.')
  }

  lemma {:induction false} CleanedWhole(digits: string, sep: Option<char>)
    requires digits != [] && AllDigits(digits) && Seen(sep)
    ensures Remove(Whole(digits, sep), ' ') == Whole(digits, Kept(sep))
  {
    if sep == Some(' ') {
      WholeWithoutSeparators(digits, ' ');
    } else {
      WholeChars(digits, sep, ' ');
      RemoveNothing(Whole(digits, sep), ' ');
    }
  }

  predicate NoSpaces(s: string) {
    ' ' !in s && NBSP !in s && NARROW_NBSP !in s
  }

  lemma {:induction false} CleanedJoins(a: string, whole: string, kept: string, end: string)
    requires Remove(whole, ' ') == kept && NoSpaces(a) && NoSpaces(end) && NoSpaces(kept)
    ensures Cleaned(a + (whole + end)) == a + (kept + end)
  {
    RemoveJoins(a, whole + end, ' ');
    RemoveJoins(whole, end, ' ');
    RemoveNothing(a, ' ');
    RemoveNothing(end, ' ');
    RemoveNothing(a + (kept + end), NBSP);
    RemoveNothing(a + (kept + end), NARROW_NBSP);
  }

  function Sign(negative: bool): string {
    if negative then "-" else ""
  }

  lemma {:induction false} SignFirst(negative: bool, s: string)
    ensures Signed(negative, s) == Sign(negative) + s
  {
  }

  lemma {:induction false} CleanedPrinted(negative: bool, digits: string, sep: Option<char>, end: string)
    requires digits != [] && AllDigits(digits) && Seen(sep) && EndsAmount(end)
    ensures Cleaned(Form(negative, digits, sep, end)) == Form(negative, digits, Kept(sep), end)
  {
    CleanedWhole(digits, sep);
    NoBlanks(digits, Kept(sep));
    CleanedJoins(Sign(negative), Whole(digits, sep), Whole(digits, Kept(sep)), end);
    SignFirst(negative, Whole(digits, sep) + end);
    SignFirst(negative, Whole(digits, Kept(sep)) + end);
  }

  lemma {:induction false} NoBlanks(digits: string, sep: Option<char>)
    requires digits != [] && AllDigits(digits) && (sep.None? || sep == Some('.'))
    ensures NoSpaces(Whole(digits, sep))
  {
    WholeChars(digits, sep, ' ');
    WholeChars(digits, sep, NBSP);
    WholeChars(digits, sep, NARROW_NBSP);
  }

  /** Thousands and decimals are both marked with a dot, and there are thousands. */
  predicate DotsClash(digits: string, sep: Option<char>, mark: char) {
    sep == Some('.') && mark == '.' && |digits| > 3
  }

  lemma {:induction false} DecimalOfPlain(negative: bool, digits: string, mark: char, two: string)
    requires digits != [] && AllDigits(digits) && IsMark(mark) && |two| == 2 && AllDigits(two)
    ensures Decimal(Signed(negative, digits + ([mark] + two))) == Signed(negative, digits + ['.'] + two)
  {
    assert digits + ['.'] + two == digits + (['.'] + two);
    OneMark(negative, digits, mark, two);
  }

  lemma {:induction false} DecimalOfDotted(negative: bool, digits: string, mark: char, two: string)
    requires AllDigits(digits) && |digits| > 3 && IsMark(mark) && |two| == 2 && AllDigits(two)
    ensures Decimal(Signed(negative, Whole(digits, Some('.')) + ([mark] + two))) ==
              if mark == ',' then Signed(negative, digits + (['.'] + two)) else Signed(negative, digits + two)
  {
    SignedWhole(negative, digits);
    SignedJoins(negative, Whole(digits, Some('.')), [mark] + two);
    NotADigit(digits, ',');
    if mark == ',' {
      DotsAndComma(Signed(negative, Whole(digits, Some('.'))), Signed(negative, digits), two);
      SignedJoins(negative, digits, ['.'] + two);
    } else {
      DotsAlone(Signed(negative, Whole(digits, Some('.'))), Signed(negative, digits), two);
      SignedJoins(negative, digits, two);
    }
  }

  lemma {:induction false} ValueOfPlain(negative: bool, digits: string, mark: char, two: string)
    requires digits != [] && AllDigits(digits) && IsMark(mark) && |two| == 2 && AllDigits(two)
    ensures Cents(Decimal(Signed(negative, digits + ([mark] + two)))) == InPrecision(negative, DigitsValue(digits) * 100 + DigitsValue(two))
  {
    DecimalOfPlain(negative, digits, mark, two);
    PointedCents(negative, digits, two);
  }

  lemma {:induction false} ValueOfDotsAndComma(negative: bool, digits: string, two: string)
    requires AllDigits(digits) && |digits| > 3 && |two| == 2 && AllDigits(two)
    ensures Cents(Decimal(Form(negative, digits, Some('.'), [','] + two))) ==
              InPrecision(negative, DigitsValue(digits) * 100 + DigitsValue(two))
  {
    var plain := Signed(negative, digits + (['.'] + two));
    DecimalOfDotted(negative, digits, ',', two);
    assert Decimal(Form(negative, digits, Some('.'), [','] + two)) == plain;
    PointedValueOf(negative, digits, two, plain);
  }

  lemma {:induction false} PointedValueOf(negative: bool, digits: string, two: string, plain: string)
    requires digits != [] && AllDigits(digits) && |two| == 2 && AllDigits(two) && plain == Signed(negative, digits + (['.'] + two))
    ensures Cents(plain) == InPrecision(negative, DigitsValue(digits) * 100 + DigitsValue(two))
  {
    assert digits + ['.'] + two == digits + (['.'] + two);
    PointedCents(negative, digits, two);
  }

  lemma {:induction false} ValueOfDotsAlone(negative: bool, digits: string, two: string)
    requires AllDigits(digits) && |digits| > 3 && |two| == 2 && AllDigits(two)
    ensures Cents(Decimal(Form(negative, digits, Some('.'), ['.'] + two))) ==
              InPrecision(negative, (DigitsValue(digits) * 100 + DigitsValue(two)) * 100)
  {
    DecimalOfDotted(negative, digits, '.', two);
    PointlessCents(negative, digits, two);
  }

  /** What a cleaned printed amount is worth: a hundredfold when the dots clash. */
  lemma {:induction false} ValueOf(negative: bool, digits: string, sep: Option<char>, mark: char, two: string)
    requires digits != [] && AllDigits(digits) && IsMark(mark) && (sep.None? || sep == Some('.')) && |two| == 2 && AllDigits(two)
    ensures var cents := DigitsValue(digits) * 100 + DigitsValue(two);
            Cents(Decimal(Form(negative, digits, sep, [mark] + two))) ==
              InPrecision(negative, if DotsClash(digits, sep, mark) then cents * 100 else cents)
  {
    if sep.None? || |digits| <= 3 {
      ShortWhole(digits, sep);
      ValueOfPlain(negative, digits, mark, two);
    } else if mark == ',' {
      ValueOfDotsAndComma(negative, digits, two);
    } else {
      ValueOfDotsAlone(negative, digits, two);
    }
  }

  /** The same, with the value given a name. */
  lemma {:induction false} NamedValueOf(negative: bool, digits: string, sep: Option<char>, mark: char, two: string, value: nat)
    requires digits != [] && AllDigits(digits) && IsMark(mark) && (sep.None? || sep == Some('.')) && |two| == 2 && AllDigits(two)
    requires var cents := DigitsValue(digits) * 100 + DigitsValue(two);
             value == if DotsClash(digits, sep, mark) then cents * 100 else cents
    ensures Cents(Decimal(Form(negative, digits, sep, [mark] + two))) == InPrecision(negative, value)
  {
    ValueOf(negative, digits, sep, mark, two);
  }

  lemma {:induction false} ShortWhole(digits: string, sep: Option<char>)
    requires digits != [] && (sep.None? || |digits| <= 3)
    ensures Whole(digits, sep) == digits
  {
  }

  // ---- Never ambiguous ----

  lemma {:induction false} DotGroupsEnd(s: string)
    requires DotGroups(s)
    ensures IsDigit(s[|s| - 3])
    decreases |s|
  {
    if |s| != 4 {
      DotGroupsEnd(s[4..]);
      assert s[4..][|s[4..]| - 3] == s[|s| - 3];
    } else {
      assert s[1..4][0] == s[1];
    }
  }

  /** Text that ends in a decimal mark and two digits never looks like whole thousands. */
  lemma {:induction false} NotThousands(s: string)
    requires |s| >= 3 && !IsDigit(s[|s| - 3])
    ensures !LooksLikeThousands(s)
  {
    var u := if s != [] && s[0] == '-' then s[1..] else s;
    forall k | 1 <= k <= 3 && k <= |u| ensures !DotGroups(u[k..]) { NoGroupsAtEnd(s, u, k); }
  }

  lemma {:induction false} NoGroupsAtEnd(s: string, u: string, k: nat)
    requires |s| >= 3 && !IsDigit(s[|s| - 3]) && k <= |u| && (u == s || (s != [] && u == s[1..]))
    ensures !DotGroups(u[k..])
  {
    if |u[k..]| >= 4 { assert u[k..][|u[k..]| - 3] == s[|s| - 3]; }
    if DotGroups(u[k..]) { DotGroupsEnd(u[k..]); }
  }

  // ---- Around the amount ----

  lemma {:induction false} TrimKeeps(s: string)
    requires s != [] && !IsSpace(s[0]) && !IsSpace(s[|s| - 1])
    ensures Trim(s) == s
  {
  }

  /** No letter of a currency mark in it. */
  predicate NoMarks(s: string) {
    forall i :: 0 <= i < |s| ==> s[i] !in {'n', 'N', 'k', 'K'}
  }

  lemma {:induction false} NoCurrencyInside(s: string)
    requires NoMarks(s)
    ensures WithoutCurrency(s) == s
  {
    if s != [] {
      assert s == [s[0]] + s[1..];
      NoCurrencyInside(s[1..]);
    }
  }

  function Blanks(n: nat): (s: string)
    ensures |s| == n && forall i :: 0 <= i < n ==> s[i] == ' '
  {
    seq(n, i => ' ')
  }

  lemma {:induction false} LeadingBlanks(n: nat, s: string)
    requires s != [] && !IsSpace(s[0])
    ensures TrimLeft(Blanks(n) + s) == s
  {
    if n == 0 {
      assert Blanks(n) + s == s;
    } else {
      assert (Blanks(n) + s)[1..] == Blanks(n - 1) + s;
      LeadingBlanks(n - 1, s);
    }
  }

  const CURRENCIES: seq<string> := [
    "kr", "kR", "Kr", "KR", "kr.", "kR.", "Kr.", "KR.", "nok", "noK", "nOk", "nOK", "Nok", "NoK", "NOk", "NOK"]

  /** A currency mark in any case, and blanks; or nothing at all. */
  predicate IsPrefix(prefix: string, currency: string, n: nat) {
    prefix == currency + Blanks(n) && (if currency == [] then n == 0 else currency in CURRENCIES)
  }

  lemma {:induction false} CurrencyIsMark(currency: string)
    requires currency in CURRENCIES
    ensures |currency| >= 2 && Currency(currency) == |currency|
  {
    var i :| 0 <= i < |CURRENCIES| && CURRENCIES[i] == currency;
  }

  lemma {:induction false} CurrencyStays(currency: string, rest: string)
    requires currency in CURRENCIES && rest != [] && rest[0] != '.'
    ensures Currency(currency + rest) == |currency| >= 2
  {
    CurrencyIsMark(currency);
  }

  lemma {:induction false} CurrencyGoes(prefix: string, currency: string, n: nat, s: string)
    requires IsPrefix(prefix, currency, n) && NoMarks(s) && s != [] && !IsSpace(s[0]) && s[0] != '.'
    ensures WithoutCurrency(prefix + s) == s
  {
    NoCurrencyInside(s);
    if currency == [] {
      assert prefix + s == s;
    } else {
      var all := prefix + s;
      assert all == currency + (Blanks(n) + s);
      assert all[|currency|..] == Blanks(n) + s;
      assert Currency(all) == |currency| by { CurrencyStays(currency, Blanks(n) + s); }
      LeadingBlanks(n, s);
    }
  }

  /** What a separator is after normalization. */
  function NormalSeparator(sep: Option<char>): Option<char> {
    if sep == Some(NBSP) || sep == Some(NARROW_NBSP) then Some(' ') else sep
  }

  lemma {:induction false} ReplaceWhole(digits: string, sep: Option<char>, a: char)
    requires digits != [] && AllDigits(digits) && !IsDigit(a)
    ensures Replace(Whole(digits, sep), a, ' ') == Whole(digits, if sep == Some(a) then Some(' ') else sep)
  {
    var n := LeadLength(digits);
    if sep == Some(a) {
      ReplaceJoins(digits[..n], Grouped(digits[n..], a), a, ' ');
      NotADigit(digits[..n], a);
      ReplaceNothing(digits[..n], a, ' ');
      ReplaceSeparators(digits[n..], a, ' ');
    } else {
      WholeChars(digits, sep, a);
      ReplaceNothing(Whole(digits, sep), a, ' ');
    }
  }

  lemma {:induction false} ReplaceAround(front: string, whole: string, end: string, a: char)
    requires a !in front && a !in end
    ensures Replace(front + (whole + end), a, ' ') == front + (Replace(whole, a, ' ') + end)
  {
    ReplaceJoins(front, whole + end, a, ' ');
    ReplaceJoins(whole, end, a, ' ');
    ReplaceNothing(front, a, ' ');
    ReplaceNothing(end, a, ' ');
  }

  lemma {:induction false} NormalizedWhole(front: string, digits: string, sep: Option<char>, end: string)
    requires digits != [] && AllDigits(digits) && EndsAmount(end) && NBSP !in front && NARROW_NBSP !in front
    ensures Replace(Replace(front + (Whole(digits, sep) + end), NBSP, ' '), NARROW_NBSP, ' ')
         == front + (Whole(digits, NormalSeparator(sep)) + end)
  {
    ReplaceAround(front, Whole(digits, sep), end, NBSP);
    ReplaceWhole(digits, sep, NBSP);
    var sep' := if sep == Some(NBSP) then Some(' ') else sep;
    ReplaceAround(front, Whole(digits, sep'), end, NARROW_NBSP);
    ReplaceWhole(digits, sep', NARROW_NBSP);
  }

  lemma {:induction false} WholeNoMarks(digits: string, sep: Option<char>)
    requires digits != [] && AllDigits(digits) && Seen(sep)
    ensures NoMarks(Whole(digits, sep))
  {
    WholeChars(digits, sep, 'n');
    WholeChars(digits, sep, 'N');
    WholeChars(digits, sep, 'k');
    WholeChars(digits, sep, 'K');
  }

  lemma {:induction false} PrefixChars(prefix: string, currency: string, n: nat)
    requires IsPrefix(prefix, currency, n)
    ensures NBSP !in prefix && NARROW_NBSP !in prefix && (prefix != [] ==> !IsSpace(prefix[0]))
  {
    if currency != [] { CurrencyIsMark(currency); }
  }

  /** Nothing in front or behind that stripping could take. */
  predicate Solid(s: string) {
    s != [] && !IsSpace(s[0]) && s[0] != '.' && !IsSpace(s[|s| - 1])
  }

  lemma {:induction false} PrefixIsStripped(prefix: string, currency: string, n: nat, s: string)
    requires IsPrefix(prefix, currency, n) && Solid(s) && NoMarks(s)
    ensures Trim(prefix + s) == prefix + s && Trim(WithoutCurrency(prefix + s)) == s
  {
    PrefixChars(prefix, currency, n);
    TrimKeeps(prefix + s);
    CurrencyGoes(prefix, currency, n, s);
    TrimKeeps(s);
  }

  lemma {:induction false} SolidAmount(negative: bool, whole: string, end: string)
    requires whole != [] && IsDigit(whole[0]) && EndsAmount(end)
    ensures var s := Signed(negative, whole + end); Solid(s) && |s| >= 3 && !IsDigit(s[|s| - 3])
  {
    assert (whole + end)[|whole|] == end[0] && (whole + end)[|whole| + 2] == end[2];
  }

  lemma {:induction false} FormEnds(negative: bool, digits: string, sep: Option<char>, end: string)
    requires digits != [] && AllDigits(digits) && EndsAmount(end)
    ensures var s := Form(negative, digits, sep, end); Solid(s) && |s| >= 3 && !IsDigit(s[|s| - 3])
  {
    SolidAmount(negative, Whole(digits, sep), end);
  }

  lemma {:induction false} FormNoMarks(negative: bool, digits: string, sep: Option<char>, end: string)
    requires digits != [] && AllDigits(digits) && EndsAmount(end) && Seen(sep)
    ensures NoMarks(Form(negative, digits, sep, end))
  {
    WholeNoMarks(digits, sep);
    assert NoMarks(Whole(digits, sep) + end);
  }

  lemma {:induction false} PrefixSign(prefix: string, negative: bool, s: string)
    ensures prefix + Signed(negative, s) == (prefix + Sign(negative)) + s
  {
  }

  lemma {:induction false} NormalizedForm(prefix: string, currency: string, n: nat, negative: bool, digits: string, sep: Option<char>, end: string)
    requires IsPrefix(prefix, currency, n) && digits != [] && AllDigits(digits) && EndsAmount(end)
    ensures Replace(Replace(prefix + Form(negative, digits, sep, end), NBSP, ' '), NARROW_NBSP, ' ')
         == prefix + Form(negative, digits, NormalSeparator(sep), end)
  {
    PrefixChars(prefix, currency, n);
    PrefixSign(prefix, negative, Whole(digits, sep) + end);
    PrefixSign(prefix, negative, Whole(digits, NormalSeparator(sep)) + end);
    NormalizedWhole(prefix + Sign(negative), digits, sep, end);
  }

  /** What the matcher is given is the printed amount itself. */
  lemma {:induction false} TextIsStripped(prefix: string, currency: string, n: nat, negative: bool, digits: string, sep: Option<char>, end: string)
    requires IsPrefix(prefix, currency, n) && digits != [] && AllDigits(digits) && EndsAmount(end) && Seen(NormalSeparator(sep))
    ensures Trim(WithoutCurrency(Normalized(prefix + Form(negative, digits, sep, end)))) == Form(negative, digits, NormalSeparator(sep), end)
  {
    NormalizedForm(prefix, currency, n, negative, digits, sep, end);
    FormEnds(negative, digits, NormalSeparator(sep), end);
    FormNoMarks(negative, digits, NormalSeparator(sep), end);
    PrefixIsStripped(prefix, currency, n, Form(negative, digits, NormalSeparator(sep), end));
  }

  // ---- The round trip ----

  lemma {:induction false} DigitsLength(n: nat)
    ensures |Digits(n)| > 3 <==> n >= 1000
  {
    assert |Digits(n)| == if n < 10 then 1 else 1 + |Digits(n / 10)|;
    var m := n / 10;
    assert |Digits(m)| == if m < 10 then 1 else 1 + |Digits(m / 10)|;
    var l := m / 10;
    assert |Digits(l)| == if l < 10 then 1 else 1 + |Digits(l / 10)|;
    assert |Digits(l / 10)| >= 1;
  }

  /** Every separator a receipt may group thousands with, or none. */
  predicate Groups3(sep: Option<char>) {
    sep.None? || IsSeparator(sep.value)
  }

  lemma {:induction false} FoundIsEvaluated(text: string, raw: string, cleaned: string, ctx: bool)
    requires Trim(text) != [] && Search(Trim(WithoutCurrency(Normalized(text)))) == Some(raw)
    requires Cleaned(raw) == cleaned && |cleaned| >= 3 && !IsDigit(cleaned[|cleaned| - 3])
    ensures ParseMoney(text, ctx) == Evaluated(raw, cleaned)
  {
    NotThousands(cleaned);
  }

  lemma {:induction false} NotBlank(prefix: string, currency: string, n: nat, s: string)
    requires IsPrefix(prefix, currency, n) && Solid(s)
    ensures Trim(prefix + s) != []
  {
    PrefixChars(prefix, currency, n);
    TrimKeeps(prefix + s);
  }

  lemma {:induction false} FormIsEvaluated(prefix: string, currency: string, n: nat, negative: bool, digits: string, sep: Option<char>, end: string, ctx: bool)
    requires IsPrefix(prefix, currency, n) && digits != [] && AllDigits(digits) && EndsAmount(end) && Groups3(sep)
    ensures var sep' := NormalSeparator(sep);
            ParseMoney(prefix + Form(negative, digits, sep, end), ctx) ==
              Evaluated(Form(negative, digits, sep', end), Form(negative, digits, Kept(sep'), end))
  {
    var sep' := NormalSeparator(sep);
    TextIsStripped(prefix, currency, n, negative, digits, sep, end);
    FormMatches(negative, digits, sep', end);
    CleanedPrinted(negative, digits, sep', end);
    FormEnds(negative, digits, sep, end);
    FormEnds(negative, digits, Kept(sep'), end);
    NotBlank(prefix, currency, n, Form(negative, digits, sep, end));
    FoundIsEvaluated(prefix + Form(negative, digits, sep, end), Form(negative, digits, sep', end), Form(negative, digits, Kept(sep'), end), ctx);
  }

  lemma {:induction false} FormReadsAs(prefix: string, currency: string, n: nat, negative: bool, digits: string, sep: Option<char>, mark: char, two: string,
                    value: nat, ctx: bool)
    requires IsPrefix(prefix, currency, n) && digits != [] && AllDigits(digits) && IsMark(mark) && Groups3(sep) && |two| == 2 && AllDigits(two)
    requires var cents := DigitsValue(digits) * 100 + DigitsValue(two);
             value == if DotsClash(digits, Kept(NormalSeparator(sep)), mark) then cents * 100 else cents
    ensures ParseMoney(prefix + Form(negative, digits, sep, [mark] + two), ctx) ==
              AsParsed(InPrecision(negative, value), Form(negative, digits, NormalSeparator(sep), [mark] + two))
  {
    FormIsEvaluated(prefix, currency, n, negative, digits, sep, [mark] + two, ctx);
    NamedValueOf(negative, digits, Kept(NormalSeparator(sep)), mark, two, value);
  }

  lemma {:induction false} SizeSplits(size: nat)
    ensures DigitsValue(Digits(size / 100)) * 100 + DigitsValue(Two(size % 100)) == size
    ensures |Digits(size / 100)| > 3 <==> size >= 100000
  {
    DigitsLength(size / 100);
  }

  /** Dots mark both the thousands it has and the decimals. */
  predicate Clash(cents: int, sep: Option<char>, mark: char) {
    sep == Some('.') && mark == '.' && Size(cents) >= 100000
  }

  lemma {:induction false} WithinLimit(negative: bool, size: nat, raw: string)
    ensures var cents: int := size;
            AsParsed(InPrecision(negative, size), raw) ==
              if size >= 10000000000000000000000000000 then InvalidDecimal(raw) else Amount(if negative then -cents else cents, raw)
  {
  }

  lemma {:induction false} ReadsWithin(prefix: string, currency: string, n: nat, cents: int, sep: Option<char>, mark: char, ctx: bool)
    requires IsPrefix(prefix, currency, n) && IsMark(mark) && Groups3(sep)
    ensures ParseMoney(prefix + Printed(cents, sep, mark), ctx) ==
              AsParsed(InPrecision(cents < 0, if Clash(cents, sep, mark) then Size(cents) * 100 else Size(cents)),
                       Printed(cents, NormalSeparator(sep), mark))
  {
    SizeSplits(Size(cents));
    FormReadsAs(prefix, currency, n, cents < 0, Digits(Size(cents) / 100), sep, mark, Two(Size(cents) % 100),
                if Clash(cents, sep, mark) then Size(cents) * 100 else Size(cents), ctx);
  }

  /** What reading a printed amount gives: a hundredfold when the dots clash, and nothing beyond 28 digits. */
  lemma {:induction false} ReadsAs(prefix: string, currency: string, n: nat, cents: int, sep: Option<char>, mark: char, ctx: bool)
    requires IsPrefix(prefix, currency, n) && IsMark(mark) && Groups3(sep)
    ensures var size, raw := if Clash(cents, sep, mark) then Size(cents) * 100 else Size(cents), Printed(cents, NormalSeparator(sep), mark);
            ParseMoney(prefix + Printed(cents, sep, mark), ctx) ==
              if size >= 10000000000000000000000000000 then InvalidDecimal(raw) else Amount(if cents < 0 then -size else size, raw)
  {
    ReadsWithin(prefix, currency, n, cents, sep, mark, ctx);
    WithinLimit(cents < 0, if Clash(cents, sep, mark) then Size(cents) * 100 else Size(cents), Printed(cents, NormalSeparator(sep), mark));
  }

  /** An amount below the precision limit is read back exactly, in every printed form, with or without a
      currency mark, unless dots mark both the thousands it has and the decimals. */
  lemma {:induction false} RoundTrip(prefix: string, currency: string, n: nat, cents: int, sep: Option<char>, mark: char, ctx: bool)
    requires IsPrefix(prefix, currency, n) && IsMark(mark) && Groups3(sep) && Size(cents) < PRECISION
    ensures ParseMoney(prefix + Printed(cents, sep, mark), ctx) == Amount(cents, Printed(cents, NormalSeparator(sep), mark)) <==>
              !Clash(cents, sep, mark)
  {
    ReadsAs(prefix, currency, n, cents, sep, mark, ctx);
  }

  // ---- Any text ----

  /** A match of `n` characters ends in a decimal mark and two digits. */
  predicate Ends(s: string, n: nat) {
    3 <= n <= |s| && EndsAmount(s[n - 3..n])
  }

  lemma {:induction false} LaterEnds(s: string, k: nat, n: nat)
    requires k <= |s| && Ends(s[k..], n)
    ensures Ends(s, k + n)
  {
    assert s[k..][n - 3..n] == s[k + n - 3..k + n];
  }

  lemma {:induction false} PlusEnds(s: string, k: nat, rest: Option<nat>)
    requires k <= |s| && (rest.Some? ==> Ends(s[k..], rest.value))
    ensures Plus(k, rest).Some? ==> Ends(s, Plus(k, rest).value)
  {
    if rest.Some? { LaterEnds(s, k, rest.value); }
  }

  lemma {:induction false} TailEnds(s: string)
    ensures Tail(s).Some? ==> Ends(s, Tail(s).value)
  {
    assert |s| >= 3 ==> s[0..3] == s[..3];
  }

  lemma {:induction false} GroupsEnd(s: string)
    ensures Groups(s).Some? ==> Ends(s, Groups(s).value)
    decreases |s|
  {
    var one := Group(s);
    TailEnds(s);
    if one.Some? {
      var rest := Groups(s[one.value..]);
      GroupsEnd(s[one.value..]);
      PlusEnds(s, one.value, rest);
    }
  }

  lemma {:induction false} RunEnds(s: string)
    ensures Run(s).Some? ==> Ends(s, Run(s).value)
    decreases |s|
  {
    if s != [] && IsDigit(s[0]) {
      RunEnds(s[1..]);
      TailEnds(s[1..]);
      PlusEnds(s, 1, OrElse(Run(s[1..]), Tail(s[1..])));
    }
  }

  lemma {:induction false} LeadEnds(s: string, k: nat)
    requires Lead(s, k).Some?
    ensures Ends(s, Lead(s, k).value)
  {
    var rest := Groups(s[k..]);
    GroupsEnd(s[k..]);
    PlusEnds(s, k, rest);
  }

  lemma {:induction false} MatchEnds(s: string)
    ensures MatchAt(s).Some? ==> Ends(s, MatchAt(s).value)
  {
    var u := if s != [] && s[0] == '-' then s[1..] else s;
    if Lead(u, 1).Some? { LeadEnds(u, 1); }
    if Lead(u, 2).Some? { LeadEnds(u, 2); }
    if Lead(u, 3).Some? { LeadEnds(u, 3); }
    RunEnds(u);
    if u != s && Unsigned(u).Some? { LaterEnds(s, 1, Unsigned(u).value); }
  }

  lemma {:induction false} SearchEnds(s: string)
    ensures Search(s).Some? ==> Ends(Search(s).value, |Search(s).value|)
    decreases |s|
  {
    MatchEnds(s);
    if MatchAt(s).Some? {
      var n := MatchAt(s).value;
      assert s[..n][n - 3..] == s[n - 3..n];
    } else if s != [] {
      SearchEnds(s[1..]);
    }
  }

  lemma {:induction false} CleanedEnd(raw: string)
    requires Ends(raw, |raw|)
    ensures var cleaned := Cleaned(raw); |cleaned| >= 3 && !IsDigit(cleaned[|cleaned| - 3])
  {
    var front, end := raw[..|raw| - 3], raw[|raw| - 3..];
    assert raw == front + end;
    RemoveJoins(front, end, ' ');
    RemoveNothing(end, ' ');
    RemoveJoins(Remove(front, ' '), end, NBSP);
    RemoveNothing(end, NBSP);
    RemoveJoins(Remove(Remove(front, ' '), NBSP), end, NARROW_NBSP);
    RemoveNothing(end, NARROW_NBSP);
  }

  // ---- Where an amount is found ----

  /** A digit, a decimal mark and two digits. */
  predicate AmountAt(s: string, i: int) {
    0 <= i && i + 3 < |s| && IsDigit(s[i]) && (s[i + 1] == ',' || s[i + 1] == '.') && IsDigit(s[i + 2]) && IsDigit(s[i + 3])
  }

  predicate EndsInAmount(s: string, n: nat) {
    4 <= n <= |s| && AmountAt(s, n - 4)
  }

  lemma {:induction false} GroupsEndInAmount(s: string)
    ensures Groups(s).Some? ==> (Groups(s).value == 3 && Tail(s).Some?) || EndsInAmount(s, Groups(s).value)
    decreases |s|
  {
    var one := Group(s);
    if one.Some? && Groups(s[one.value..]).Some? {
      GroupsEndInAmount(s[one.value..]);
      var rest := s[one.value..];
      assert IsDigit(s[one.value - 1]) by {
        if s != [] && IsSeparator(s[0]) { assert s[1..][..3][2] == s[3]; } else { assert s[..3][2] == s[2]; }
      }
      assert forall i :: 0 <= i < |rest| ==> rest[i] == s[one.value + i];
    }
  }

  lemma {:induction false} LeadEndsInAmount(s: string, k: nat)
    requires k > 0 && Lead(s, k).Some?
    ensures EndsInAmount(s, Lead(s, k).value)
  {
    var rest := s[k..];
    GroupsEndInAmount(rest);
    assert IsDigit(s[..k][k - 1]) && forall i :: 0 <= i < |rest| ==> rest[i] == s[k + i];
  }

  lemma {:induction false} RunEndsInAmount(s: string)
    ensures Run(s).Some? ==> EndsInAmount(s, Run(s).value)
    decreases |s|
  {
    if s != [] && IsDigit(s[0]) {
      var rest := s[1..];
      RunEndsInAmount(rest);
      assert forall i :: 0 <= i < |rest| ==> rest[i] == s[1 + i];
    }
  }

  lemma {:induction false} UnsignedEndsInAmount(s: string)
    ensures Unsigned(s).Some? ==> EndsInAmount(s, Unsigned(s).value)
  {
    if Lead(s, 1).Some? { LeadEndsInAmount(s, 1); }
    if Lead(s, 2).Some? { LeadEndsInAmount(s, 2); }
    if Lead(s, 3).Some? { LeadEndsInAmount(s, 3); }
    RunEndsInAmount(s);
  }

  lemma {:induction false} MatchEndsInAmount(s: string)
    ensures MatchAt(s).Some? ==> EndsInAmount(s, MatchAt(s).value)
  {
    var u := if s != [] && s[0] == '-' then s[1..] else s;
    UnsignedEndsInAmount(u);
    if u != s { assert forall i :: 0 <= i < |u| ==> u[i] == s[1 + i]; }
  }

  lemma {:induction false} AmountMatches(s: string)
    requires AmountAt(s, 0)
    ensures MatchAt(s).Some?
  {
    var rest := s[1..];
    assert rest[0] == s[1] && rest[1] == s[2] && rest[2] == s[3];
    assert Tail(rest).Some? && Groups(rest).Some? && s[..1] == [s[0]];
    assert Lead(s, 1).Some?;
  }

  /** Something is found in a text exactly if a digit, a decimal mark and two digits follow one another in it. */
  lemma {:induction false} FoundIff(s: string)
    ensures Search(s).Some? <==> exists i :: AmountAt(s, i)
    decreases |s|
  {
    MatchEndsInAmount(s);
    if s != [] {
      var rest := s[1..];
      FoundIff(rest);
      if AmountAt(s, 0) { AmountMatches(s); }
      if i :| AmountAt(s, i) && i > 0 { assert AmountAt(rest, i - 1); }
      if i :| AmountAt(rest, i) { assert AmountAt(s, i + 1); }
    }
  }

  lemma {:induction false} NothingMeans(text: string, ctx: bool)
    ensures ParseMoney(text, ctx) == Empty <==> Trim(text) == []
    ensures ParseMoney(text, ctx) == NoAmount <==> Trim(text) != [] && Search(Trim(WithoutCurrency(Normalized(text)))).None?
  {
  }

  /** A text is empty exactly if it is blank, and without an amount exactly if none is left in it once the currency marks
      are gone. */
  lemma {:induction false} NothingIff(text: string, ctx: bool)
    ensures ParseMoney(text, ctx) == Empty <==> Blank(text)
    ensures ParseMoney(text, ctx) == NoAmount <==>
              !Blank(text) && forall i :: !AmountAt(Trim(WithoutCurrency(Normalized(text))), i)
  {
    NothingMeans(text, ctx);
    assert Trim(text) == "" <==> Blank(text) by { TrimTrims(text); }
    FoundIff(Trim(WithoutCurrency(Normalized(text))));
  }

  /** No text is ever reported as ambiguous: what was matched always has its two decimals. */
  lemma {:induction false} NeverAmbiguous(text: string, ctx: bool)
    ensures !ParseMoney(text, ctx).Ambiguous? && ParseMoney(text, ctx) == ParseMoney(text, !ctx)
  {
    var stripped := Trim(WithoutCurrency(Normalized(text)));
    SearchEnds(stripped);
    if Search(stripped).Some? {
      CleanedEnd(Search(stripped).value);
      NotThousands(Cleaned(Search(stripped).value));
    }
  }

  lemma {:induction false} BareGroups(three: string)
    requires |three| == 3 && AllDigits(three)
    ensures Groups(['.'] + three) == Some(3)
  {
    var s := ['.'] + three;
    assert s[1..] == three && three[..3] == three && s[4..] == [];
    assert Groups([]).None?;
    assert Group(s) == Some(4);
  }

  lemma {:induction false} BareSearch(lead: string, three: string)
    requires 1 <= |lead| <= 3 && AllDigits(lead) && |three| == 3 && AllDigits(three)
    ensures Search(lead + (['.'] + three)) == Some(lead + (['.'] + three[..2]))
  {
    BareGroups(three);
    LeadThenRest(lead, ['.'] + three);
    assert (lead + (['.'] + three))[..|lead| + 3] == lead + (['.'] + three[..2]);
  }

  lemma {:induction false} BareStripped(s: string)
    requires Solid(s) && NoMarks(s) && NBSP !in s && NARROW_NBSP !in s
    ensures Trim(s) == s && Trim(WithoutCurrency(Normalized(s))) == s
  {
    TrimKeeps(s);
    ReplaceNothing(s, NBSP, ' ');
    ReplaceNothing(s, NARROW_NBSP, ' ');
    NoCurrencyInside(s);
  }

  lemma {:induction false} PlainCleaned(lead: string, two: string)
    requires lead != [] && AllDigits(lead) && |two| == 2 && AllDigits(two)
    ensures Cleaned(lead + (['.'] + two)) == lead + (['.'] + two)
  {
    CleanedPrinted(false, lead, None, ['.'] + two);
  }

  lemma {:induction false} ReadAs(text: string, read: string, value: Option<int>, ctx: bool)
    requires Solid(text) && NoMarks(text) && NBSP !in text && NARROW_NBSP !in text && Search(text) == Some(read)
    requires Cleaned(read) == read && |read| >= 3 && !IsDigit(read[|read| - 3]) && Cents(Decimal(read)) == value
    ensures ParseMoney(text, ctx) == AsParsed(value, read)
  {
    BareStripped(text);
    FoundIsEvaluated(text, read, read, ctx);
  }

  lemma {:induction false} BareShape(lead: string, three: string)
    requires 1 <= |lead| <= 3 && AllDigits(lead) && |three| == 3 && AllDigits(three)
    ensures var text := lead + (['.'] + three); Solid(text) && NoMarks(text) && NBSP !in text && NARROW_NBSP !in text
    ensures var read := lead + (['.'] + three[..2]); |read| >= 3 && !IsDigit(read[|read| - 3])
  {
    var text, read := lead + (['.'] + three), lead + (['.'] + three[..2]);
    assert text[|text| - 1] == three[2] && read[|read| - 3] == '.';
  }

  lemma {:induction false} BareValue(lead: string, two: string, cents: nat)
    requires 1 <= |lead| <= 3 && AllDigits(lead) && |two| == 2 && AllDigits(two)
    requires cents == DigitsValue(lead) * 100 + DigitsValue(two)
    ensures Cents(Decimal(lead + (['.'] + two))) == Some(cents)
  {
    SmallValue(lead, two, cents);
    UnsignedValue(lead, two, Some(cents));
  }

  lemma {:induction false} SmallValue(lead: string, two: string, cents: nat)
    requires |lead| <= 3 && AllDigits(lead) && |two| == 2 && AllDigits(two)
    requires cents == DigitsValue(lead) * 100 + DigitsValue(two)
    ensures InPrecision(false, DigitsValue(lead) * 100 + DigitsValue(two)) == Some(cents)
  {
    FewDigits(lead);
    FewDigits(two);
  }

  lemma {:induction false} UnsignedValue(digits: string, two: string, value: Option<int>)
    requires digits != [] && AllDigits(digits) && |two| == 2 && AllDigits(two)
    requires InPrecision(false, DigitsValue(digits) * 100 + DigitsValue(two)) == value
    ensures Cents(Decimal(digits + (['.'] + two))) == value
  {
    ValueOfPlain(false, digits, '.', two);
  }

  lemma {:induction false} FewDigits(s: string)
    requires |s| <= 3 && AllDigits(s)
    ensures |s| <= 1 ==> DigitsValue(s) < 10
    ensures |s| <= 2 ==> DigitsValue(s) < 100
    ensures DigitsValue(s) < 1000
  {
    if s != [] { FewDigits(s[..|s| - 1]); }
  }

  /** In particular bare thousands are not thousands: 1.234 is read as 1.23, whatever the context. */
  lemma {:induction false} BareThousandsAreMisread(lead: string, three: string, cents: nat, ctx: bool)
    requires 1 <= |lead| <= 3 && AllDigits(lead) && |three| == 3 && AllDigits(three)
    requires cents == DigitsValue(lead) * 100 + DigitsValue(three[..2])
    ensures ParseMoney(lead + (['.'] + three), ctx) == Amount(cents, lead + (['.'] + three[..2]))
  {
    BareSearch(lead, three);
    BareShape(lead, three);
    PlainCleaned(lead, three[..2]);
    BareValue(lead, three[..2], cents);
    ReadAs(lead + (['.'] + three), lead + (['.'] + three[..2]), Some(cents), ctx);
  }

  // ---- Numbers that are only grouped in part ----

  /** Three digits, with a separator in front of them or without. */
  predicate IsGroup(g: string) {
    (|g| == 3 && AllDigits(g)) || (|g| == 4 && IsSeparator(g[0]) && AllDigits(g[1..]))
  }

  function Joined(groups: seq<string>): string {
    if groups == [] then "" else groups[0] + Joined(groups[1..])
  }

  ghost predicate AreGroups(groups: seq<string>) {
    forall i :: 0 <= i < |groups| ==> IsGroup(groups[i])
  }

  lemma {:induction false} GroupIsTaken(g: string, rest: string)
    requires IsGroup(g)
    ensures Group(g + rest) == Some(|g|)
  {
    var s := g + rest;
    if |g| == 3 {
      assert s[..3] == g;
    } else {
      assert s[1..][..3] == g[1..];
    }
  }

  lemma {:induction false} GroupsTakeAll(groups: seq<string>, end: string)
    requires AreGroups(groups) && EndsAmount(end)
    ensures Groups(Joined(groups) + end) == Some(|Joined(groups)| + 3)
  {
    if groups == [] {
      assert "" + end == end && Joined(groups) == "";
      assert Group(end).None? && Tail(end) == Some(3);
    } else {
      var rest := Joined(groups[1..]) + end;
      assert Joined(groups) + end == groups[0] + rest;
      GroupIsTaken(groups[0], rest);
      assert (groups[0] + rest)[|groups[0]|..] == rest;
      GroupsTakeAll(groups[1..], end);
    }
  }

  /** `s` starts with exactly `d` digits. */
  predicate StartsWithDigits(s: string, d: nat) {
    d <= |s| && AllDigits(s[..d]) && (d < |s| ==> !IsDigit(s[d]))
  }

  lemma {:induction false} OutOfStep(s: string, d: nat)
    requires StartsWithDigits(s, d) && d % 3 != 0
    ensures Groups(s).None?
    decreases |s|
  {
    assert IsDigit(s[..d][0]) && s[0] == s[..d][0];
    assert Tail(s).None?;
    if d > 3 {
      assert AllDigits(s[..3]) by { assert s[..3] == s[..d][..3]; }
      assert AllDigits(s[3..][..d - 3]) by { assert s[3..][..d - 3] == s[..d][3..]; }
      OutOfStep(s[3..], d - 3);
    } else {
      assert !ThreeDigits(s) by { if |s| >= 3 { assert s[..3][d] == s[d]; } }
    }
  }

  /** How many digits stand in front of the first separator, or of the end. */
  function LeadingDigits(groups: seq<string>): nat {
    if groups == [] || |groups[0]| != 3 then 0 else 3 + LeadingDigits(groups[1..])
  }

  lemma {:induction false} ThreeMore(g: string, rest: string, d: nat)
    requires |g| == 3 && AllDigits(g) && StartsWithDigits(rest, d)
    ensures StartsWithDigits(g + rest, 3 + d)
  {
    assert (g + rest)[..3 + d] == g + rest[..d];
  }

  lemma {:induction false} DigitsGoOn(g: string, rest: string, d: nat)
    requires IsGroup(g) && StartsWithDigits(rest, d)
    ensures StartsWithDigits(g + rest, if |g| == 3 then 3 + d else 0)
  {
    if |g| == 3 { ThreeMore(g, rest, d); } else { assert (g + rest)[0] == g[0]; }
  }

  lemma {:induction false} JoinedStep(groups: seq<string>, end: string)
    requires groups != []
    ensures Joined(groups) + end == groups[0] + (Joined(groups[1..]) + end)
  {
  }

  lemma {:induction false} LeadingDigitsLead(groups: seq<string>, end: string)
    requires AreGroups(groups) && EndsAmount(end)
    ensures LeadingDigits(groups) % 3 == 0 && StartsWithDigits(Joined(groups) + end, LeadingDigits(groups))
  {
    if groups == [] {
      assert Joined(groups) + end == end;
    } else {
      LeadingDigitsLead(groups[1..], end);
      DigitsGoOn(groups[0], Joined(groups[1..]) + end, LeadingDigits(groups[1..]));
      JoinedStep(groups, end);
    }
  }

  lemma {:induction false} LongerLeadFails(s: string, k: nat, d: nat)
    requires StartsWithDigits(s, d) && (d - k) % 3 != 0
    ensures Lead(s, k).None?
  {
    if k <= d {
      assert s[k..][..d - k] == s[..d][k..];
      OutOfStep(s[k..], d - k);
    } else if k <= |s| {
      assert s[..k][d] == s[d];
    }
  }

  lemma {:induction false} LeadTakesAll(lead: string, rest: string, d: nat)
    requires 1 <= |lead| <= 3 && AllDigits(lead) && Groups(rest) == Some(|rest|)
    requires d % 3 == 0 && StartsWithDigits(lead + rest, |lead| + d)
    ensures Unsigned(lead + rest) == Some(|lead| + |rest|)
  {
    var s := lead + rest;
    assert s[..|lead|] == lead && s[|lead|..] == rest;
    assert Lead(s, |lead|) == Some(|s|);
    if |lead| < 3 { LongerLeadFails(s, 3, |lead| + d); }
    if |lead| < 2 { LongerLeadFails(s, 2, |lead| + d); }
  }

  lemma {:induction false} UnsignedIsTaken(negative: bool, s: string)
    requires s != [] && s[0] != '-' && Unsigned(s) == Some(|s|)
    ensures Search(Sign(negative) + s) == Some(Sign(negative) + s)
  {
    var amount := Sign(negative) + s;
    if negative { assert amount[1..] == s; } else { assert amount == s; }
    assert amount[..|amount|] == amount;
  }

  /** An amount whose thousands are grouped by separators here and there, of any kind, or nowhere, is taken whole. */
  lemma {:induction false} MixedMatches(negative: bool, lead: string, groups: seq<string>, end: string)
    requires 1 <= |lead| <= 3 && AllDigits(lead) && AreGroups(groups) && EndsAmount(end)
    ensures var amount := Sign(negative) + (lead + (Joined(groups) + end)); Search(amount) == Some(amount)
  {
    var rest, d := Joined(groups) + end, LeadingDigits(groups);
    LeadingDigitsLead(groups, end);
    GroupsTakeAll(groups, end);
    assert (lead + rest)[..|lead| + d] == lead + rest[..d];
    LeadTakesAll(lead, rest, d);
    UnsignedIsTaken(negative, lead + rest);
  }
}
