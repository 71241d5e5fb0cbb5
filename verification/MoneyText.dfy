/** Reading a Norwegian amount from text. */
module MoneyText {
  import opened Basics

  /** An amount in hundredths of a krone, or why there is none. */
  datatype Parsed = Amount(cents: int, raw: string) | Empty | NoAmount | Ambiguous(raw: string) | InvalidDecimal(raw: string)

  const NBSP: char := '\U{a0}'
  const NARROW_NBSP: char := '\U{202f}'

  predicate IsDigit(c: char) {
    '0' <= c <= '9'
  }

  predicate AllDigits(s: string) {
    forall i :: 0 <= i < |s| ==> IsDigit(s[i])
  }

  // ---- The matcher: how much of the front of `s` each part takes, tried in the pattern's order ----

  /** `[,.]\d{2}` */
  function Tail(s: string): Option<nat> {
    if |s| >= 3 && (s[0] == ',' || s[0] == '.') && IsDigit(s[1]) && IsDigit(s[2]) then Some(3) else None
  }

  predicate IsSeparator(c: char) {
    c == ' ' || c == NBSP || c == NARROW_NBSP || c == '.'
  }

  predicate ThreeDigits(s: string) {
    |s| >= 3 && AllDigits(s[..3])
  }

  /** `[ .]?\d{3}`: a separator is no digit, so there is nothing to retry. */
  function Group(s: string): (n: Option<nat>)
    ensures n.Some? ==> 0 < n.value <= |s|
  {
    if s != [] && IsSeparator(s[0]) then (if ThreeDigits(s[1..]) then Some(4) else None)
    else if ThreeDigits(s) then Some(3) else None
  }

  function Plus(n: nat, m: Option<nat>): Option<nat> {
    match m
    case Some(v) => Some(n + v)
    case None => None
  }

  function OrElse(a: Option<nat>, b: Option<nat>): Option<nat> {
    if a.Some? then a else b
  }

  /** `(?:[ .]?\d{3})*[,.]\d{2}`: as many groups as lead to a match, giving one back at a time. */
  function Groups(s: string): Option<nat>
    decreases |s|
  {
    var one := Group(s);
    OrElse(if one.Some? then Plus(one.value, Groups(s[one.value..])) else None, Tail(s))
  }

  /** `\d{k}` before the groups. */
  function Lead(s: string, k: nat): Option<nat> {
    if k <= |s| && AllDigits(s[..k]) then Plus(k, Groups(s[k..])) else None
  }

  /** `\d+[,.]\d{2}`, the most digits first. */
  function Run(s: string): Option<nat> {
    if s == [] || !IsDigit(s[0]) then None else Plus(1, OrElse(Run(s[1..]), Tail(s[1..])))
  }

  function Unsigned(s: string): Option<nat> {
    OrElse(OrElse(Lead(s, 3), OrElse(Lead(s, 2), Lead(s, 1))), Run(s))
  }

  function MatchAt(s: string): Option<nat> {
    if s != [] && s[0] == '-' then Plus(1, Unsigned(s[1..])) else Unsigned(s)
  }

  /** The leftmost match. */
  function Search(s: string): Option<string> {
    var n := MatchAt(s);
    if n.Some? && n.value <= |s| then Some(s[..n.value])
    else if s == [] then None
    else Search(s[1..])
  }

  // ---- Around the matcher ----

  function Replace(s: string, a: char, b: char): string {
    seq(|s|, i requires 0 <= i < |s| => if s[i] == a then b else s[i])
  }

  function Remove(s: string, c: char): string {
    if s == [] then [] else (if s[0] == c then [] else [s[0]]) + Remove(s[1..], c)
  }

  function Count(s: string, c: char): nat {
    if s == [] then 0 else (if s[0] == c then 1 else 0) + Count(s[1..], c)
  }

  /** The last place of `c`, or -1. */
  function LastIndex(s: string, c: char): int {
    if s == [] then -1 else if s[|s| - 1] == c then |s| - 1 else LastIndex(s[..|s| - 1], c)
  }

  function Normalized(text: string): string {
    Trim(Replace(Replace(text, NBSP, ' '), NARROW_NBSP, ' '))
  }

  predicate IsLetter(c: char, lower: char, upper: char) {
    c == lower || c == upper
  }

  /** How much of the front of `s` is `nok` or `kr` or `kr.`, in any case. */
  function Currency(s: string): (n: nat)
    ensures n <= |s|
  {
    if |s| >= 3 && IsLetter(s[0], 'n', 'N') && IsLetter(s[1], 'o', 'O') && IsLetter(s[2], 'k', 'K') then 3
    else if |s| >= 2 && IsLetter(s[0], 'k', 'K') && IsLetter(s[1], 'r', 'R') then (if |s| >= 3 && s[2] == '.' then 3 else 2)
    else 0
  }

  /** Every currency mark is dropped, with the space after it. */
  function WithoutCurrency(s: string): string
    decreases |s|
  {
    if s == [] then []
    else if Currency(s) > 0 then WithoutCurrency(TrimLeft(s[Currency(s)..]))
    else [s[0]] + WithoutCurrency(s[1..])
  }

  // ---- The value ----

  function DigitsValue(s: string): nat
    requires AllDigits(s)
  {
    if s == [] then 0 else DigitsValue(s[..|s| - 1]) * 10 + (s[|s| - 1] - '0') as nat
  }

  /** A decimal has 28 digits. */
  const PRECISION: nat := 10000000000000000000000000000

  function InPrecision(negative: bool, cents: nat): Option<int> {
    var c: int := cents;
    if cents >= PRECISION then None else Some(if negative then -c else c)
  }

  /** `digits` or `digits.dd`, in hundredths. */
  function UnsignedCents(s: string): Option<nat> {
    if s != [] && AllDigits(s) then Some(DigitsValue(s) * 100)
    else if |s| >= 4 && AllDigits(s[..|s| - 3]) && s[|s| - 3] == '.' && AllDigits(s[|s| - 2..]) then
      Some(DigitsValue(s[..|s| - 3]) * 100 + DigitsValue(s[|s| - 2..]))
    else None
  }

  function Cents(s: string): Option<int> {
    var negative := s != [] && s[0] == '-';
    match UnsignedCents(if negative then s[1..] else s)
    case Some(cents) => InPrecision(negative, cents)
    case None => None
  }

  /** `(?:\.\d{3})+` to the end. */
  predicate DotGroups(s: string) {
    |s| >= 4 && s[0] == '.' && AllDigits(s[1..4]) && (|s| == 4 || DotGroups(s[4..]))
  }

  predicate LooksLikeThousands(s: string) {
    var u := if s != [] && s[0] == '-' then s[1..] else s;
    exists k :: 1 <= k <= 3 && k <= |u| && AllDigits(u[..k]) && DotGroups(u[k..])
  }

  /** Which of the marks is the decimal one. */
  function Decimal(cleaned: string): string {
    if ',' in cleaned && '.' in cleaned then
      if LastIndex(cleaned, ',') > LastIndex(cleaned, '.') then Replace(Remove(cleaned, '.'), ',', '.') else Remove(cleaned, ',')
    else if ',' in cleaned then Replace(cleaned, ',', '.')
    else if Count(cleaned, '.') > 1 then Remove(cleaned, '.')
    else cleaned
  }

  function Cleaned(raw: string): string {
    Remove(Remove(Remove(raw, ' '), NBSP), NARROW_NBSP)
  }

  function AsParsed(value: Option<int>, raw: string): Parsed {
    match value
    case Some(cents) => Amount(cents, raw)
    case None => InvalidDecimal(raw)
  }

  function Evaluated(raw: string, cleaned: string): Parsed {
    AsParsed(Cents(Decimal(cleaned)), raw)
  }

  function ParseMoney(text: string, requireContext: bool): Parsed {
    if Trim(text) == [] then Empty
    else
      match Search(Trim(WithoutCurrency(Normalized(text))))
      case None => NoAmount
      case Some(raw) =>
        var cleaned := Cleaned(raw);
        if LooksLikeThousands(cleaned) && ',' !in cleaned then
          if requireContext then Ambiguous(raw) else Evaluated(raw, Remove(cleaned, '.'))
        else Evaluated(raw, cleaned)
  }
}
