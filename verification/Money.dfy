/** Money text: the comma-grouping printer and the parsers that read it back.

    Amounts are naturals; the binary floating point they are held in is exact on
    them up to 2^53 and not modelled beyond. */
module Money {
  import opened Base
  import opened Text

  // ---- the printer ----------------------------------------------------------------------

  function ThreeDigits(n: nat): (s: string)
    requires n < 1000
    ensures |s| == 3 && AllDigits(s)
  {
    [DigitChar(n / 100), DigitChar(n / 10 % 10), DigitChar(n % 10)]
  }

  /** f"{n:,.0f}" */
  function Grouped(n: nat): string {
    if n < 1000 then Decimal(n) else Grouped(n / 1000) + "," + ThreeDigits(n % 1000)
  }

  function Symbol(currency: string): Option<string> {
    if currency == "GBP" then Some("£") else if currency == "EUR" then Some("€") else if currency == "USD" then Some("$") else None
  }

  /** money(amount, currency) of generate_incentive_reference. */
  function PrintMoney(amount: Option<nat>, currency: string): string {
    match amount
    case None => "not applicable"
    case Some(n) =>
      match Symbol(Upper(if currency == "" then "GBP" else currency))
      case Some(symbol) => symbol + Grouped(n)
      case None => currency + " " + Grouped(n)
  }

  // ---- the parsers ------------------------------------------------------------------------

  /** A parser gives nothing, an amount, or a ValueError out of float(""). */
  datatype Parsed = NoMatch | Amount(currency: string, n: nat) | Raises

  predicate IsFigure(c: char) { IsDigit(c) || c == ',' }

  predicate IsWord(c: char) { IsDigit(c) || IsUpper(c) || IsLower(c) || c == '_' }

  /** How much white space `s` starts with. */
  function Spaces(s: string): (k: nat)
    ensures k <= |s| && (k == |s| || !IsSpace(s[k])) && forall i :: 0 <= i < k ==> IsSpace(s[i])
  {
    if s == "" || !IsSpace(s[0]) then 0 else 1 + Spaces(s[1..])
  }

  /** How many digits and commas `s` starts with. */
  function Figures(s: string): (k: nat)
    ensures k <= |s| && (k == |s| || !IsFigure(s[k])) && forall i :: 0 <= i < k ==> IsFigure(s[i])
  {
    if s == "" || !IsFigure(s[0]) then 0 else 1 + Figures(s[1..])
  }

  ghost predicate AllFigures(s: string) { forall i :: 0 <= i < |s| ==> IsFigure(s[i]) }

  /** `s.replace(",", "")` */
  function NoCommas(s: string): (d: string)
    ensures AllFigures(s) ==> AllDigits(d)
  {
    if s == "" then ""
    else
      var n := |s| - 1;
      NoCommas(s[..n]) + if s[n] == ',' then [] else [s[n]]
  }

  /** `float(figure.replace(",", ""))` */
  function Reading(currency: string, figure: string): Parsed
    requires AllFigures(figure)
  {
    if NoCommas(figure) == "" then Raises else Amount(currency, Numeral(NoCommas(figure)))
  }

  predicate ThreeCapitals(s: string) { |s| >= 3 && IsUpper(s[0]) && IsUpper(s[1]) && IsUpper(s[2]) }

  /** Where the figure starts in `([A-Z]{3})\s+([\d,]+)` at the front of `s`. */
  function FigureAt(s: string): nat
    requires ThreeCapitals(s)
  {
    3 + Spaces(s[3..])
  }

  /** The pattern matches at the front of `s` with a figure of at least `least`. */
  predicate MatchesAt(s: string, least: nat) {
    ThreeCapitals(s) && FigureAt(s) > 3 && Figures(s[FigureAt(s)..]) >= least
  }

  function FigureOf(s: string): (f: string)
    requires ThreeCapitals(s)
    ensures AllFigures(f)
  {
    var k := FigureAt(s);
    s[k..k + Figures(s[k..])]
  }

  const NONE_STRINGS: set<string> := {"none", "n/a", "none published", "none found", "not applicable"}

  predicate IsNone(s: string) { Lower(Strip(s)) in NONE_STRINGS }

  /** _money(v): the whole stripped text, or with `prefix` its front. */
  function ReadMoney(v: string, prefix: bool): Parsed {
    if IsNone(v) then NoMatch
    else
      var s := Strip(v);
      if MatchesAt(s, 1) && (prefix || FigureAt(s) + |FigureOf(s)| == |s|) then Reading(s[..3], FigureOf(s)) else NoMatch
  }

  /** `\b` before a capital. */
  predicate Boundary(s: string, i: nat)
    requires i <= |s|
  {
    i == 0 || !IsWord(s[i - 1])
  }

  predicate FoundAt(s: string, i: nat)
    requires i <= |s|
  {
    Boundary(s, i) && MatchesAt(s[i..], 4)
  }

  /** re.search: the leftmost place from `i` on, None when there is none. */
  function FindMoney(s: string, i: nat): (k: Option<nat>)
    requires i <= |s|
    ensures k.Some? ==> i <= k.value <= |s| && FoundAt(s, k.value) && forall j :: i <= j < k.value ==> !FoundAt(s, j)
    ensures k.None? ==> forall j :: i <= j <= |s| ==> !FoundAt(s, j)
    decreases |s| - i
  {
    if FoundAt(s, i) then Some(i) else if i == |s| then None else FindMoney(s, i + 1)
  }

  /** _embedded_money(v): the first figure of four or more characters anywhere. */
  function EmbeddedMoney(v: string): Parsed {
    if IsNone(v) then NoMatch
    else
      match FindMoney(v, 0)
      case None => NoMatch
      case Some(i) => Reading(v[i..][..3], FigureOf(v[i..]))
  }

  // ---- percentages ------------------------------------------------------------------------

  function Digits(s: string): (k: nat)
    ensures k <= |s| && (k == |s| || !IsDigit(s[k])) && forall i :: 0 <= i < k ==> IsDigit(s[i])
  {
    if s == "" || !IsDigit(s[0]) then 0 else 1 + Digits(s[1..])
  }

  /** How long `\d+(?:\.\d+)?` is at the front of `s`; 0 when it does not match. */
  function NumberLength(s: string): (k: nat)
    ensures k <= |s|
  {
    var k := Digits(s);
    if 0 < k < |s| && s[k] == '.' && Digits(s[k + 1..]) > 0 then k + 1 + Digits(s[k + 1..]) else k
  }

  predicate PercentAt(s: string) {
    var k := NumberLength(s);
    k > 0 && k + Spaces(s[k..]) < |s| && s[k + Spaces(s[k..])] == '%'
  }

  predicate PercentFrom(s: string, i: nat)
    requires i <= |s|
  {
    PercentAt(s[i..])
  }

  /** re.search for the percentage: the leftmost place from `i` on, None when there is none. */
  function FindPercent(s: string, i: nat): (k: Option<nat>)
    requires i <= |s|
    ensures k.Some? ==> i <= k.value <= |s| && PercentFrom(s, k.value) && forall j :: i <= j < k.value ==> !PercentFrom(s, j)
    ensures k.None? ==> forall j :: i <= j <= |s| ==> !PercentFrom(s, j)
    decreases |s| - i
  {
    if PercentFrom(s, i) then Some(i) else if i == |s| then None else FindPercent(s, i + 1)
  }

  function Percent(s: string): Option<string> {
    match FindPercent(s, 0) case None => None case Some(i) => Some(s[i..][..NumberLength(s[i..])])
  }

  /** A percentage as text and an absolute amount with its currency, or the
      ValueError of the amount's reading. */
  datatype Cap = CapRaises | Cap(percent: Option<string>, amount: Option<(string, nat)>)

  /** _qualifying_spend_cap */
  function QualifyingSpendCap(v: string): Cap {
    if IsNone(v) then Cap(None, None)
    else
      match EmbeddedMoney(v)
      case Raises => CapRaises
      case NoMatch => Cap(Percent(v), None)
      case Amount(currency, n) => Cap(Percent(v), Some((currency, n)))
  }
}
