/** The handful of Python string operations the scripts use, on ASCII text. */
module Text {

  // ---- decimal numerals ----------------------------------------------------

  function DigitChar(d: int): char
    requires 0 <= d < 10
  {
    '0' + d as char
  }

  predicate IsDigit(c: char) { '0' <= c <= '9' }

  function DigitValue(c: char): (d: int)
    requires IsDigit(c)
    ensures 0 <= d < 10 && DigitChar(d) == c
  {
    c as int - '0' as int
  }

  ghost predicate AllDigits(s: string) { forall i :: 0 <= i < |s| ==> IsDigit(s[i]) }

  /** `str(n)` for a natural number. */
  function Decimal(n: nat): (s: string)
    ensures s != "" && AllDigits(s)
  {
    if n < 10 then [DigitChar(n)] else Decimal(n / 10) + [DigitChar(n % 10)]
  }

  /** `int(s)` for a run of decimal digits. */
  function Numeral(s: string): nat
    requires AllDigits(s)
  {
    if s == "" then 0 else 10 * Numeral(s[..|s| - 1]) + DigitValue(s[|s| - 1])
  }

  lemma {:induction false} DecimalRoundTrip(n: nat)
    ensures Numeral(Decimal(n)) == n
  {
    if n >= 10 {
      DecimalRoundTrip(n / 10);
      assert Decimal(n)[..|Decimal(n)| - 1] == Decimal(n / 10);
    }
  }

  lemma {:induction false} DecimalInjective(m: nat, n: nat)
    requires Decimal(m) == Decimal(n)
    ensures m == n
  {
    DecimalRoundTrip(m);
    DecimalRoundTrip(n);
  }

  // ---- separators ----------------------------------------------------------

  ghost predicate Free(c: char, s: string) { c !in s }

  /** Text before the first separator decides where the first separator is. */
  lemma {:induction false} FirstSeparator(c: char, a: string, b: string, x: string, y: string)
    requires Free(c, a) && Free(c, x)
    requires a + [c] + b == x + [c] + y
    ensures a == x && b == y
  {
    var l, r := a + [c] + b, x + [c] + y;
    assert l[|a|] == c && r[|x|] == c;
    assert forall i :: 0 <= i < |a| ==> l[i] == a[i] != c;
    assert forall i :: 0 <= i < |x| ==> r[i] == x[i] != c;
    assert |a| == |x|;
    assert l[..|a|] == a && r[..|x|] == x;
    assert l[|a| + 1..] == b && r[|x| + 1..] == y;
  }

  /** Text after the last separator decides where the last separator is. */
  lemma {:induction false} LastSeparator(c: char, a: string, b: string, x: string, y: string)
    requires Free(c, b) && Free(c, y)
    requires a + [c] + b == x + [c] + y
    ensures a == x && b == y
  {
    var l, r := a + [c] + b, x + [c] + y;
    assert l[|a|] == c && r[|x|] == c;
    assert forall i :: |a| < i < |l| ==> l[i] == b[i - |a| - 1] != c;
    assert forall i :: |x| < i < |r| ==> r[i] == y[i - |x| - 1] != c;
    assert |a| == |x|;
    assert l[..|a|] == a && r[..|x|] == x;
    assert l[|a| + 1..] == b && r[|x| + 1..] == y;
  }

  // ---- ASCII case and white space -------------------------------------------

  predicate IsUpper(c: char) { 'A' <= c <= 'Z' }

  predicate IsLower(c: char) { 'a' <= c <= 'z' }

  predicate IsSpace(c: char) { c == ' ' || '\t' <= c <= '\r' || '\U{1c}' <= c <= '\U{1f}' }

  function UpperChar(c: char): (u: char)
    ensures !IsLower(u)
  {
    if IsLower(c) then (c as int - 32) as char else c
  }

  function LowerChar(c: char): (u: char)
    ensures !IsUpper(u)
  {
    if IsUpper(c) then (c as int + 32) as char else c
  }

  function Upper(s: string): (u: string)
    ensures |u| == |s| && forall i :: 0 <= i < |s| ==> u[i] == UpperChar(s[i])
  {
    seq(|s|, i requires 0 <= i < |s| => UpperChar(s[i]))
  }

  function Lower(s: string): (u: string)
    ensures |u| == |s| && forall i :: 0 <= i < |s| ==> u[i] == LowerChar(s[i])
  {
    seq(|s|, i requires 0 <= i < |s| => LowerChar(s[i]))
  }

  function TrimLeft(s: string): (t: string)
    ensures t == "" || !IsSpace(t[0])
    ensures |t| <= |s| && t == s[|s| - |t|..]
  {
    if s == "" then "" else if IsSpace(s[0]) then TrimLeft(s[1..]) else s
  }

  function TrimRight(s: string): (t: string)
    ensures t == "" || !IsSpace(t[|t| - 1])
    ensures t <= s
  {
    if s == "" then "" else if IsSpace(s[|s| - 1]) then TrimRight(s[..|s| - 1]) else s
  }

  /** `s.strip()` */
  function Strip(s: string): string { TrimRight(TrimLeft(s)) }

  /** `not str(x or "").strip()` */
  predicate Blank(s: string) { Strip(s) == "" }

  /** Text with no white space at either end is left alone by `strip`. */
  lemma {:induction false} StripKeeps(s: string)
    requires s == "" || (!IsSpace(s[0]) && !IsSpace(s[|s| - 1]))
    ensures Strip(s) == s
  {
  }

  predicate StartsWith(s: string, prefix: string) { prefix <= s }
}
