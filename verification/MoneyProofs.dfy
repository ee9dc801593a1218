/** Printed money reads back, and the two parsers agree where they should. */
module MoneyProofs {
  import opened Base
  import opened Text
  import opened Money

  // ---- grouped figures ------------------------------------------------------------------

  lemma {:induction false} DecimalSplit(n: nat)
    requires n >= 1000
    ensures Decimal(n) == Decimal(n / 1000) + ThreeDigits(n % 1000)
  {
    var a := n / 10;
    var b := a / 10;
    LastThree(n);
    DecimalStep(n);
    DecimalStep(a);
    DecimalStep(b);
    hide Decimal, DigitChar;
    assert Decimal(n) == Decimal(b / 10) + [DigitChar(b % 10), DigitChar(a % 10), DigitChar(n % 10)];
  }

  lemma {:induction false} DecimalStep(n: nat)
    requires n >= 10
    ensures Decimal(n) == Decimal(n / 10) + [DigitChar(n % 10)]
  {
  }

  lemma {:induction false} LastThree(n: nat)
    ensures n / 10 / 10 / 10 == n / 1000
    ensures n % 1000 / 100 == n / 10 / 10 % 10 && n % 1000 / 10 % 10 == n / 10 % 10 && n % 1000 % 10 == n % 10
  {
  }

  lemma {:induction false} NoCommasSnoc(s: string, c: char)
    ensures NoCommas(s + [c]) == NoCommas(s) + if c == ',' then [] else [c]
  {
  }

  lemma {:induction false} NoCommasConcat(a: string, b: string)
    ensures NoCommas(a + b) == NoCommas(a) + NoCommas(b)
  {
    if b == "" {
      assert a + b == a;
      assert NoCommas(a) + "" == NoCommas(a);
    } else {
      hide NoCommas;
      var front, c := b[..|b| - 1], b[|b| - 1];
      assert b == front + [c] && a + b == (a + front) + [c];
      NoCommasConcat(a, front);
      NoCommasSnoc(a + front, c);
      NoCommasSnoc(front, c);
    }
  }

  lemma {:induction false} NoCommasDigits(d: string)
    requires AllDigits(d)
    ensures AllFigures(d) && NoCommas(d) == d
  {
    if d != "" {
      hide NoCommas;
      var front, c := d[..|d| - 1], d[|d| - 1];
      assert d == front + [c];
      NoCommasDigits(front);
      NoCommasSnoc(front, c);
    }
  }

  lemma {:induction false} OneComma()
    ensures AllFigures(",") && NoCommas(",") == ""
  {
  }

  /** Grouping only adds commas, and needs one from a thousand on. */
  lemma {:induction false} GroupedIs(n: nat)
    ensures AllFigures(Grouped(n)) && NoCommas(Grouped(n)) == Decimal(n)
    ensures |Grouped(n)| >= 4 <==> n >= 1000
    ensures Grouped(n) != "" && IsDigit(Grouped(n)[0]) && IsDigit(Grouped(n)[|Grouped(n)| - 1])
  {
    hide NoCommas, Decimal, ThreeDigits;
    if n < 1000 {
      NoCommasDigits(Decimal(n));
      ShortDecimal(n);
    } else {
      GroupedIs(n / 1000);
      GroupMore(Grouped(n / 1000), ThreeDigits(n % 1000));
      DecimalSplit(n);
    }
  }

  /** One more group after a comma. */
  lemma {:induction false} GroupMore(g: string, three: string)
    requires g != "" && AllFigures(g) && IsDigit(g[0]) && |three| == 3 && AllDigits(three)
    ensures var s := g + "," + three; AllFigures(s) && NoCommas(s) == NoCommas(g) + three && IsDigit(s[0]) && IsDigit(s[|s| - 1]) && |s| >= 5
  {
    hide NoCommas;
    NoCommasDigits(three);
    OneComma();
    NoCommasConcat(g, ",");
    NoCommasConcat(g + ",", three);
    assert NoCommas(g) + "" == NoCommas(g);
  }

  lemma {:induction false} ShortDecimal(n: nat)
    requires n < 1000
    ensures |Decimal(n)| < 4
  {
    assert n / 10 / 10 < 10;
    if n >= 10 { DecimalStep(n); }
    if n / 10 >= 10 { DecimalStep(n / 10); }
    assert |Decimal(n / 10 / 10)| == 1;
  }

  /** The comma-stripping reader inverts the printer. */
  lemma {:induction false} GroupedReads(n: nat)
    ensures AllFigures(Grouped(n)) && Numeral(NoCommas(Grouped(n))) == n
  {
    GroupedIs(n);
    DecimalRoundTrip(n);
  }

  lemma {:induction false} GroupedReading(currency: string, n: nat)
    ensures AllFigures(Grouped(n)) && Reading(currency, Grouped(n)) == Amount(currency, n)
  {
    GroupedIs(n);
    DecimalRoundTrip(n);
  }

  // ---- the pattern at one place -------------------------------------------------------------

  ghost predicate Capitals(c: string) { |c| == 3 && IsUpper(c[0]) && IsUpper(c[1]) && IsUpper(c[2]) }

  ghost predicate AllSpace(s: string) { forall i :: 0 <= i < |s| ==> IsSpace(s[i]) }

  ghost predicate Ends(rest: string) { rest == "" || !IsFigure(rest[0]) }

  /** A currency, white space, a figure, and whatever follows it. */
  lemma {:induction false} MatchesHere(c: string, ws: string, fig: string, rest: string, least: nat)
    requires Capitals(c) && ws != "" && AllSpace(ws) && fig != "" && AllFigures(fig) && Ends(rest)
    ensures var s := c + ws + fig + rest;
            && ThreeCapitals(s) && s[..3] == c && FigureAt(s) == 3 + |ws| && FigureOf(s) == fig
            && (MatchesAt(s, least) <==> |fig| >= least)
  {
    hide Spaces, Figures;
    var s := c + ws + fig + rest;
    assert s[3..] == ws + fig + rest;
    var k := Spaces(s[3..]);
    assert forall i :: 0 <= i < |ws| ==> s[3..][i] == ws[i];
    assert s[3..][|ws|] == fig[0] && !IsSpace(fig[0]);
    assert k == |ws|;
    var tail := s[3 + |ws|..];
    assert tail == fig + rest;
    assert forall i :: 0 <= i < |fig| ==> tail[i] == fig[i];
    assert rest != "" ==> tail[|fig|] == rest[0];
    assert Figures(tail) == |fig|;
    assert s[3 + |ws|..3 + |ws| + |fig|] == fig;
  }

  lemma {:induction false} MatchedParts(s: string) returns (c: string, ws: string, fig: string, rest: string)
    requires MatchesAt(s, 1)
    ensures Capitals(c) && ws != "" && AllSpace(ws) && fig != "" && AllFigures(fig) && Ends(rest)
    ensures s == c + ws + fig + rest && c == s[..3] && fig == FigureOf(s) && FigureAt(s) == 3 + |ws|
  {
    hide Spaces, Figures;
    var k := FigureAt(s);
    var n := Figures(s[k..]);
    c, ws, fig, rest := s[..3], s[3..k], s[k..k + n], s[k + n..];
    assert forall i :: 0 <= i < |ws| ==> ws[i] == s[3..][i];
    assert rest != "" ==> rest[0] == s[k..][n];
  }

  // ---- none strings ------------------------------------------------------------------------------

  /** Stripping takes white space off both ends and nothing else. */
  lemma {:induction false} StripSplit(v: string) returns (a: string, b: string)
    ensures v == a + Strip(v) + b && AllSpace(a) && AllSpace(b)
  {
    hide TrimLeft, TrimRight;
    var t := TrimLeft(v);
    a := v[..|v| - |t|];
    LeftSpace(v);
    var u := TrimRight(t);
    b := t[|u|..];
    RightSpace(t);
  }

  lemma {:induction false} LeftSpace(v: string)
    ensures AllSpace(v[..|v| - |TrimLeft(v)|])
  {
    if v != "" && IsSpace(v[0]) {
      LeftSpace(v[1..]);
      var k := |v| - |TrimLeft(v)|;
      assert v[..k] == [v[0]] + v[1..][..k - 1];
    }
  }

  lemma {:induction false} RightSpace(t: string)
    ensures AllSpace(t[|TrimRight(t)|..])
  {
    if t != "" && IsSpace(t[|t| - 1]) {
      var n := |t| - 1;
      RightSpace(t[..n]);
      assert t[|TrimRight(t)|..] == t[..n][|TrimRight(t)|..] + [t[n]];
    }
  }

  lemma {:induction false} NoneHasNoFigure(s: string)
    requires s in NONE_STRINGS
    ensures forall i :: 0 <= i < |s| ==> !IsFigure(s[i])
  {
  }

  /** Text with a digit or a comma in it is not one of the none strings. */
  lemma {:induction false} FigureNotNone(v: string, i: nat)
    requires i < |v| && IsFigure(v[i])
    ensures !IsNone(v)
  {
    hide Strip, NONE_STRINGS;
    var a, b := StripSplit(v);
    var s := Strip(v);
    assert forall j :: 0 <= j < |a| ==> v[j] == a[j];
    assert forall j :: |a| + |s| <= j < |v| ==> v[j] == b[j - |a| - |s|];
    assert |a| <= i < |a| + |s|;
    assert s[i - |a|] == v[i] && Lower(s)[i - |a|] == v[i];
    if Lower(s) in NONE_STRINGS { NoneHasNoFigure(Lower(s)); }
  }

  // ---- searching ------------------------------------------------------------------------------

  /** Nothing is found where no capital stands, nor two places after. */
  lemma {:induction false} NoCapitalNoMatch(v: string, j: nat, k: nat)
    requires j <= |v| && k < 3 && (j + k >= |v| || !IsUpper(v[j + k]))
    ensures !FoundAt(v, j)
  {
  }

  ghost predicate NoCapitals(s: string) { forall i :: 0 <= i < |s| ==> !IsUpper(s[i]) }

  /** Text that holds no figure itself and that a figure may follow as a word of
      its own. */
  ghost predicate Opens(p: string) { FindMoney(p, 0).None? && (p == "" || !IsWord(p[|p| - 1])) }

  /** A money code right after `q` neither makes nor breaks a match that starts in `q`. */
  lemma {:induction false} MatchStable(q: string, s: string)
    requires q != "" && ThreeCapitals(s)
    ensures MatchesAt(q + s, 4) <==> MatchesAt(q, 4)
  {
    hide Spaces, Figures;
    var t := q + s;
    assert forall i :: 0 <= i < |q| ==> t[i] == q[i];
    if |q| < 3 {
      assert t[3] == s[3 - |q|];
      assert IsUpper(t[3]) && !IsSpace(t[3]);
      assert |t| > 3 && t[3..][0] == t[3];
    } else {
      assert t[3..] == q[3..] + s;
      SpacesStable(q[3..], s);
      if ThreeCapitals(q) {
        var k := FigureAt(q);
        assert t[k..] == q[k..] + s;
        FiguresStable(q[k..], s);
      }
    }
  }

  lemma {:induction false} SpacesStable(q: string, s: string)
    requires s != "" && !IsSpace(s[0])
    ensures Spaces(q + s) == Spaces(q)
  {
    hide Spaces;
    assert forall i :: 0 <= i < |q| ==> (q + s)[i] == q[i];
    assert (q + s)[|q|] == s[0];
  }

  lemma {:induction false} FiguresStable(q: string, s: string)
    requires s != "" && !IsFigure(s[0])
    ensures Figures(q + s) == Figures(q)
  {
    hide Figures;
    assert forall i :: 0 <= i < |q| ==> (q + s)[i] == q[i];
    assert (q + s)[|q|] == s[0];
  }

  lemma {:induction false} FoundStable(p: string, s: string, j: nat)
    requires j < |p| && ThreeCapitals(s)
    ensures FoundAt(p + s, j) <==> FoundAt(p, j)
  {
    hide MatchesAt;
    assert (p + s)[j..] == p[j..] + s;
    MatchStable(p[j..], s);
    assert j > 0 ==> (p + s)[j - 1] == p[j - 1];
  }

  /** After text that holds no figure of its own, the first figure of four or more
      characters is the one that is read, whatever follows it. */
  lemma {:induction false} FirstFigureWins(p: string, c: string, ws: string, fig: string, rest: string)
    requires Opens(p) && Capitals(c) && ws != "" && AllSpace(ws) && AllFigures(fig) && Ends(rest) && |fig| >= 4
    ensures EmbeddedMoney(p + c + ws + fig + rest) == Reading(c, fig)
  {
    hide MatchesAt, IsNone, FigureOf, FigureAt, FoundAt, NoCommas, FindMoney;
    var v, s := p + c + ws + fig + rest, c + ws + fig + rest;
    assert v == p + s && v[|p|..] == s;
    MatchesHere(c, ws, fig, rest, 4);
    FoundHere(p, s);
    forall j | 0 <= j < |p| ensures !FoundAt(v, j) { FoundStable(p, s, j); }
    assert FindMoney(v, 0) == Some(|p|);
    assert v[|p| + 3 + |ws|] == fig[0];
    FigureNotNone(v, |p| + 3 + |ws|);
  }

  lemma {:induction false} FoundHere(p: string, s: string)
    requires Opens(p) && MatchesAt(s, 4)
    ensures FoundAt(p + s, |p|)
  {
    hide MatchesAt, FindMoney;
    assert (p + s)[|p|..] == s;
  }

  /** Where a match starts there is a figure, so the text is not one of the none strings. */
  lemma {:induction false} FoundNotNone(v: string, i: nat)
    requires i <= |v| && MatchesAt(v[i..], 1)
    ensures !IsNone(v)
  {
    hide IsNone;
    var s := v[i..];
    var k := FigureAt(s);
    assert IsFigure(s[k..][0]) && s[k..][0] == v[i + k];
    FigureNotNone(v, i + k);
  }

  /** _embedded_money reads the figure at the leftmost place where one stands, and
      finds nothing exactly when there is no such place. */
  lemma {:induction false} EmbeddedIsLeftmost(v: string)
    ensures EmbeddedMoney(v) == NoMatch <==> forall i :: 0 <= i <= |v| ==> !FoundAt(v, i)
    ensures forall i :: 0 <= i <= |v| && FoundAt(v, i) && (forall j :: 0 <= j < i ==> !FoundAt(v, j)) ==>
              EmbeddedMoney(v) == Reading(v[i..][..3], FigureOf(v[i..]))
  {
    hide IsNone, FindMoney, NoCommas, MatchesAt, FigureOf, FigureAt;
    forall i | 0 <= i <= |v| && FoundAt(v, i) ensures !IsNone(v) {
      FourIsOne(v[i..]);
      FoundNotNone(v, i);
    }
  }

  lemma {:induction false} FourIsOne(s: string)
    requires MatchesAt(s, 4)
    ensures MatchesAt(s, 1) && |FigureOf(s)| >= 4
  {
  }

  /** Text that is one figure of fewer than four characters between white space holds
      nothing for the search. */
  lemma {:induction false} ShortFigureNotFound(p: string, c: string, ws: string, fig: string, rest: string)
    requires AllSpace(p) && Capitals(c) && ws != "" && AllSpace(ws) && fig != "" && AllFigures(fig) && AllSpace(rest) && |fig| < 4
    ensures EmbeddedMoney(p + c + ws + fig + rest) == NoMatch
  {
    hide MatchesAt, IsNone, FigureOf, FigureAt, FoundAt, NoCommas;
    var v, s := p + c + ws + fig + rest, c + ws + fig + rest;
    assert v == p + s && v[|p|..] == s;
    MatchesHere(c, ws, fig, rest, 4);
    assert forall i :: 0 <= i < |v| && (i < |p| || i >= |p| + 3) ==> !IsUpper(v[i]);
    forall j | 0 <= j <= |v| ensures !FoundAt(v, j) {
      if j == |p| {
        NotFoundHere(v, j);
      } else if j == |p| + 1 || j == |p| + 2 {
        NoCapitalNoMatch(v, j, |p| + 3 - j);
      } else {
        NoCapitalNoMatch(v, j, 0);
      }
    }
  }

  lemma {:induction false} NotFoundHere(v: string, j: nat)
    requires j <= |v| && !MatchesAt(v[j..], 4)
    ensures !FoundAt(v, j)
  {
  }

  // ---- the printed text ---------------------------------------------------------------------------

  lemma {:induction false} Priced(c: string, n: nat)
    requires Capitals(c) && Symbol(c).None?
    ensures PrintMoney(Some(n), c) == c + " " + Grouped(n)
  {
  }

  lemma {:induction false} OneSpace()
    ensures AllSpace(" ") && " " != "" && Ends("")
  {
  }

  lemma {:induction false} PlainTextKept(s: string)
    requires s != "" && !IsSpace(s[0]) && !IsSpace(s[|s| - 1])
    ensures Strip(s) == s
  {
  }

  /** What the whole-text parser makes of a currency and a figure. */
  lemma {:induction false} WholeText(c: string, ws: string, fig: string, prefix: bool)
    requires Capitals(c) && ws != "" && AllSpace(ws) && fig != "" && AllFigures(fig)
    ensures ReadMoney(c + ws + fig, prefix) == Reading(c, fig)
  {
    hide MatchesAt, IsNone, FigureOf, FigureAt, NoCommas, Strip;
    var s := c + ws + fig;
    assert s == c + ws + fig + "";
    MatchesHere(c, ws, fig, "", 1);
    assert s[0] == c[0] && s[|s| - 1] == fig[|fig| - 1];
    PlainTextKept(s);
    assert s[3 + |ws|] == fig[0];
    FigureNotNone(s, 3 + |ws|);
  }

  /** Money round trip: every amount printed in a three-letter currency reads back,
      unless the currency is printed as a symbol. */
  lemma {:induction false} MoneyRoundTrip(c: string, n: nat)
    requires Capitals(c)
    ensures ReadMoney(PrintMoney(Some(n), c), false) == if Symbol(c).None? then Amount(c, n) else NoMatch
  {
    hide ReadMoney, Grouped, Reading, PrintMoney;
    GroupedIs(n);
    if Symbol(c).None? {
      Priced(c, n);
      OneSpace();
      WholeText(c, " ", Grouped(n), false);
      GroupedReading(c, n);
    } else {
      SymbolText(c, n);
      NoCapitalsNoMoney(PrintMoney(Some(n), c), false);
    }
  }

  lemma {:induction false} SymbolText(c: string, n: nat)
    requires Capitals(c) && Symbol(c).Some?
    ensures NoCapitals(PrintMoney(Some(n), c))
  {
    hide Grouped;
    assert Upper(c) == c;
    GroupedIs(n);
    assert |Symbol(c).value| == 1 && !IsUpper(Symbol(c).value[0]);
  }

  lemma {:induction false} NoCapitalsNoMoney(v: string, prefix: bool)
    requires NoCapitals(v)
    ensures ReadMoney(v, prefix) == NoMatch && EmbeddedMoney(v) == NoMatch
  {
  }

  /** The embedded parser reads back every printed amount from a thousand on, and
      none below: a figure it accepts has four characters. */
  lemma {:induction false} EmbeddedRoundTrip(c: string, n: nat)
    requires Capitals(c)
    ensures EmbeddedMoney(PrintMoney(Some(n), c)) == if Symbol(c).None? && n >= 1000 then Amount(c, n) else NoMatch
  {
    hide EmbeddedMoney, Grouped, Reading, PrintMoney;
    GroupedIs(n);
    if Symbol(c).None? {
      Priced(c, n);
      OneSpace();
      assert c + " " + Grouped(n) == "" + c + " " + Grouped(n) + "";
      if n >= 1000 {
        FirstFigureWins("", c, " ", Grouped(n), "");
        GroupedReading(c, n);
      } else {
        ShortFigureNotFound("", c, " ", Grouped(n), "");
      }
    } else {
      SymbolText(c, n);
      NoCapitalsNoMoney(PrintMoney(Some(n), c), false);
    }
  }

  // ---- the two parsers agree ---------------------------------------------------------------------------

  /** Whatever text the whole-text parser accepts, the embedded one reads the same
      way exactly when its figure has four or more characters, and nothing otherwise. */
  lemma {:induction false} ParsersAgree(v: string)
    requires ReadMoney(v, false) != NoMatch
    ensures ThreeCapitals(Strip(v))
    ensures EmbeddedMoney(v) == if |FigureOf(Strip(v))| >= 4 then ReadMoney(v, false) else NoMatch
  {
    hide MatchesAt, IsNone, FigureOf, FigureAt, NoCommas, Strip, EmbeddedMoney;
    var s := Strip(v);
    var a, b := StripSplit(v);
    assert ThreeCapitals(s) by { MatchNeedsCapitals(s); }
    var c, ws, fig, rest := MatchedParts(s);
    assert rest == "";
    assert v == a + c + ws + fig + b;
    assert Ends(b) by { SpaceEnds(b); }
    assert Opens(a) by { SpaceOpens(a); }
    if |fig| >= 4 {
      FirstFigureWins(a, c, ws, fig, b);
    } else {
      ShortFigureNotFound(a, c, ws, fig, b);
    }
  }

  lemma {:induction false} MatchNeedsCapitals(s: string)
    requires MatchesAt(s, 1)
    ensures ThreeCapitals(s)
  {
  }

  lemma {:induction false} SpaceEnds(b: string)
    requires AllSpace(b)
    ensures Ends(b)
  {
  }

  lemma {:induction false} SpaceOpens(a: string)
    requires AllSpace(a)
    ensures Opens(a)
  {
  }

  ghost predicate AllCommas(fig: string) { forall i :: 0 <= i < |fig| ==> fig[i] == ',' }

  /** _money does not refuse a figure of nothing but commas, it raises: on any text,
      whole or by its front, exactly when the pattern matches and that is the figure. */
  lemma {:induction false} RaisesOnlyOnCommas(v: string, prefix: bool)
    ensures ReadMoney(v, prefix) == Raises <==>
            var s := Strip(v); MatchesAt(s, 1) && (prefix || FigureAt(s) + |FigureOf(s)| == |s|) && AllCommas(FigureOf(s))
  {
    hide Strip, IsNone, NoCommas, FigureOf, FigureAt, MatchesAt;
    var s := Strip(v);
    if MatchesAt(s, 1) {
      StrippedNotNone(v);
      MatchNeedsCapitals(s);
      OnlyCommas(FigureOf(s));
    }
  }

  lemma {:induction false} StrippedNotNone(v: string)
    requires MatchesAt(Strip(v), 1)
    ensures !IsNone(v)
  {
    hide Strip, IsNone;
    var a, b := StripSplit(v);
    var s := Strip(v);
    var k := FigureAt(s);
    assert IsFigure(s[k..][0]) && s[k..][0] == s[k] == v[|a| + k];
    FigureNotNone(v, |a| + k);
  }

  /** The same of the embedded reader, at the leftmost place it finds. */
  lemma {:induction false} EmbeddedRaisesOnlyOnCommas(v: string)
    ensures EmbeddedMoney(v) == Raises <==> FindMoney(v, 0).Some? && AllCommas(FigureOf(v[FindMoney(v, 0).value..]))
  {
    hide IsNone, FindMoney, NoCommas, FigureOf, FigureAt, MatchesAt;
    EmbeddedIsLeftmost(v);
    if FindMoney(v, 0).Some? {
      var i := FindMoney(v, 0).value;
      FourIsOne(v[i..]);
      MatchNeedsCapitals(v[i..]);
      FoundNotNone(v, i);
      OnlyCommas(FigureOf(v[i..]));
    }
  }

  /** And of a cap, which is read through it. */
  lemma {:induction false} CapRaisesOnlyOnCommas(v: string)
    ensures QualifyingSpendCap(v) == CapRaises <==> FindMoney(v, 0).Some? && AllCommas(FigureOf(v[FindMoney(v, 0).value..]))
  {
    hide IsNone, FindMoney, NoCommas, FigureOf, FigureAt, MatchesAt, EmbeddedMoney, Percent;
    EmbeddedRaisesOnlyOnCommas(v);
    EmbeddedNotNone(v);
  }

  lemma {:induction false} EmbeddedNotNone(v: string)
    ensures EmbeddedMoney(v) != NoMatch ==> !IsNone(v)
  {
    hide IsNone, FindMoney, NoCommas;
  }

  /** Four commas where a figure should be. */
  lemma {:induction false} FourCommasRaise()
    ensures ReadMoney("EUR ,,,,", false) == Raises && EmbeddedMoney("EUR ,,,,") == Raises && QualifyingSpendCap("EUR ,,,,") == CapRaises
  {
    hide ReadMoney, EmbeddedMoney, QualifyingSpendCap, NoCommas;
    var v := "EUR ,,,,";
    assert v == "EUR" + " " + ",,,," && v == "" + "EUR" + " " + ",,,," + "";
    OneSpace();
    OnlyCommas(",,,,");
    WholeText("EUR", " ", ",,,,", false);
    FirstFigureWins("", "EUR", " ", ",,,,", "");
    EmbeddedRaisesOnlyOnCommas(v);
    CapRaisesOnlyOnCommas(v);
  }

  lemma {:induction false} OnlyCommas(fig: string)
    requires AllFigures(fig)
    ensures NoCommas(fig) == "" <==> forall i :: 0 <= i < |fig| ==> fig[i] == ','
  {
    if fig != "" {
      hide NoCommas;
      var front, c := fig[..|fig| - 1], fig[|fig| - 1];
      assert fig == front + [c];
      OnlyCommas(front);
      NoCommasSnoc(front, c);
    }
  }

  // ---- what is printed, and what is read ------------------------------------------------------------

  /** Counted from the right, every fourth character of a grouped amount is a comma and
      no other is. */
  lemma {:induction false} GroupedCommas(n: nat, k: nat)
    requires k < |Grouped(n)|
    ensures Grouped(n)[|Grouped(n)| - 1 - k] == ',' <==> k % 4 == 3
  {
    if n < 1000 {
      ShortDecimal(n);
      assert IsDigit(Grouped(n)[|Grouped(n)| - 1 - k]);
    } else {
      if k > 3 { GroupedCommas(n / 1000, k - 4); }
      CommaStep(Grouped(n / 1000), ThreeDigits(n % 1000), k);
    }
  }

  lemma {:induction false} CommaStep(front: string, three: string, k: nat)
    requires |three| == 3 && AllDigits(three) && k < |front| + 4
    requires k > 3 ==> (front[|front| - 1 - (k - 4)] == ',' <==> (k - 4) % 4 == 3)
    ensures (front + "," + three)[|front| + 3 - k] == ',' <==> k % 4 == 3
  {
  }

  /** The sign a currency is printed with, in any case; pounds when none is named. */
  lemma {:induction false} PrintedWithSign(currency: string, n: nat, sign: string)
    requires || ((currency == "" || Upper(currency) == "GBP") && sign == "£")
             || (Upper(currency) == "EUR" && sign == "€") || (Upper(currency) == "USD" && sign == "$")
    ensures var s := PrintMoney(Some(n), currency);
            s == sign + Grouped(n) && |sign| == 1 && AllFigures(s[1..]) && Numeral(NoCommas(s[1..])) == n
  {
    GroupedReads(n);
    assert Upper("GBP") == "GBP";
    assert (sign + Grouped(n))[1..] == Grouped(n);
  }

  /** Any other currency is printed as it was named, and no amount as words that are
      read as no amount. */
  lemma {:induction false} PrintedByName(currency: string, n: nat, prefix: bool)
    requires currency != "" && Upper(currency) != "GBP" && Upper(currency) != "EUR" && Upper(currency) != "USD"
    ensures PrintMoney(Some(n), currency) == currency + " " + Grouped(n)
    ensures PrintMoney(None, currency) == "not applicable" && ReadMoney("not applicable", prefix) == NoMatch
  {
    hide ReadMoney, Grouped;
    NothingReads(prefix);
  }

  lemma {:induction false} NothingReads(prefix: bool)
    ensures ReadMoney("not applicable", prefix) == NoMatch
  {
    hide ReadMoney, EmbeddedMoney;
    NoCapitalsNoMoney("not applicable", prefix);
  }

  /** _money on text that is a code, white space, a figure and a rest: by its front it
      reads the figure, as a whole only when there is no rest. */
  lemma {:induction false} ReadsFront(v: string, c: string, ws: string, fig: string, rest: string, prefix: bool)
    requires Capitals(c) && ws != "" && AllSpace(ws) && fig != "" && AllFigures(fig) && Ends(rest)
    requires Strip(v) == c + ws + fig + rest
    ensures ReadMoney(v, prefix) == if prefix || rest == "" then Reading(c, fig) else NoMatch
  {
    MatchesHere(c, ws, fig, rest, 1);
    StrippedNotNone(v);
  }

  /** And it reads nothing else. */
  lemma {:induction false} ReadsOnlyFronts(v: string, prefix: bool) returns (c: string, ws: string, fig: string, rest: string)
    requires ReadMoney(v, prefix) != NoMatch
    ensures Capitals(c) && ws != "" && AllSpace(ws) && fig != "" && AllFigures(fig) && Ends(rest)
    ensures Strip(v) == c + ws + fig + rest && (prefix || rest == "")
  {
    c, ws, fig, rest := MatchedParts(Strip(v));
  }

  // ---- caps ---------------------------------------------------------------------------------------------

  /** A number, whole or with decimals, as the pattern reads it. */
  ghost predicate IsNumber(num: string) { num != "" && NumberLength(num) == |num| }

  ghost predicate Pointed(num: string, k: int) {
    0 < k < |num| - 1 && num[k] == '.' && AllDigits(num[..k]) && AllDigits(num[k + 1..])
  }

  /** Such a number is digits, or digits with a point between them. */
  lemma {:induction false} NumberIs(num: string)
    ensures IsNumber(num) <==> num != "" && (AllDigits(num) || exists k :: Pointed(num, k))
  {
    hide NumberLength, Pointed;
    if IsNumber(num) { NumberShape(num); }
    if num != "" && AllDigits(num) { WholeNumber(num); }
    if k :| Pointed(num, k) { PointedNumber(num, k); }
  }

  lemma {:induction false} NumberShape(num: string)
    requires IsNumber(num)
    ensures AllDigits(num) || Pointed(num, Digits(num))
  {
    var d := Digits(num);
    if d < |num| { assert Digits(num[d + 1..]) == |num[d + 1..]|; }
  }

  lemma {:induction false} WholeNumber(num: string)
    requires num != "" && AllDigits(num)
    ensures IsNumber(num)
  {
    AllCounted(num);
  }

  lemma {:induction false} PointedNumber(num: string, k: int)
    requires Pointed(num, k)
    ensures IsNumber(num)
  {
    hide Digits;
    assert num == num[..k] + num[k..];
    AllCounted(num[..k]);
    DigitsStable(num[..k], num[k..]);
    AllCounted(num[k + 1..]);
  }

  lemma {:induction false} AllCounted(s: string)
    requires AllDigits(s)
    ensures Digits(s) == |s|
  {
  }

  /** Text a number may follow without joining it, and with no percentage of its own. */
  ghost predicate Leads(pre: string) { '%' !in pre && (pre == "" || (!IsDigit(pre[|pre| - 1]) && pre[|pre| - 1] != '.')) }

  lemma {:induction false} DigitsStable(q: string, t: string)
    requires t == "" || !IsDigit(t[0])
    ensures Digits(q + t) == Digits(q)
  {
    hide Digits;
    assert forall i :: 0 <= i < |q| ==> (q + t)[i] == q[i];
    assert t != "" ==> (q + t)[|q|] == t[0];
  }

  lemma {:induction false} NumberStable(num: string, t: string)
    requires IsNumber(num) && t != "" && !IsDigit(t[0]) && t[0] != '.'
    ensures NumberLength(num + t) == |num|
  {
    hide Digits;
    DigitsStable(num, t);
    var k := Digits(num);
    if k < |num| {
      assert (num + t)[k + 1..] == num[k + 1..] + t;
      DigitsStable(num[k + 1..], t);
    }
  }

  lemma {:induction false} NumberChars(s: string)
    ensures forall i :: 0 <= i < NumberLength(s) ==> IsDigit(s[i]) || s[i] == '.'
    ensures s != "" && IsDigit(s[0]) ==> NumberLength(s) > 0
  {
    hide Digits;
    var k := Digits(s);
    if 0 < k < |s| && s[k] == '.' {
      forall i | k < i < k + 1 + Digits(s[k + 1..]) ensures IsDigit(s[i]) { assert s[i] == s[k + 1..][i - k - 1]; }
    }
  }

  lemma {:induction false} NumberStartsWithDigit(num: string)
    requires IsNumber(num)
    ensures IsDigit(num[0])
  {
  }

  /** No percentage starts before the number. */
  lemma {:induction false} NoEarlierPercent(q: string, s: string)
    requires q != "" && Leads(q) && s != "" && IsDigit(s[0])
    ensures !PercentAt(q + s)
  {
    hide NumberLength, Spaces;
    var t := q + s;
    assert forall i :: 0 <= i < |q| ==> t[i] == q[i];
    assert t[|q|] == s[0];
    NumberChars(t);
    var k := NumberLength(t);
    if k > 0 {
      assert t[|q| - 1] == q[|q| - 1];
      assert k < |q|;
      var sp := Spaces(t[k..]);
      assert t[k..][|q| - k] == s[0] && !IsSpace(s[0]);
      assert sp <= |q| - k;
      if k + sp < |q| { assert t[k + sp] == q[k + sp]; }
    }
  }

  lemma {:induction false} PercentHere(num: string, ws: string, tail: string)
    requires IsNumber(num) && AllSpace(ws)
    ensures var s := num + ws + "%" + tail; PercentAt(s) && NumberLength(s) == |num|
  {
    hide NumberLength, Spaces;
    var t := ws + "%" + tail;
    var s := num + ws + "%" + tail;
    assert s == num + t && t[|ws|] == '%';
    assert ws != "" ==> t[0] == ws[0];
    NumberStable(num, t);
    assert s[|num|..] == t;
    assert forall i :: 0 <= i < |ws| ==> t[i] == ws[i];
    assert Spaces(t) == |ws|;
    assert s[|num| + |ws|] == '%';
  }

  /** The percentage read is the first one, wherever it stands. */
  lemma {:induction false} PercentIsFirst(pre: string, num: string, ws: string, tail: string)
    requires Leads(pre) && IsNumber(num) && AllSpace(ws)
    ensures Percent(pre + num + ws + "%" + tail) == Some(num)
  {
    hide NumberLength, PercentAt, FindPercent;
    var s := num + ws + "%" + tail;
    var v := pre + num + ws + "%" + tail;
    assert v == pre + s && v[|pre|..] == s;
    PercentHere(num, ws, tail);
    NumberStartsWithDigit(num);
    forall j | 0 <= j < |pre| ensures !PercentFrom(v, j) {
      assert v[j..] == pre[j..] + s;
      NoEarlierPercent(pre[j..], s);
    }
    assert PercentFrom(v, |pre|);
    assert FindPercent(v, 0) == Some(|pre|);
    assert s[..|num|] == num;
  }

  /** A cap that states a percentage and then an absolute figure gives both, whatever
      stands before, between and after: the figure is not lost behind the percentage. */
  lemma {:induction false} BothHalvesOfACap(pre: string, num: string, sp: string, mid: string, c: string, ws: string, fig: string, rest: string)
    requires Leads(pre) && IsNumber(num) && AllSpace(sp) && Opens(pre + num + sp + "%" + mid)
    requires Capitals(c) && ws != "" && AllSpace(ws) && AllFigures(fig) && |fig| >= 4 && !AllCommas(fig) && Ends(rest)
    ensures QualifyingSpendCap(pre + num + sp + "%" + mid + c + ws + fig + rest) == Cap(Some(num), Some((c, Numeral(NoCommas(fig)))))
  {
    hide EmbeddedMoney, Percent, IsNone, NoCommas, FindMoney, NumberLength;
    var front := pre + num + sp + "%" + mid;
    var v := pre + num + sp + "%" + mid + c + ws + fig + rest;
    var tail := mid + c + ws + fig + rest;
    assert v == front + c + ws + fig + rest && v == pre + num + sp + "%" + tail;
    PercentIsFirst(pre, num, sp, tail);
    FirstFigureWins(front, c, ws, fig, rest);
    OnlyCommas(fig);
    EmbeddedNotNone(v);
  }

  /** A cap that states a percentage and no figure gives the percentage alone. */
  lemma {:induction false} PercentAlone(pre: string, num: string, ws: string, tail: string)
    requires Leads(pre) && IsNumber(num) && AllSpace(ws) && EmbeddedMoney(pre + num + ws + "%" + tail) == NoMatch
    ensures QualifyingSpendCap(pre + num + ws + "%" + tail) == Cap(Some(num), None)
  {
    hide IsNone, EmbeddedMoney, Percent, IsNumber;
    var v := pre + num + ws + "%" + tail;
    PercentIsFirst(pre, num, ws, tail);
    NumberStartsWithDigit(num);
    assert num != "" by { NumberNotEmpty(num); }
    assert v[|pre|] == num[0];
    FigureNotNone(v, |pre|);
  }

  lemma {:induction false} NumberNotEmpty(num: string)
    requires IsNumber(num)
    ensures num != ""
  {
  }

  /** A cap that states a figure and no percentage gives the figure alone; text that is
      one of the none strings, or states neither, gives nothing. */
  lemma {:induction false} AmountAlone(v: string)
    requires '%' !in v
    ensures QualifyingSpendCap(v) ==
            match EmbeddedMoney(v) case Raises => CapRaises case NoMatch => Cap(None, None) case Amount(currency, n) => Cap(None, Some((currency, n)))
    ensures forall w :: IsNone(w) ==> QualifyingSpendCap(w) == Cap(None, None)
  {
    hide IsNone, FindMoney;
    NoSignNoPercent(v);
    EmbeddedNotNone(v);
  }

  lemma {:induction false} NoSignNoPercent(v: string)
    requires '%' !in v
    ensures Percent(v) == None
  {
    forall i | 0 <= i <= |v| ensures !PercentFrom(v, i) {
      var s := v[i..];
      var k := NumberLength(s);
      if k + Spaces(s[k..]) < |s| { assert s[k + Spaces(s[k..])] == v[i + k + Spaces(s[k..])]; }
    }
  }

  /** The five texts that stand for no amount, in any case and spacing. */
  lemma {:induction false} NoneTexts(v: string)
    ensures IsNone(v) <==>
            var s := Lower(Strip(v));
            s == "none" || s == "n/a" || s == "none published" || s == "none found" || s == "not applicable"
  {
    hide Lower, Strip;
  }
}
