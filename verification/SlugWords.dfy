/** What a slug says: the words of the text, capitalised, with one underscore
    between neighbours, whatever stood between them. */
module SlugWords {
  import opened Base
  import opened Text
  import opened Slugs

  // ---- text as words and what lies between them ---------------------------------------------

  /** A letter of either case, or a digit. */
  predicate Spells(c: char) { 'a' <= c <= 'z' || 'A' <= c <= 'Z' || '0' <= c <= '9' }

  ghost predicate Spelled(w: string) { w != "" && forall i :: 0 <= i < |w| ==> Spells(w[i]) }

  ghost predicate Silent(g: string) { forall i :: 0 <= i < |g| ==> !Spells(g[i]) }

  /** gap, word, gap, word, ..., gap */
  function Weave(gaps: seq<string>, words: seq<string>): string
    requires |gaps| == |words| + 1
    decreases |words|
  {
    if words == [] then gaps[0] else gaps[0] + words[0] + Weave(gaps[1..], words[1..])
  }

  /** Words with something else between any two of them. */
  ghost predicate Woven(gaps: seq<string>, words: seq<string>) {
    && |gaps| == |words| + 1
    && (forall i :: 0 <= i < |words| ==> Spelled(words[i]))
    && (forall i :: 0 <= i < |gaps| ==> Silent(gaps[i]))
    && (forall i :: 0 < i < |words| ==> gaps[i] != "")
  }

  lemma {:induction false} WovenRest(gaps: seq<string>, words: seq<string>)
    requires Woven(gaps, words) && words != []
    ensures Woven(gaps[1..], words[1..])
  {
  }

  /** Every text is words and what lies between them. */
  lemma {:induction false} EveryTextIsWoven(text: string) returns (gaps: seq<string>, words: seq<string>)
    ensures Woven(gaps, words) && text == Weave(gaps, words)
  {
    if text == "" {
      gaps, words := [""], [];
    } else {
      var c, rest := text[0], text[1..];
      var gs, ws := EveryTextIsWoven(rest);
      if !Spells(c) {
        gaps, words := [[c] + gs[0]] + gs[1..], ws;
        assert gaps[1..] == gs[1..];
        if ws != [] { assert [c] + (gs[0] + ws[0] + Weave(gs[1..], ws[1..])) == gaps[0] + ws[0] + Weave(gaps[1..], ws[1..]); }
      } else if ws != [] && gs[0] == "" {
        gaps, words := gs, [[c] + ws[0]] + ws[1..];
        assert words[1..] == ws[1..];
        assert [c] + (gs[0] + ws[0] + Weave(gs[1..], ws[1..])) == gaps[0] + words[0] + Weave(gaps[1..], words[1..]);
      } else {
        gaps, words := [""] + gs, [[c]] + ws;
        assert gaps[1..] == gs && words[1..] == ws;
      }
      assert text == [c] + rest;
    }
  }

  function Capitals(words: seq<string>): (ws: seq<string>)
    ensures |ws| == |words| && forall i :: 0 <= i < |ws| ==> ws[i] == Upper(words[i])
  { seq(|words|, i requires 0 <= i < |words| => Upper(words[i])) }

  /** The capital of a letter, and nothing else changed. */
  lemma {:induction false} CapitalOf(c: char)
    ensures 'a' <= c <= 'z' ==> UpperChar(c) as int - 'A' as int == c as int - 'a' as int
    ensures !('a' <= c <= 'z') ==> UpperChar(c) == c
  {
  }

  lemma {:induction false} UpperJoined(a: string, b: string)
    ensures Upper(a + b) == Upper(a) + Upper(b)
  {
  }

  lemma {:induction false} SilentKept(g: string)
    requires Silent(g)
    ensures Upper(g) == g && forall i :: 0 <= i < |g| ==> !IsAlnum(g[i])
  {
    forall i | 0 <= i < |g| ensures UpperChar(g[i]) == g[i] && !IsAlnum(g[i]) { assert !Spells(g[i]); }
  }

  lemma {:induction false} CapitalWord(w: string)
    requires Spelled(w)
    ensures IsWord(Upper(w))
  {
    forall i | 0 <= i < |w| ensures IsAlnum(Upper(w)[i]) { assert Spells(w[i]); }
  }

  lemma {:induction false} UpperWeave(gaps: seq<string>, words: seq<string>)
    requires Woven(gaps, words)
    ensures Upper(Weave(gaps, words)) == Weave(gaps, Capitals(words))
    decreases |words|
  {
    hide Spelled, Silent;
    assert Silent(gaps[0]);
    SilentKept(gaps[0]);
    if words != [] {
      WovenRest(gaps, words);
      UpperWeave(gaps[1..], words[1..]);
      assert Capitals(words)[1..] == Capitals(words[1..]);
      UpperJoined(gaps[0] + words[0], Weave(gaps[1..], words[1..]));
      UpperJoined(gaps[0], words[0]);
    }
  }

  // ---- collapsing ---------------------------------------------------------------------------

  /** What a gap becomes. */
  function Mark(g: string): string { if g == "" then "" else "_" }

  ghost predicate Starts(s: string) { s == "" || IsAlnum(s[0]) }

  lemma {:induction false} GapDropped(g: string, rest: string)
    requires Silent(g) && Starts(rest)
    ensures DropGap(g + rest) == rest
  {
    SilentKept(g);
    if g != "" {
      assert (g + rest)[1..] == g[1..] + rest;
      GapDropped(g[1..], rest);
    } else {
      assert g + rest == rest;
    }
  }

  lemma {:induction false} CollapseGap(g: string, rest: string)
    requires Silent(g) && Starts(rest)
    ensures Collapse(g + rest) == Mark(g) + Collapse(rest)
  {
    hide Silent;
    GapDropped(g, rest);
    if g == "" {
      assert g + rest == rest;
    } else {
      SilentKept(g);
      assert (g + rest)[0] == g[0];
    }
  }

  lemma {:induction false} CollapseWord(w: string, rest: string)
    requires forall i :: 0 <= i < |w| ==> IsAlnum(w[i])
    ensures Collapse(w + rest) == w + Collapse(rest)
  {
    if w == "" {
      assert w + rest == rest;
    } else {
      assert (w + rest)[1..] == w[1..] + rest;
      CollapseWord(w[1..], rest);
    }
  }

  ghost predicate Marked(gaps: seq<string>, words: seq<string>) {
    && |gaps| == |words| + 1
    && (forall i :: 0 <= i < |words| ==> IsWord(words[i]))
    && (forall i :: 0 <= i < |gaps| ==> Silent(gaps[i]))
    && (forall i :: 0 < i < |words| ==> gaps[i] != "")
  }

  /** A gap and a word before text that has been collapsed already. */
  lemma {:induction false} CollapseStep(g: string, w: string, rest: string)
    requires Silent(g) && IsWord(w)
    ensures Collapse(g + w + rest) == Mark(g) + w + Collapse(rest)
  {
    hide Silent, Mark;
    assert g + w + rest == g + (w + rest);
    assert Starts(w + rest);
    CollapseGap(g, w + rest);
    CollapseWord(w, rest);
    assert Mark(g) + (w + Collapse(rest)) == Mark(g) + w + Collapse(rest);
  }

  lemma {:induction false} CollapseWeave(gaps: seq<string>, words: seq<string>)
    requires Marked(gaps, words)
    ensures Collapse(Weave(gaps, words)) == if words == [] then Mark(gaps[0]) else Mark(gaps[0]) + Join(words) + Mark(gaps[|words|])
    decreases |words|
  {
    hide Silent, IsWord, Collapse, Mark;
    var g := gaps[0];
    if words == [] {
      GapAlone(g);
    } else {
      var w, more := words[0], words[1..];
      CollapseStep(g, w, Weave(gaps[1..], more));
      CollapseWeave(gaps[1..], more);
      if more == [] {
        assert Mark(g) + w + Mark(gaps[1]) == Mark(g) + Join(words) + Mark(gaps[|words|]);
      } else {
        assert Mark(gaps[1]) == "_" by { InnerMark(gaps[1]); }
        MarkedJoin(Mark(g), w, more, Mark(gaps[|words|]));
        assert words == [w] + more;
      }
    }
  }

  lemma {:induction false} InnerMark(g: string)
    requires g != ""
    ensures Mark(g) == "_"
  {
  }

  lemma {:induction false} GapAlone(g: string)
    requires Silent(g)
    ensures Collapse(g) == Mark(g)
  {
    assert g + "" == g;
    CollapseGap(g, "");
  }

  lemma {:induction false} MarkedJoin(a: string, w: string, ws: seq<string>, b: string)
    requires ws != []
    ensures a + w + ("_" + Join(ws) + b) == a + Join([w] + ws) + b
  {
    JoinCons(w, ws);
  }

  lemma {:induction false} BareMarked(a: string, s: string, b: string)
    requires IsSlug(s) && (a == "" || a == "_") && (b == "" || b == "_")
    ensures Bare(a + s + b) == s
  {
    hide InAlphabet, NoDouble, RightBare;
    assert a + s + b == a + (s + b);
    LeftMark(a, s + b);
    if s != "" {
      assert (s + b)[0] == s[0];
      assert LeftBare(s + b) == s + b;
      RightMark(s, b);
    } else {
      assert s + b == b;
      MarkAlone(b);
    }
  }

  lemma {:induction false} MarkAlone(b: string)
    requires b == "" || b == "_"
    ensures RightBare(LeftBare(b)) == ""
  {
  }

  lemma {:induction false} LeftMark(a: string, t: string)
    requires a == "" || a == "_"
    ensures LeftBare(a + t) == LeftBare(t)
  {
    if a == "" { assert a + t == t; } else { assert (a + t)[1..] == t; }
  }

  lemma {:induction false} RightMark(s: string, b: string)
    requires s != "" && s[|s| - 1] != '_' && (b == "" || b == "_")
    ensures RightBare(s + b) == s
  {
    if b == "" { assert s + b == s; } else { assert (s + b)[..|s + b| - 1] == s; }
  }

  /** Whatever separates them, the slug of a text is its words in capitals, joined by
      single underscores: no letter or digit is lost, added or moved. */
  lemma {:induction false} SlugOfWords(gaps: seq<string>, words: seq<string>)
    requires Woven(gaps, words)
    ensures Slug(Weave(gaps, words)) == Join(Capitals(words))
  {
    hide Collapse, Bare, IsSlug, Spelled, Silent, IsWord, Join;
    UpperWeave(gaps, words);
    var ws := Capitals(words);
    forall i | 0 <= i < |ws| ensures IsWord(ws[i]) { CapitalWord(words[i]); }
    CollapseWeave(gaps, ws);
    JoinIsSlug(ws);
    var a, b := Mark(gaps[0]), if words == [] then "" else Mark(gaps[|words|]);
    BareMarked(a, Join(ws), b);
    if words == [] { NoWords(); assert a + "" + "" == a; }
  }

  // ---- the words of a slug -------------------------------------------------------------------

  lemma {:induction false} SplitJoin(ws: seq<string>)
    requires forall i :: 0 <= i < |ws| ==> IsWord(ws[i])
    ensures NonEmpty(Split(Join(ws))) == ws
    decreases |ws|
  {
    hide IsSlug;
    if ws == [] {
      NoWords();
    } else {
      var w, rest := ws[0], ws[1..];
      assert IsWord(w);
      WordIsFree(w);
      SplitJoin(rest);
      if rest == [] {
        FirstOfWord(w, "");
        assert w + "" == w && ws == [w];
        assert NonEmpty([w]) == [w];
      } else {
        var tail := "_" + Join(rest);
        assert Join(ws) == w + tail by { assert w + "_" + Join(rest) == w + ("_" + Join(rest)); }
        FirstOfWord(w, tail);
        assert (w + tail)[|w| + 1..] == Join(rest);
        var ss := Split(Join(rest));
        assert ([w] + ss)[1..] == ss;
      }
    }
  }

  lemma {:induction false} WordIsFree(w: string)
    requires IsWord(w)
    ensures '_' !in w
  {
  }

  lemma {:induction false} FirstOfWord(w: string, tail: string)
    requires '_' !in w && (tail == "" || tail[0] == '_')
    ensures FirstWord(w + tail) == w
  {
    if w == "" {
      assert w + tail == tail;
    } else {
      assert (w + tail)[1..] == w[1..] + tail && (w + tail)[0] == w[0];
      FirstOfWord(w[1..], tail);
    }
  }

  /** The words programme_slug works with are the words of the name, in capitals. */
  lemma {:induction false} WordsOfName(gaps: seq<string>, words: seq<string>)
    requires Woven(gaps, words)
    ensures Words(Weave(gaps, words)) == Capitals(words)
  {
    hide Slug, Split, NonEmpty, Join, Spelled, Silent, IsWord;
    SlugOfWords(gaps, words);
    forall i | 0 <= i < |words| ensures IsWord(Capitals(words)[i]) { CapitalWord(words[i]); }
    SplitJoin(Capitals(words));
  }

  // ---- what a key keeps of the name --------------------------------------------------------------

  /** A word that appears in most programme names and distinguishes none of them. */
  ghost predicate SaysLittle(w: string) {
    || w == "TAX" || w == "CREDIT" || w == "CREDITS" || w == "FILM" || w == "FILMS" || w == "PRODUCTION" || w == "PRODUCTIONS"
    || w == "INCENTIVE" || w == "INCENTIVES" || w == "PROGRAMME" || w == "PROGRAM" || w == "FUND" || w == "SCHEME"
    || w == "FOR" || w == "AND" || w == "THE" || w == "OF" || w == "A" || w == "TO" || w == "REBATE" || w == "AUDIOVISUAL"
    || w == "TELEVISION" || w == "TV" || w == "INTERNATIONAL" || w == "NATIONAL" || w == "FEDERAL"
  }

  lemma {:induction false} FillerIs(w: string)
    ensures w in FILLER <==> SaysLittle(w)
  {
  }

  /** `r` is the words at the places `at`, in order: all the words that are not filler. */
  ghost predicate Picks(ws: seq<string>, at: seq<nat>, r: seq<string>) {
    && |at| == |r|
    && (forall k :: 0 <= k < |at| ==> at[k] < |ws| && r[k] == ws[at[k]])
    && (forall j, k :: 0 <= j < k < |at| ==> at[j] < at[k])
    && (forall i: nat :: i < |ws| ==> (i in at <==> !SaysLittle(ws[i])))
  }

  lemma {:induction false} TellingPicks(ws: seq<string>) returns (at: seq<nat>)
    ensures Picks(ws, at, Telling(ws))
  {
    hide FILLER, SaysLittle;
    if ws == [] {
      at := [];
    } else {
      FillerIs(ws[0]);
      var rest := TellingPicks(ws[1..]);
      var next: seq<nat> := seq(|rest|, k requires 0 <= k < |rest| => rest[k] + 1);
      PicksShifted(ws, rest, next, Telling(ws[1..]));
      at := (if ws[0] in FILLER then [] else [0]) + next;
      PicksFirst(ws, next, Telling(ws[1..]));
    }
  }

  /** The same of the words from the second on. */
  ghost predicate PicksTail(ws: seq<string>, at: seq<nat>, r: seq<string>) {
    && |at| == |r|
    && (forall k :: 0 <= k < |at| ==> 0 < at[k] < |ws| && r[k] == ws[at[k]])
    && (forall j, k :: 0 <= j < k < |at| ==> at[j] < at[k])
    && (forall i: nat :: 0 < i < |ws| ==> (i in at <==> !SaysLittle(ws[i])))
  }

  lemma {:induction false} PicksShifted(ws: seq<string>, rest: seq<nat>, next: seq<nat>, r: seq<string>)
    requires ws != [] && Picks(ws[1..], rest, r)
    requires |next| == |rest| && forall k :: 0 <= k < |rest| ==> next[k] == rest[k] + 1
    ensures PicksTail(ws, next, r)
  {
    hide SaysLittle;
    forall i: nat | 0 < i < |ws| ensures i in next <==> !SaysLittle(ws[i]) {
      assert ws[1..][i - 1] == ws[i];
      if i - 1 in rest {
        var k :| 0 <= k < |rest| && rest[k] == i - 1;
        assert next[k] == i;
      }
      if i in next {
        var k :| 0 <= k < |next| && next[k] == i;
        assert rest[k] == i - 1;
      }
    }
  }

  lemma {:induction false} PicksFirst(ws: seq<string>, next: seq<nat>, r: seq<string>)
    requires ws != [] && PicksTail(ws, next, r)
    ensures SaysLittle(ws[0]) ==> Picks(ws, next, r)
    ensures !SaysLittle(ws[0]) ==> Picks(ws, [0] + next, [ws[0]] + r)
  {
    hide SaysLittle;
    if SaysLittle(ws[0]) { assert 0 !in next; }
  }

  /** The text a key is cut from. */
  function KeyText(prefix: string, ws: seq<string>): string { prefix + "_" + Join(ws) }

  /** Where the key ends: at most 31 characters on, and not after an underscore. */
  function KeyEnd(s: string): (n: nat)
    ensures n <= |s|
  {
    var n := if |s| > 31 then 31 else |s|;
    if n > 0 && s[n - 1] == '_' then n - 1 else n
  }

  /** The text a key is cut from starts with the place, or else with one underscore. */
  lemma {:induction false} KeyTextShape(prefix: string, ws: seq<string>)
    requires IsSlug(prefix) && (forall i :: 0 <= i < |ws| ==> IsWord(ws[i])) && (prefix != "" || ws != [])
    ensures var s := KeyText(prefix, ws);
            var from := if prefix == "" then 1 else 0;
            NoDouble(s) && |s| > 1 && s[from] != '_' && (from == 1 ==> s[0] == '_')
  {
    hide IsWord, Join, InAlphabet, NoDouble;
    JoinIsSlug(ws);
    Underscored(prefix, Join(ws));
    if prefix == "" { assert KeyText(prefix, ws)[1] == Join(ws)[0]; } else { assert KeyText(prefix, ws)[0] == prefix[0]; }
  }

  lemma {:induction false} BareCut(prefix: string, ws: seq<string>)
    requires IsSlug(prefix) && (forall i :: 0 <= i < |ws| ==> IsWord(ws[i])) && (prefix != "" || ws != [])
    ensures var s := KeyText(prefix, ws);
            var from := if prefix == "" then 1 else 0;
            from <= KeyEnd(s) && Bare(Cut(s)) == s[from..KeyEnd(s)]
  {
    hide IsWord, IsSlug, Join, RightBare, LeftBare, KeyText, NoDouble;
    KeyTextShape(prefix, ws);
    var s := KeyText(prefix, ws);
    var cut := Cut(s);
    var from := if prefix == "" then 1 else 0;
    assert cut == s[..|cut|];
    LeftCut(cut, from);
    SliceSingle(s, from, |cut|);
    assert cut[from..] == s[from..|cut|];
    RightCut(cut[from..]);
  }

  lemma {:induction false} SliceSingle(s: string, lo: nat, hi: nat)
    requires lo <= hi <= |s| && NoDouble(s)
    ensures NoDouble(s[lo..hi])
  {
  }

  lemma {:induction false} LeftCut(s: string, from: nat)
    requires from <= 1 && from < |s| && s[from] != '_' && (from == 1 ==> s[0] == '_')
    ensures LeftBare(s) == s[from..]
  {
    if from == 1 { assert LeftBare(s) == LeftBare(s[1..]); }
  }

  /** Stripping a text without double underscores takes at most one off its end. */
  lemma {:induction false} RightCut(s: string)
    requires NoDouble(s)
    ensures RightBare(s) == if s != "" && s[|s| - 1] == '_' then s[..|s| - 1] else s
  {
  }

  /** The key built for a programme. When place and name fit into 31 characters it is
      all their words; when they do not, the filler words go, unless there are no
      others, and what is left is cut at 31. */
  lemma {:induction false} KeyOfWords(pg: seq<string>, ps: seq<string>, ng: seq<string>, ns: seq<string>) returns (at: seq<nat>, telling: seq<string>)
    requires Woven(pg, ps) && Woven(ng, ns) && (ps != [] || ns != [])
    ensures Picks(Capitals(ns), at, telling)
    ensures var prefix, words := Join(Capitals(ps)), Capitals(ns);
            var kept := if |KeyText(prefix, words)| <= 31 || telling == [] then words else telling;
            var s := KeyText(prefix, kept);
            var from := if prefix == "" then 1 else 0;
            from <= KeyEnd(s) && Candidate(Weave(pg, ps), Weave(ng, ns)) == s[from..KeyEnd(s)]
  {
    hide Slug, Words, Join, Spelled, Silent, IsWord, IsSlug, FILLER, Bare, Cut, KeyEnd, Picks;
    var place, program := Weave(pg, ps), Weave(ng, ns);
    SlugOfWords(pg, ps);
    WordsOfName(ng, ns);
    var prefix, words := Join(Capitals(ps)), Capitals(ns);
    at := TellingPicks(words);
    telling := Telling(words);
    SlugFixpoint(place);
    forall i | 0 <= i < |words| ensures IsWord(words[i]) { CapitalWord(ns[i]); }
    forall i | 0 <= i < |ps| ensures IsWord(Capitals(ps)[i]) { CapitalWord(ps[i]); }
    JoinIsSlug(Capitals(ps));
    var kept := if |KeyText(prefix, words)| <= 31 || telling == [] then words else telling;
    forall i | 0 <= i < |kept| ensures IsWord(kept[i]) { assert kept[i] in words; }
    assert ns != [] ==> words != [];
    BareCut(prefix, kept);
  }

  // ---- the case the source describes ---------------------------------------------------------------

  const ITALIAN_NAME := ["Italian", "foreign", "production", "incentive"]
  const ITALIAN_WORDS := ["ITALIAN", "FOREIGN", "PRODUCTION", "INCENTIVE"]

  lemma {:induction false} ItalianCapitals()
    ensures Capitals(ITALIAN_NAME) == ITALIAN_WORDS && Capitals(["IT"]) == ["IT"]
  {
    assert Upper("Italian") == "ITALIAN" && Upper("foreign") == "FOREIGN";
    assert Upper("production") == "PRODUCTION" && Upper("incentive") == "INCENTIVE" && Upper("IT") == "IT";
  }

  lemma {:induction false} ItalianFiller()
    ensures !SaysLittle(ITALIAN_WORDS[0]) && !SaysLittle(ITALIAN_WORDS[1]) && SaysLittle(ITALIAN_WORDS[2]) && SaysLittle(ITALIAN_WORDS[3])
  {
    assert forall w :: SaysLittle(w) ==> |w| != 7 || w[0] == 'C' || w[0] == 'P' || w[1] == 'E';
    assert ITALIAN_WORDS[0][1] == 'T' && ITALIAN_WORDS[1][1] == 'O';
  }

  lemma {:induction false} ItalianPicks(at: seq<nat>, r: seq<string>)
    requires Picks(ITALIAN_WORDS, at, r)
    ensures r == ["ITALIAN", "FOREIGN"]
  {
    hide SaysLittle;
    ItalianFiller();
    assert 0 in at && 1 in at;
    forall k | 0 <= k < |at| ensures at[k] == 0 || at[k] == 1 { assert at[k] in at; }
    var i :| 0 <= i < |at| && at[i] == 0;
    var j :| 0 <= j < |at| && at[j] == 1;
    assert at[0] == 0 && at[1] == 1;
  }

  lemma {:induction false} ItalianJoin()
    ensures Join(["ITALIAN", "FOREIGN"]) == "ITALIAN_FOREIGN" && Join(["IT"]) == "IT"
  {
    hide Join;
    JoinOne("FOREIGN");
    JoinCons("ITALIAN", ["FOREIGN"]);
    assert ["ITALIAN"] + ["FOREIGN"] == ["ITALIAN", "FOREIGN"];
    JoinOne("IT");
  }

  lemma {:induction false} LongJoin()
    ensures |Join(ITALIAN_WORDS)| == 36
  {
    hide Join;
    var a, b := ["PRODUCTION", "INCENTIVE"], ["FOREIGN", "PRODUCTION", "INCENTIVE"];
    JoinOne("INCENTIVE");
    JoinCons("PRODUCTION", ["INCENTIVE"]);
    assert ["PRODUCTION"] + ["INCENTIVE"] == a;
    JoinCons("FOREIGN", a);
    assert ["FOREIGN"] + a == b;
    JoinCons("ITALIAN", b);
    assert ["ITALIAN"] + b == ITALIAN_WORDS;
  }

  const ITALIAN_GAPS := ["", " ", " ", " ", ""]

  lemma {:induction false} ItalianWoven()
    ensures Woven(["", ""], ["IT"]) && Woven(ITALIAN_GAPS, ITALIAN_NAME)
  {
  }

  lemma {:induction false} ItalianText()
    ensures |KeyText("IT", ITALIAN_WORDS)| > 31
    ensures KeyText("IT", ["ITALIAN", "FOREIGN"]) == "IT_ITALIAN_FOREIGN" && KeyEnd("IT_ITALIAN_FOREIGN") == |"IT_ITALIAN_FOREIGN"|
  {
    hide Join;
    ItalianJoin();
    LongJoin();
  }

  /** Of a name that is too long the telling words stay, and the key still reads as a
      programme. */
  lemma {:induction false} ItalianKey()
    ensures Candidate(Weave(["", ""], ["IT"]), Weave(ITALIAN_GAPS, ITALIAN_NAME)) == "IT_ITALIAN_FOREIGN"
  {
    hide FILLER, Candidate, Picks, Weave, Join, Woven, KeyText, KeyEnd;
    ItalianCapitals();
    ItalianJoin();
    ItalianWoven();
    ItalianText();
    var at, telling := KeyOfWords(["", ""], ["IT"], ITALIAN_GAPS, ITALIAN_NAME);
    ItalianPicks(at, telling);
  }
}
