/** The bounded join keys enable_programme_questions builds from programme names. */
module Slugs {
  import opened Base
  import opened Text

  /** varchar(64), less the colon and the longest canonical input key. */
  const MAX_SLUG := 31

  predicate IsAlnum(c: char) { 'A' <= c <= 'Z' || '0' <= c <= '9' }

  // ---- _slug ------------------------------------------------------------------

  function DropGap(s: string): (t: string)
    ensures |t| <= |s| && (t == "" || IsAlnum(t[0]))
    ensures s != "" && !IsAlnum(s[0]) ==> |t| < |s|
  {
    if s == "" || IsAlnum(s[0]) then s else DropGap(s[1..])
  }

  /** Every run of other characters becomes one underscore. */
  function Collapse(s: string): string
    decreases |s|
  {
    if s == "" then ""
    else if IsAlnum(s[0]) then [s[0]] + Collapse(s[1..])
    else "_" + Collapse(DropGap(s))
  }

  function LeftBare(s: string): (t: string)
    ensures t == "" || t[0] != '_'
    ensures |t| <= |s| && t == s[|s| - |t|..]
  {
    if s != "" && s[0] == '_' then LeftBare(s[1..]) else s
  }

  function RightBare(s: string): (t: string)
    ensures t == "" || t[|t| - 1] != '_'
    ensures t <= s
  {
    if s != "" && s[|s| - 1] == '_' then RightBare(s[..|s| - 1]) else s
  }

  /** `strip("_")` */
  function Bare(s: string): string { RightBare(LeftBare(s)) }

  function Slug(text: string): string { Bare(Collapse(Upper(text))) }

  // ---- what a slug looks like ---------------------------------------------------

  predicate InAlphabet(s: string) { forall i :: 0 <= i < |s| ==> IsAlnum(s[i]) || s[i] == '_' }

  predicate NoDouble(s: string) { forall i :: 0 <= i < |s| - 1 ==> s[i] != '_' || s[i + 1] != '_' }

  predicate BareEnds(s: string) { s == "" || (s[0] != '_' && s[|s| - 1] != '_') }

  /** Capitals, digits and single underscores between them. */
  predicate IsSlug(s: string) { InAlphabet(s) && NoDouble(s) && BareEnds(s) }

  lemma {:induction false} CollapseShape(s: string)
    ensures InAlphabet(Collapse(s)) && NoDouble(Collapse(s))
    ensures s != "" && IsAlnum(s[0]) ==> Collapse(s) != "" && IsAlnum(Collapse(s)[0])
    ensures s == "" ==> Collapse(s) == ""
    decreases |s|
  {
    if s != "" {
      if IsAlnum(s[0]) { CollapseShape(s[1..]); } else { CollapseShape(DropGap(s)); }
    }
  }

  lemma {:induction false} CollapseKeeps(s: string)
    requires InAlphabet(s) && NoDouble(s)
    ensures Collapse(s) == s
    decreases |s|
  {
    if s != "" {
      assert InAlphabet(s[1..]) && NoDouble(s[1..]);
      CollapseKeeps(s[1..]);
      if !IsAlnum(s[0]) {
        assert s == "_" + s[1..];
        if |s| > 1 { assert s[1] != '_'; }
        assert DropGap(s[1..]) == s[1..];
      }
    }
  }

  lemma {:induction false} SliceKeepsShape(s: string, lo: nat, hi: nat)
    requires lo <= hi <= |s| && InAlphabet(s) && NoDouble(s)
    ensures InAlphabet(s[lo..hi]) && NoDouble(s[lo..hi])
  {
  }

  /** Stripping what has single underscores leaves a slug. */
  lemma {:induction false} BareIsSlug(s: string)
    requires InAlphabet(s) && NoDouble(s)
    ensures IsSlug(Bare(s)) && |Bare(s)| <= |s|
  {
  }

  lemma {:induction false} BareKeeps(s: string)
    requires BareEnds(s)
    ensures Bare(s) == s
  {
  }

  /** Every result is a slug, and slugs are exactly the fixed points. */
  lemma {:induction false} SlugFixpoint(text: string)
    ensures IsSlug(Slug(text))
    ensures Slug(text) == text <==> IsSlug(text)
  {
    hide Collapse, LeftBare, RightBare;
    CollapseShape(Upper(text));
    BareIsSlug(Collapse(Upper(text)));
    if IsSlug(text) {
      assert forall i :: 0 <= i < |text| ==> UpperChar(text[i]) == text[i];
      assert Upper(text) == text;
      CollapseKeeps(text);
      BareKeeps(text);
    }
  }

  lemma {:induction false} SlugIdempotent(text: string)
    ensures Slug(Slug(text)) == Slug(text)
  {
    SlugFixpoint(text);
    SlugFixpoint(Slug(text));
  }

  // ---- words --------------------------------------------------------------------

  predicate IsWord(w: string) { w != "" && forall i :: 0 <= i < |w| ==> IsAlnum(w[i]) }

  /** Text up to the first underscore. */
  function FirstWord(s: string): (w: string)
    ensures w <= s && Free('_', w)
    ensures |w| < |s| ==> s[|w|] == '_'
  {
    if s == "" || s[0] == '_' then "" else [s[0]] + FirstWord(s[1..])
  }

  /** `s.split("_")` */
  function Split(s: string): (ws: seq<string>)
    ensures ws != []
    decreases |s|
  {
    var w := FirstWord(s);
    if |w| == |s| then [w] else [w] + Split(s[|w| + 1..])
  }

  function NonEmpty(ws: seq<string>): seq<string> {
    if ws == [] then [] else (if ws[0] == "" then [] else [ws[0]]) + NonEmpty(ws[1..])
  }

  function Join(ws: seq<string>): string {
    if ws == [] then "" else if |ws| == 1 then ws[0] else ws[0] + "_" + Join(ws[1..])
  }

  /** The words of a programme name. */
  function Words(text: string): seq<string> { NonEmpty(Split(Slug(text))) }

  lemma {:induction false} SplitSlug(s: string)
    requires IsSlug(s) && s != ""
    ensures forall w :: w in Split(s) ==> IsWord(w)
    ensures NonEmpty(Split(s)) == Split(s) && Join(Split(s)) == s
    decreases |s|
  {
    hide IsSlug, IsWord, FirstWord, Join;
    var w := FirstWord(s);
    FirstWordIsWord(s);
    if |w| < |s| {
      var rest := s[|w| + 1..];
      RestIsSlug(s);
      SplitSlug(rest);
      NonEmptyCons(w, Split(rest));
      JoinCons(w, Split(rest));
      assert s == w + "_" + rest;
    } else {
      NonEmptyCons(w, []);
      JoinOne(w);
    }
  }

  lemma {:induction false} JoinCons(w: string, ws: seq<string>)
    requires ws != []
    ensures Join([w] + ws) == w + "_" + Join(ws)
  {
  }

  lemma {:induction false} JoinOne(w: string)
    ensures Join([w]) == w
  {
  }

  lemma {:induction false} RestIsSlug(s: string)
    requires IsSlug(s) && s != "" && |FirstWord(s)| < |s|
    ensures var rest := s[|FirstWord(s)| + 1..]; IsSlug(rest) && rest != ""
  {
  }

  lemma {:induction false} FirstWordIsWord(s: string)
    requires IsSlug(s) && s != ""
    ensures IsWord(FirstWord(s))
  {
  }

  lemma {:induction false} NonEmptyCons(w: string, ws: seq<string>)
    requires w != "" && NonEmpty(ws) == ws
    ensures NonEmpty([w] + ws) == [w] + ws
  {
  }

  /** The words read from a name join back to its slug. */
  lemma {:induction false} WordsJoin(text: string)
    ensures forall w :: w in Words(text) ==> IsWord(w)
    ensures Join(Words(text)) == Slug(text)
    ensures Words(text) == [] <==> Slug(text) == ""
  {
    hide Slug, IsSlug, IsWord, Split, NonEmpty, Join;
    SlugFixpoint(text);
    if Slug(text) == "" { NoWords(); } else { SplitSlug(Slug(text)); }
  }

  lemma {:induction false} NoWords()
    ensures NonEmpty(Split("")) == [] && Join([]) == ""
  {
  }

  lemma {:induction false} JoinIsSlug(ws: seq<string>)
    requires forall w :: w in ws ==> IsWord(w)
    ensures IsSlug(Join(ws)) && (ws == [] <==> Join(ws) == "")
  {
    if |ws| == 1 {
      assert ws[0] in ws;
    } else if |ws| > 1 {
      assert ws[0] in ws;
      var rest := ws[1..];
      JoinIsSlug(rest);
      Underscored(ws[0], Join(rest));
    }
  }

  /** Two slugs with an underscore between them hold no double underscore, and
      are one slug when both are there. */
  lemma {:induction false} Underscored(a: string, b: string)
    requires IsSlug(a) || IsWord(a)
    requires IsSlug(b)
    ensures InAlphabet(a + "_" + b) && NoDouble(a + "_" + b)
    ensures a != "" && b != "" ==> IsSlug(a + "_" + b)
  {
  }

  // ---- programme_slug ------------------------------------------------------------

  const FILLER: set<string> := {
    "TAX", "CREDIT", "CREDITS", "FILM", "FILMS", "PRODUCTION", "PRODUCTIONS", "INCENTIVE", "INCENTIVES",
    "PROGRAMME", "PROGRAM", "FUND", "SCHEME", "FOR", "AND", "THE", "OF", "A", "TO", "REBATE", "AUDIOVISUAL",
    "TELEVISION", "TV", "INTERNATIONAL", "NATIONAL", "FEDERAL" }

  function Telling(ws: seq<string>): (r: seq<string>)
    ensures forall w :: w in r ==> w in ws
  {
    if ws == [] then [] else (if ws[0] in FILLER then [] else [ws[0]]) + Telling(ws[1..])
  }

  function Kept(ws: seq<string>): seq<string> { if Telling(ws) == [] then ws else Telling(ws) }

  function Cut(s: string): string { if |s| > MAX_SLUG then s[..MAX_SLUG] else s }

  /** The key a programme would get, "" when nothing is left to build it from. */
  function Candidate(place: string, program: string): string {
    var prefix, ws := Slug(place), Words(program);
    var full := prefix + "_" + Join(ws);
    Bare(Cut(if |full| > MAX_SLUG then prefix + "_" + Join(Kept(ws)) else full))
  }

  function ProgrammeSlug(place: string, program: string, taken: set<string>): Option<string> {
    var c := Candidate(place, program);
    if c == "" || c in taken then None else Some(c)
  }

  lemma {:induction false} NoBlanksInSlug(s: string)
    requires IsSlug(s)
    ensures Strip(s) == s && Free(':', s)
  {
  }

  /** The text a key is cut from: a full or a filler-free name. */
  lemma {:induction false} BodyShape(prefix: string, ws: seq<string>)
    requires IsSlug(prefix) && forall w :: w in ws ==> IsWord(w)
    ensures var body := Cut(prefix + "_" + Join(ws));
            InAlphabet(body) && NoDouble(body) && body != "" && |body| <= MAX_SLUG
            && (Bare(body) == "" <==> prefix == "" && ws == [])
  {
    hide InAlphabet, NoDouble, IsWord, Join;
    JoinIsSlug(ws);
    Underscored(prefix, Join(ws));
    var full := prefix + "_" + Join(ws);
    var body := Cut(full);
    SliceKeepsShape(full, 0, |body|);
    assert body == full[0..|body|];
    BareNonEmpty(body);
    if prefix != "" {
      assert body[0] == prefix[0] != '_';
    } else {
      assert body[0] == '_';
      assert LeftBare(body) == LeftBare(body[1..]);
      if ws != [] { assert body[1] == Join(ws)[0] != '_'; } else { assert body[1..] == ""; }
    }
  }

  /** Whatever the name, filler or length, a key is a slug of at most 31
      characters, and it is missing exactly when place and name are both empty. */
  lemma {:induction false} CandidateIsSlug(place: string, program: string)
    ensures var c := Candidate(place, program);
            IsSlug(c) && Slug(c) == c && |c| <= MAX_SLUG && (c == "" <==> Slug(place) == "" && Slug(program) == "")
  {
    hide Slug, Words, Join, Bare, IsSlug, IsWord, Telling;
    var prefix, ws := Slug(place), Words(program);
    SlugFixpoint(place);
    WordsJoin(program);
    var used := if |prefix + "_" + Join(ws)| > MAX_SLUG then Kept(ws) else ws;
    assert forall w :: w in used ==> w in ws;
    BodyShape(prefix, used);
    BareIsSlug(Cut(prefix + "_" + Join(used)));
    SlugFixpoint(Candidate(place, program));
  }

  lemma {:induction false} RightBareNonEmpty(s: string)
    requires s != "" && s[0] != '_'
    ensures RightBare(s) != ""
  {
    if s[|s| - 1] == '_' { RightBareNonEmpty(s[..|s| - 1]); }
  }

  lemma {:induction false} BareNonEmpty(s: string)
    requires s != ""
    ensures Bare(s) == "" <==> LeftBare(s) == ""
  {
    if LeftBare(s) != "" { RightBareNonEmpty(LeftBare(s)); }
  }

  /** A name that fits keeps its own words. */
  lemma {:induction false} ShortNameKept(place: string, program: string)
    requires Slug(place) != "" && Slug(program) != "" && |Slug(place)| + 1 + |Slug(program)| <= MAX_SLUG
    ensures Candidate(place, program) == Slug(place) + "_" + Slug(program)
  {
    hide Slug, Words, Join, Bare, Kept, IsWord, InAlphabet, NoDouble;
    SlugFixpoint(place);
    SlugFixpoint(program);
    WordsJoin(program);
    Underscored(Slug(place), Slug(program));
    var full := Slug(place) + "_" + Slug(program);
    BareKeeps(full);
    assert |full| <= MAX_SLUG && Cut(full) == full;
  }

  /** `slug:key` fits the 64-character id column for every key of up to 32. */
  lemma {:induction false} QuestionIdFits(place: string, program: string, key: string)
    requires |key| <= 32
    ensures |Candidate(place, program) + ":" + key| <= 64
  {
    CandidateIsSlug(place, program);
  }
}
