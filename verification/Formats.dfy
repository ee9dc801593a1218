/** canonical_format and canonical_genres: the vocabulary signals are stored in. */
module Formats {
  import opened Base
  import opened Text

  const FORMAT_MAP: map<string, string> := map[
    "feature film" := "feature", "feature" := "feature",
    "short" := "short", "short film" := "short", "short-film" := "short", "short_film" := "short", "shorts" := "short",
    "documentary" := "documentary", "docuseries" := "documentary",
    "tv series" := "tv_series", "tv pilot" := "tv_series", "tv" := "tv_series", "tv movie" := "tv_series", "tv_movie" := "tv_series",
    "limited series" := "tv_series", "mini-series" := "tv_series", "mini series" := "tv_series", "series" := "tv_series",
    "animation" := "animation", "animated feature" := "animation", "animation series" := "animation"]

  /** `key.replace(" ", "_").replace("-", "_")` */
  function Underscored(s: string): (u: string)
    ensures |u| == |s| && forall i :: 0 <= i < |s| ==> u[i] == if s[i] == ' ' || s[i] == '-' then '_' else s[i]
  { seq(|s|, i requires 0 <= i < |s| => if s[i] == ' ' || s[i] == '-' then '_' else s[i]) }

  function Token(key: string): string { if key in FORMAT_MAP then FORMAT_MAP[key] else Underscored(key) }

  function FormatKey(value: string): string { Lower(Strip(value)) }

  /** canonical_format on text: None when it says nothing. */
  function CanonicalFormat(value: string): Option<string> {
    var key := FormatKey(value);
    if key == "" then None else Some(Token(key))
  }

  // ---- stripping and lowering settle -----------------------------------------------------

  /** No white space at either end. */
  predicate Trim(s: string) { s == "" || (!IsSpace(s[0]) && !IsSpace(s[|s| - 1])) }

  lemma {:induction false} StripTrims(s: string)
    ensures Trim(Strip(s))
  {
  }

  /** Lower-casing moves no white space. */
  lemma {:induction false} LowerTrims(s: string)
    requires Trim(s)
    ensures Trim(Lower(s)) && Strip(Lower(s)) == Lower(s) && Lower(Lower(s)) == Lower(s)
  {
    StripKeeps(Lower(s));
  }

  lemma {:induction false} KeySettles(value: string)
    ensures Trim(FormatKey(value)) && FormatKey(FormatKey(value)) == FormatKey(value)
  {
    hide Strip;
    StripTrims(value);
    LowerTrims(Strip(value));
  }

  // ---- the tokens ----------------------------------------------------------------------------

  ghost predicate Canonical(s: string) { s == "feature" || s == "short" || s == "documentary" || s == "tv_series" || s == "animation" }

  lemma {:induction false} MapValues(key: string)
    requires key in FORMAT_MAP
    ensures Canonical(FORMAT_MAP[key])
  {
  }

  lemma {:induction false} CanonicalTokens()
    ensures Token("feature") == "feature" && Token("short") == "short" && Token("documentary") == "documentary"
    ensures Token("animation") == "animation"
  {
  }

  lemma {:induction false} SeriesToken()
    ensures Token("tv_series") == "tv_series"
  {
  }

  lemma {:induction false} LowerIsLower(s: string)
    requires forall i :: 0 <= i < |s| ==> IsLower(s[i]) || s[i] == '_'
    ensures Lower(s) == s && Trim(s)
  {
  }

  lemma {:induction false} CanonicalSettles(s: string)
    requires Canonical(s)
    ensures s != "" && Trim(s) && Lower(s) == s && Token(s) == s
  {
    hide Token, Trim;
    LowerIsLower(s);
    CanonicalTokens();
    SeriesToken();
  }

  /** A key of the table without space or hyphen, and the spellings that become it. */
  lemma {:induction false} UnderscoredKeys(key: string)
    requires key !in FORMAT_MAP && Underscored(key) in FORMAT_MAP
    ensures key == "tv-movie"
  {
    var u := Underscored(key);
    assert forall i :: 0 <= i < |u| ==> u[i] != ' ' && u[i] != '-';
    assert u != key;
    var i :| 0 <= i < |u| && u[i] != key[i];
    assert u[i] == '_';
    OnlyTwo(u, i);
    if u == "short_film" {
      ShortSpellings(key);
      assert false;
    } else {
      assert key == "tv movie" || key == "tv-movie";
    }
  }

  lemma {:induction false} ShortSpellings(key: string)
    requires Underscored(key) == "short_film" != key
    ensures key in FORMAT_MAP
  {
    assert forall i :: 0 <= i < |key| && i != 5 ==> key[i] == "short_film"[i];
    assert key == "short film" || key == "short-film";
  }

  lemma {:induction false} OnlyTwo(u: string, i: nat)
    requires u in FORMAT_MAP && i < |u| && u[i] == '_'
    ensures (u == "short_film" && i == 5) || (u == "tv_movie" && i == 2)
  {
  }

  /** The one spelling that is not settled by one pass: its token is itself a key
      of the table, so it canonicalises once more. */
  lemma {:induction false} HyphenatedMovie()
    ensures Token("tv-movie") == "tv_movie" && Token("tv_movie") == "tv_series"
  {
  }

  lemma {:induction false} UnderscoredKey(key: string)
    requires Trim(key) && Lower(key) == key
    ensures FormatKey(Underscored(key)) == Underscored(key) && Underscored(Underscored(key)) == Underscored(key)
  {
    hide Strip, Lower, Trim;
    UnderscoredTrims(key);
    UnderscoredLower(key);
    StripKept(Underscored(key));
  }

  lemma {:induction false} StripKept(s: string)
    requires Trim(s)
    ensures Strip(s) == s
  {
  }

  lemma {:induction false} UnderscoredTrims(key: string)
    requires Trim(key)
    ensures Trim(Underscored(key))
  {
  }

  lemma {:induction false} UnderscoredLower(key: string)
    requires Lower(key) == key
    ensures Lower(Underscored(key)) == Underscored(key)
  {
  }

  lemma {:induction false} TokenKey(key: string)
    requires key != "" && Trim(key) && Lower(key) == key
    ensures Token(key) != "" && FormatKey(Token(key)) == Token(key)
    ensures Token(Token(key)) == Token(key) <==> key != "tv-movie"
  {
    hide FORMAT_MAP, Strip;
    HyphenatedMovie();
    if key in FORMAT_MAP {
      MapValues(key);
      CanonicalSettles(Token(key));
      StripKeeps(Token(key));
    } else {
      UnderscoredKey(key);
      if Underscored(key) in FORMAT_MAP { UnderscoredKeys(key); }
    }
  }

  /** A canonical format is its own canonical form, whatever was typed, with the one
      exception of "tv-movie" in any case. */
  lemma {:induction false} FormatSettlesIff(value: string)
    requires CanonicalFormat(value).Some?
    ensures var out := CanonicalFormat(value).value; CanonicalFormat(out) == Some(out) <==> FormatKey(value) != "tv-movie"
  {
    hide Token, FormatKey;
    KeySettles(value);
    var key := FormatKey(value);
    assert Lower(key) == key by { KeyIsLower(value); }
    TokenKey(key);
  }

  lemma {:induction false} KeyIsLower(value: string)
    ensures Lower(FormatKey(value)) == FormatKey(value)
  {
  }

  /** Canonicalised twice, every format is settled. */
  lemma {:induction false} FormatSettlesTwice(value: string)
    requires CanonicalFormat(value).Some?
    ensures CanonicalFormat(CanonicalFormat(value).value).Some?
    ensures var out := CanonicalFormat(CanonicalFormat(value).value).value; CanonicalFormat(out) == Some(out)
  {
    hide Token, FormatKey;
    KeySettles(value);
    KeyIsLower(value);
    TokenKey(FormatKey(value));
    var out := CanonicalFormat(value).value;
    FormatSettlesIff(out);
    HyphenatedMovie();
    if out == "tv-movie" {
      NoHyphen(FormatKey(value));
    }
  }

  lemma {:induction false} NoHyphen(key: string)
    ensures Token(key) != "tv-movie"
  {
    if key in FORMAT_MAP {
      MapValues(key);
    } else if |key| > 2 {
      assert Underscored(key)[2] != '-' == "tv-movie"[2];
    }
  }

  // ---- which label becomes which token --------------------------------------------------------

  const FEATURE_LABELS: set<string> := {"feature film", "feature"}
  const SHORT_LABELS: set<string> := {"short", "short film", "short-film", "short_film", "shorts"}
  const DOCUMENTARY_LABELS: set<string> := {"documentary", "docuseries"}
  const SERIES_LABELS: set<string> := {
    "tv series", "tv pilot", "tv", "tv movie", "tv_movie", "limited series", "mini-series", "mini series", "series"}
  const ANIMATION_LABELS: set<string> := {"animation", "animated feature", "animation series"}

  lemma {:induction false} FeatureLabels(key: string)
    requires key in FEATURE_LABELS
    ensures Token(key) == "feature"
  {
  }

  lemma {:induction false} ShortLabels(key: string)
    requires key in SHORT_LABELS
    ensures Token(key) == "short"
  {
  }

  lemma {:induction false} DocumentaryLabels(key: string)
    requires key in DOCUMENTARY_LABELS
    ensures Token(key) == "documentary"
  {
  }

  lemma {:induction false} SeriesLabels(key: string)
    requires key in SERIES_LABELS
    ensures Token(key) == "tv_series"
  {
  }

  lemma {:induction false} AnimationLabels(key: string)
    requires key in ANIMATION_LABELS
    ensures Token(key) == "animation"
  {
  }

  lemma {:induction false} KnownLabels(key: string)
    requires key in FORMAT_MAP
    ensures key in FEATURE_LABELS || key in SHORT_LABELS || key in DOCUMENTARY_LABELS || key in SERIES_LABELS || key in ANIMATION_LABELS
  {
  }

  /** The stripped, lower-cased label decides the token: its class where it has one,
      itself with underscores for spaces and hyphens where it has none. */
  ghost predicate TokenOf(key: string, token: string) {
    && (key in FEATURE_LABELS ==> token == "feature")
    && (key in SHORT_LABELS ==> token == "short")
    && (key in DOCUMENTARY_LABELS ==> token == "documentary")
    && (key in SERIES_LABELS ==> token == "tv_series")
    && (key in ANIMATION_LABELS ==> token == "animation")
    && (key !in FEATURE_LABELS && key !in SHORT_LABELS && key !in DOCUMENTARY_LABELS && key !in SERIES_LABELS && key !in ANIMATION_LABELS ==>
          |token| == |key| && forall i :: 0 <= i < |key| ==> token[i] == if key[i] == ' ' || key[i] == '-' then '_' else key[i])
  }

  lemma {:induction false} FormatByLabel(value: string)
    ensures CanonicalFormat(value).None? <==> Strip(value) == ""
    ensures CanonicalFormat(value).Some? ==> TokenOf(Lower(Strip(value)), CanonicalFormat(value).value)
  {
    hide FORMAT_MAP, FEATURE_LABELS, SHORT_LABELS, DOCUMENTARY_LABELS, SERIES_LABELS, ANIMATION_LABELS, Strip;
    var key := Lower(Strip(value));
    if key in FORMAT_MAP { KnownLabels(key); }
    if key in FEATURE_LABELS { FeatureLabels(key); }
    if key in SHORT_LABELS { ShortLabels(key); }
    if key in DOCUMENTARY_LABELS { DocumentaryLabels(key); }
    if key in SERIES_LABELS { SeriesLabels(key); }
    if key in ANIMATION_LABELS { AnimationLabels(key); }
  }

  // ---- genres -------------------------------------------------------------------------------

  function GenreList(items: seq<string>): seq<string> {
    if items == [] then []
    else
      var n := |items| - 1;
      var genre := Lower(Strip(items[n]));
      GenreList(items[..n]) + if genre == "" then [] else [genre]
  }

  /** canonical_genres on a list of text: None when nothing is left. */
  function CanonicalGenres(items: seq<string>): Option<seq<string>> {
    var out := GenreList(items);
    if out == [] then None else Some(out)
  }

  lemma {:induction false} GenreListSettles(items: seq<string>)
    ensures GenreList(GenreList(items)) == GenreList(items)
  {
    hide Strip;
    if items != [] {
      var n := |items| - 1;
      GenreListSettles(items[..n]);
      StripTrims(items[n]);
      LowerTrims(Strip(items[n]));
      var front, genre := GenreList(items[..n]), Lower(Strip(items[n]));
      if genre == "" {
        assert front + [] == front;
      } else {
        assert (front + [genre])[..|front|] == front;
      }
    }
  }

  /** Canonical genres are their own canonical form. */
  lemma {:induction false} GenresSettle(items: seq<string>)
    requires CanonicalGenres(items).Some?
    ensures CanonicalGenres(CanonicalGenres(items).value) == CanonicalGenres(items)
  {
    GenreListSettles(items);
  }

  /** `out` is the items at the places `at`, in order, stripped and in lower case: those
      that are not blank. */
  ghost predicate Cleaned(items: seq<string>, at: seq<nat>, out: seq<string>) {
    && |at| == |out|
    && (forall k :: 0 <= k < |at| ==> at[k] < |items| && out[k] == Lower(Strip(items[at[k]])))
    && (forall j, k :: 0 <= j < k < |at| ==> at[j] < at[k])
    && (forall i: nat :: i < |items| ==> (i in at <==> Strip(items[i]) != ""))
  }

  lemma {:induction false} CleanedSnoc(items: seq<string>, item: string, at: seq<nat>, out: seq<string>)
    requires Cleaned(items, at, out)
    ensures Strip(item) == "" ==> Cleaned(items + [item], at, out)
    ensures Strip(item) != "" ==> Cleaned(items + [item], at + [|items|], out + [Lower(Strip(item))])
  {
    hide Strip;
    var all, places := items + [item], at + [|items|];
    assert forall i :: 0 <= i < |items| ==> all[i] == items[i];
    forall i: nat | i < |items| ensures i in places <==> i in at { }
  }

  /** Genres lose nothing but blanks, case and white space, and keep their order. */
  lemma {:induction false} GenresInOrder(items: seq<string>) returns (at: seq<nat>)
    ensures Cleaned(items, at, GenreList(items))
  {
    hide Strip;
    if items == [] {
      at := [];
    } else {
      var n := |items| - 1;
      at := GenresInOrder(items[..n]);
      CleanedSnoc(items[..n], items[n], at, GenreList(items[..n]));
      assert items == items[..n] + [items[n]];
      if Strip(items[n]) != "" {
        at := at + [n];
      } else {
        assert GenreList(items[..n]) + [] == GenreList(items[..n]);
      }
    }
  }
}
