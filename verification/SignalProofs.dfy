/** What the signal clean-up promises: one latest row for each script, an index
    that can be created, counts that add up, and when a second run finds nothing. */
module SignalProofs {
  import opened Base
  import opened Text
  import opened Formats
  import opened SignalCleanup

  ghost predicate DistinctIds(t: Table) { forall i, j :: 0 <= i < j < |t| ==> t[i].id != t[j].id }

  // ---- the survivor -------------------------------------------------------------------

  /** `r` is a row of the script that no other row of it precedes. */
  ghost predicate IsLatest(t: Table, script: string, r: Signal) {
    r in t && r.scriptId == Some(script) && forall x :: x in t && x.scriptId == Some(script) ==> !Precedes(x, r)
  }

  lemma {:induction false} LatestIs(t: Table, script: string)
    ensures Latest(t, script).Some? ==> IsLatest(t, script, Latest(t, script).value)
    ensures Latest(t, script).None? <==> forall x :: x in t ==> x.scriptId != Some(script)
  {
    if t != [] {
      var n := |t| - 1;
      assert t == t[..n] + [t[n]];
      LatestIs(t[..n], script);
    }
  }

  /** In plain terms: no row of the script is newer, a known time beats an unknown
      one, and creation decides between equal updates. */
  lemma {:induction false} LatestIsNewest(t: Table, script: string, r: Signal, x: Signal)
    requires Latest(t, script) == Some(r) && x in t && x.scriptId == Some(script)
    ensures x.updatedAt.Some? ==> r.updatedAt.Some? && r.updatedAt.value >= x.updatedAt.value
    ensures x.updatedAt == r.updatedAt && x.createdAt.Some? ==> r.createdAt.Some? && r.createdAt.value >= x.createdAt.value
  {
    hide Latest;
    LatestIs(t, script);
  }

  lemma {:induction false} CountIs(t: Table, script: string)
    ensures CountScript(t, script) == 0 <==> forall x :: x in t ==> x.scriptId != Some(script)
    ensures CountScript(t, script) == 1 ==> forall x, y :: x in t && y in t && x.scriptId == y.scriptId == Some(script) ==> x == y
  {
    if t != [] {
      var n := |t| - 1;
      assert t == t[..n] + [t[n]];
      CountIs(t[..n], script);
    }
  }

  // ---- the deduplicated table ------------------------------------------------------------

  /** The row is kept: it has no script, or it is its script's latest. */
  predicate Stays(t: Table, r: Signal) {
    r.scriptId.Some? ==> var latest := Latest(t, r.scriptId.value); latest.Some? && latest.value.id == r.id
  }

  lemma {:induction false} DeletedAre(t: Table, script: string, keep: string)
    ensures forall r :: r in DeleteOthers(t, script, keep) <==> r in t && (r.scriptId == Some(script) ==> r.id == keep)
  {
    if t != [] {
      var n := |t| - 1;
      assert t == t[..n] + [t[n]];
      DeletedAre(t[..n], script, keep);
    }
  }

  /** Deduplicating some of the scripts keeps exactly the rows that stay, and every
      row of the scripts it was not asked about. */
  lemma {:induction false} DedupeAre(t: Table, scripts: seq<string>)
    requires Distinct(scripts)
    ensures forall r :: r in Dedupe(t, scripts) <==> r in t && (r.scriptId.Some? && r.scriptId.value in scripts ==> Stays(t, r))
  {
    hide Latest;
    if scripts != [] {
      var n := |scripts| - 1;
      assert scripts == scripts[..n] + [scripts[n]];
      DistinctSnoc(scripts[..n], scripts[n]);
      DedupeAre(t, scripts[..n]);
      var u := Dedupe(t, scripts[..n]);
      UntouchedByOthers(t, scripts[..n], scripts[n]);
      LatestIs(t, scripts[n]);
      if Latest(t, scripts[n]).Some? { DeletedAre(u, scripts[n], Latest(t, scripts[n]).value.id); }
    }
  }

  /** Over the repeated scripts that is every row that stays, and no other. */
  lemma {:induction false} DedupedRows(t: Table)
    ensures forall r :: r in Dedupe(t, Duplicates(t)) <==> r in t && Stays(t, r)
  {
    hide Latest, Dedupe, CountScript, Scripts, Repeated;
    var dupes := Duplicates(t);
    DuplicatesCounted(t);
    DedupeAre(t, dupes);
    ScriptsAre(t);
    RepeatedAre(t, Scripts(t));
    forall r | r in t && r.scriptId.Some? && r.scriptId.value !in dupes ensures Stays(t, r) {
      CountIs(t, r.scriptId.value);
      LatestIs(t, r.scriptId.value);
    }
  }

  lemma {:induction false} DeleteDistinct(t: Table, script: string, keep: string)
    requires DistinctIds(t)
    ensures DistinctIds(DeleteOthers(t, script, keep))
  {
    if t != [] {
      var n := |t| - 1;
      DeleteDistinct(t[..n], script, keep);
      DeletedAre(t[..n], script, keep);
      var front := DeleteOthers(t[..n], script, keep);
      forall i | 0 <= i < |front| ensures front[i].id != t[n].id {
        assert front[i] in front;
        var k :| 0 <= k < n && t[..n][k] == front[i];
        assert t[k].id != t[n].id;
      }
    }
  }

  lemma {:induction false} DedupeDistinct(t: Table, scripts: seq<string>)
    requires DistinctIds(t)
    ensures DistinctIds(Dedupe(t, scripts))
  {
    hide Latest, DistinctIds;
    if scripts != [] {
      var n := |scripts| - 1;
      DedupeDistinct(t, scripts[..n]);
      var u := Dedupe(t, scripts[..n]);
      if Latest(u, scripts[n]).Some? { DeleteDistinct(u, scripts[n], Latest(u, scripts[n]).value.id); }
    }
  }

  /** After the dedupe each script that was there has one row, its latest, and rows
      without a script are all still there. */
  lemma {:induction false} OneRowPerScript(t: Table)
    requires DistinctIds(t)
    ensures var u := Dedupe(t, Duplicates(t));
            && Indexable(u)
            && (forall r :: r in u ==> r in t && (r.scriptId.Some? ==> IsLatest(t, r.scriptId.value, r)))
            && (forall r :: r in t && r.scriptId.Some? ==> exists x :: x in u && x.scriptId == r.scriptId)
            && (forall r :: r in t && r.scriptId.None? ==> r in u)
  {
    hide Latest, Dedupe, CountScript, Scripts, Repeated, Precedes;
    var u := Dedupe(t, Duplicates(t));
    DedupedRows(t);
    DedupeDistinct(t, Duplicates(t));
    forall r | r in u && r.scriptId.Some? ensures r == Latest(t, r.scriptId.value).value && IsLatest(t, r.scriptId.value, r) {
      LatestIs(t, r.scriptId.value);
      SameId(t, r, Latest(t, r.scriptId.value).value);
    }
    forall r | r in t && r.scriptId.Some? ensures exists x :: x in u && x.scriptId == r.scriptId {
      LatestIs(t, r.scriptId.value);
      assert Latest(t, r.scriptId.value).value in u;
    }
    forall i, j | 0 <= i < j < |u| && u[i].scriptId.Some? ensures u[i].scriptId != u[j].scriptId {
      assert u[i] in u && u[j] in u && u[i].id != u[j].id;
    }
  }

  lemma {:induction false} SameId(t: Table, r: Signal, x: Signal)
    requires DistinctIds(t) && r in t && x in t && r.id == x.id
    ensures r == x
  {
  }

  // ---- the counts -----------------------------------------------------------------------------

  lemma {:induction false} WorkSnoc(t: Table, r: Signal)
    ensures CountWork(t + [r]) == CountWork(t) + if NeedsWork(r) then 1 else 0
  {
  }

  /** One repeated script costs all its rows but one, and the work they needed. */
  lemma {:induction false} DeleteCounts(t: Table, script: string, keep: string)
    ensures |DeleteOthers(t, script, keep)| == |t| - CountScript(t, script) + CountKept(t, script, keep)
    ensures CountWork(DeleteOthers(t, script, keep)) == CountWork(t) - CountDoomedWork(t, script, keep)
  {
    hide NeedsWork, CountWork;
    if t != [] {
      var n := |t| - 1;
      var front, r := t[..n], t[n];
      assert t == front + [r];
      DeleteCounts(front, script, keep);
      WorkSnoc(front, r);
      WorkSnoc(DeleteOthers(front, script, keep), r);
      assert DeleteOthers(front, script, keep) + [] == DeleteOthers(front, script, keep);
    }
  }

  lemma {:induction false} DistinctFront(t: Table)
    requires DistinctIds(t) && t != []
    ensures DistinctIds(t[..|t| - 1])
  {
  }

  function CountKept(t: Table, script: string, keep: string): nat {
    if t == [] then 0
    else CountKept(t[..|t| - 1], script, keep) + if t[|t| - 1].scriptId == Some(script) && t[|t| - 1].id == keep then 1 else 0
  }

  /** The doomed rows of a script that need normalising. */
  function CountDoomedWork(t: Table, script: string, keep: string): nat {
    if t == [] then 0
    else
      var r := t[|t| - 1];
      CountDoomedWork(t[..|t| - 1], script, keep) + if r.scriptId == Some(script) && r.id != keep && NeedsWork(r) then 1 else 0
  }

  lemma {:induction false} KeptOnce(t: Table, script: string, r: Signal)
    requires DistinctIds(t) && r in t && r.scriptId == Some(script)
    ensures CountKept(t, script, r.id) == 1
  {
    var n := |t| - 1;
    assert t == t[..n] + [t[n]];
    DistinctFront(t);
    if t[n] == r {
      NoneKept(t[..n], script, r.id);
    } else {
      KeptOnce(t[..n], script, r);
      var k :| 0 <= k < n && t[k] == r;
      assert t[k].id != t[n].id;
    }
  }

  lemma {:induction false} NoneKept(t: Table, script: string, keep: string)
    requires forall x :: x in t ==> x.id != keep
    ensures CountKept(t, script, keep) == 0
  {
    if t != [] {
      assert t[|t| - 1] in t;
      NoneKept(t[..|t| - 1], script, keep);
    }
  }

  /** Over all repeated scripts: the doomed rows that need normalising. */
  function DoomedWork(t: Table, scripts: seq<string>): nat {
    if scripts == [] then 0
    else
      var n := |scripts| - 1;
      DoomedWork(t, scripts[..n]) +
      match Latest(t, scripts[n]) case None => 0 case Some(r) => CountDoomedWork(t, scripts[n], r.id)
  }

  lemma {:induction false} DoomedWorkSnoc(t: Table, r: Signal, script: string, keep: string)
    ensures CountDoomedWork(t + [r], script, keep) ==
            CountDoomedWork(t, script, keep) + if r.scriptId == Some(script) && r.id != keep && NeedsWork(r) then 1 else 0
  {
  }

  lemma {:induction false} DeleteKeepsWork(t: Table, script: string, keep: string, other: string, id: string)
    requires other != script
    ensures CountDoomedWork(DeleteOthers(t, script, keep), other, id) == CountDoomedWork(t, other, id)
  {
    hide NeedsWork, CountDoomedWork;
    if t != [] {
      var n := |t| - 1;
      var front, r := t[..n], t[n];
      assert t == front + [r];
      DeleteKeepsWork(front, script, keep, other, id);
      DoomedWorkSnoc(front, r, other, id);
      DoomedWorkSnoc(DeleteOthers(front, script, keep), r, other, id);
      assert DeleteOthers(front, script, keep) + [] == DeleteOthers(front, script, keep);
    }
  }

  lemma {:induction false} DoomedWorkUntouched(t: Table, scripts: seq<string>, other: string, id: string)
    requires other !in scripts
    ensures CountDoomedWork(Dedupe(t, scripts), other, id) == CountDoomedWork(t, other, id)
  {
    hide CountDoomedWork, Latest;
    if scripts != [] {
      var n := |scripts| - 1;
      assert scripts == scripts[..n] + [scripts[n]];
      DoomedWorkUntouched(t, scripts[..n], other, id);
      var u := Dedupe(t, scripts[..n]);
      if Latest(u, scripts[n]).Some? { DeleteKeepsWork(u, scripts[n], Latest(u, scripts[n]).value.id, other, id); }
    }
  }

  /** The table shrinks by exactly the doomed total, and the work left by exactly
      what the doomed rows needed. */
  lemma {:induction false} DedupeCounts(t: Table, scripts: seq<string>)
    requires DistinctIds(t) && Distinct(scripts) && forall s :: s in scripts ==> CountScript(t, s) > 1
    ensures |Dedupe(t, scripts)| == |t| - DoomedTotal(t, scripts)
    ensures CountWork(Dedupe(t, scripts)) == CountWork(t) - DoomedWork(t, scripts)
  {
    hide Latest, CountScript, CountWork, DistinctIds, CountDoomedWork, CountKept;
    if scripts != [] {
      var n := |scripts| - 1;
      var s := scripts[n];
      assert scripts == scripts[..n] + [s];
      DistinctSnoc(scripts[..n], s);
      DedupeCounts(t, scripts[..n]);
      var u := Dedupe(t, scripts[..n]);
      UntouchedByOthers(t, scripts[..n], s);
      DedupeDistinct(t, scripts[..n]);
      CountIs(t, s);
      LatestIs(t, s);
      LatestIs(u, s);
      var r := Latest(t, s).value;
      DeleteCounts(u, s, r.id);
      KeptOnce(u, s, r);
      DoomedWorkUntouched(t, scripts[..n], s, r.id);
    }
  }

  /** An applied run always goes through: the index can be created, the rows drop by
      the doomed total, and the dry run's normalisation count is larger than apply's
      by exactly the doomed rows that needed it. */
  lemma {:induction false} DryRunForetellsApply(t: Table)
    requires DistinctIds(t)
    ensures var dry, wet := CleanRun(t, false), CleanRun(t, true);
            && dry.0 == t && dry.1.Some? && wet.1.Some?
            && dry.1.value.duplicates == wet.1.value.duplicates && dry.1.value.doomed == wet.1.value.doomed
            && |wet.0| == |t| - wet.1.value.doomed
            && dry.1.value.changed == wet.1.value.changed + DoomedWork(t, Duplicates(t))
  {
    hide Latest, CountScript, CountWork, DistinctIds, Dedupe, DoomedTotal, DoomedWork, NeedsWork, Scripts, Repeated;
    DuplicatesCounted(t);
    DedupeCounts(t, Duplicates(t));
    OneRowPerScript(t);
    NormalisedIndexable(Dedupe(t, Duplicates(t)));
  }

  lemma {:induction false} NormalisedIndexable(t: Table)
    ensures Indexable(NormaliseAll(t)) <==> Indexable(t)
  {
  }

  // ---- a second run -------------------------------------------------------------------------------

  lemma {:induction false} IndexableCounts(t: Table, script: string)
    requires Indexable(t)
    ensures CountScript(t, script) <= 1
  {
    if t != [] {
      var n := |t| - 1;
      IndexableCounts(t[..n], script);
      CountIs(t[..n], script);
      forall k | 0 <= k < n && t[n].scriptId == Some(script) ensures t[..n][k].scriptId != Some(script) {
        assert t[k].scriptId.Some? ==> t[k].scriptId != t[n].scriptId;
      }
    }
  }

  lemma {:induction false} NothingRepeated(t: Table)
    requires Indexable(t)
    ensures Duplicates(t) == []
  {
    hide Indexable, CountScript, Scripts, Repeated;
    DuplicatesCounted(t);
    if Duplicates(t) != [] { IndexableCounts(t, Duplicates(t)[0]); }
  }

  /** The row's format is the one spelling a single pass does not settle. */
  predicate Hyphenated(r: Signal) { r.format.Some? && FormatKey(r.format.value) == "tv-movie" }

  lemma {:induction false} NormalisedAgain(r: Signal)
    ensures NeedsWork(Normalised(r)) <==> Hyphenated(r)
  {
    hide CanonicalFormat, CanonicalGenres, FormatKey, NeedsWork, Normalised;
    FormatAgain(r);
    GenresAgain(r.genres);
    WorkParts(r);
    WorkParts(Normalised(r));
  }

  lemma {:induction false} WorkParts(r: Signal)
    ensures NeedsWork(r) <==> NewFormat(r.format) != r.format || NewGenres(r.genres) != Decoded(r.genres)
    ensures Normalised(r).format == NewFormat(r.format)
    ensures NewGenres(Normalised(r).genres) == NewGenres(r.genres) || Normalised(r).genres == NewGenres(r.genres)
    ensures Decoded(Normalised(r).genres) == NewGenres(r.genres)
  {
  }

  lemma {:induction false} FormatAgain(r: Signal)
    ensures NewFormat(NewFormat(r.format)) != NewFormat(r.format) <==> Hyphenated(r)
  {
    hide FormatKey, Token;
    if r.format.Some? && r.format.value != "" {
      if CanonicalFormat(r.format.value).Some? {
        FormatSettlesIff(r.format.value);
        SomeToken(r.format.value);
      }
    } else if r.format.Some? {
      EmptyKey();
    }
  }

  lemma {:induction false} SomeToken(value: string)
    requires CanonicalFormat(value).Some?
    ensures CanonicalFormat(value).value != ""
  {
    hide Token, FormatKey;
    KeySettles(value);
    KeyIsLower(value);
    TokenKey(FormatKey(value));
  }

  lemma {:induction false} EmptyKey()
    ensures FormatKey("") == ""
  {
  }

  lemma {:induction false} GenresAgain(genres: Genres)
    ensures NewGenres(NewGenres(genres)) == NewGenres(genres)
  {
    hide GenreList;
    if genres.Listed? && CanonicalGenres(genres.items).Some? { GenresSettle(genres.items); }
  }

  /** Rows left by an applied run that a second run would change again. */
  function CountHyphenated(t: Table): nat {
    if t == [] then 0 else CountHyphenated(t[..|t| - 1]) + if Hyphenated(t[|t| - 1]) then 1 else 0
  }

  lemma {:induction false} WorkLeft(t: Table)
    ensures CountWork(NormaliseAll(t)) == CountHyphenated(t)
  {
    hide NeedsWork, Normalised, Hyphenated;
    if t != [] {
      var n := |t| - 1;
      WorkLeft(t[..n]);
      NormalisedAgain(t[n]);
      assert NormaliseAll(t)[..n] == NormaliseAll(t[..n]);
    }
  }

  /** Run again, the clean-up finds no duplicate, and changes exactly the rows whose
      format had been typed "tv-movie". */
  lemma {:induction false} SecondRun(t: Table)
    requires DistinctIds(t)
    ensures var wet := CleanRun(t, true);
            && wet.1.Some?
            && CleanRun(wet.0, false).1 == Some(Report(0, 0, CountHyphenated(Dedupe(t, Duplicates(t)))))
  {
    hide Latest, CountScript, CountWork, DistinctIds, Dedupe, DoomedTotal, NeedsWork, Scripts, Repeated, CountHyphenated, Indexable;
    var u := Dedupe(t, Duplicates(t));
    OneRowPerScript(t);
    NormalisedIndexable(u);
    NothingRepeated(NormaliseAll(u));
    WorkLeft(u);
    NoneDoomed(NormaliseAll(u));
  }

  lemma {:induction false} NoneDoomed(t: Table)
    ensures DoomedTotal(t, []) == 0
  {
  }

  /** A second apply settles everything: a third run finds nothing at all. */
  lemma {:induction false} ThirdRunFindsNothing(t: Table)
    requires DistinctIds(t)
    ensures var once := CleanRun(t, true).0;
            var twice := CleanRun(once, true);
            twice.1.Some? && CleanRun(twice.0, false).1 == Some(Report(0, 0, 0))
  {
    hide Latest, CountScript, CountWork, Dedupe, DoomedTotal, NeedsWork, Normalised, Scripts, Repeated, CountHyphenated, Indexable;
    var u := Dedupe(t, Duplicates(t));
    var once := NormaliseAll(u);
    OneRowPerScript(t);
    NormalisedIndexable(u);
    DedupeDistinct(t, Duplicates(t));
    assert DistinctIds(once) by { NormalisedIds(u); }
    SecondRun(once);
    NothingRepeated(once);
    NoneRemoved(once);
    forall i | 0 <= i < |u| ensures !Hyphenated(once[i]) { NotHyphenatedAgain(u[i]); }
    NoneHyphenated(once);
    assert CleanRun(t, true).0 == once;
  }

  lemma {:induction false} NormalisedIds(t: Table)
    requires DistinctIds(t)
    ensures DistinctIds(NormaliseAll(t))
  {
  }

  lemma {:induction false} NoneRemoved(t: Table)
    ensures Dedupe(t, []) == t
  {
  }

  lemma {:induction false} NoneHyphenated(t: Table)
    requires forall i :: 0 <= i < |t| ==> !Hyphenated(t[i])
    ensures CountHyphenated(t) == 0
  {
    hide Hyphenated;
    if t != [] { NoneHyphenated(t[..|t| - 1]); }
  }

  lemma {:induction false} NotHyphenatedAgain(r: Signal)
    ensures !Hyphenated(Normalised(r))
  {
    hide CanonicalFormat, FormatKey, NeedsWork, Normalised, NewGenres;
    WorkParts(r);
    if r.format.Some? {
      EmptyKey();
      if r.format.value != "" && CanonicalFormat(r.format.value).Some? { NeverTypedSo(r.format.value); }
    }
  }

  lemma {:induction false} NeverTypedSo(value: string)
    requires CanonicalFormat(value).Some?
    ensures FormatKey(CanonicalFormat(value).value) != "tv-movie"
  {
    hide Token, FormatKey;
    KeySettles(value);
    KeyIsLower(value);
    TokenKey(FormatKey(value));
    NoHyphen(FormatKey(value));
  }

  // ---- the cleaned table, column by column ----------------------------------------------------

  /** The stored format after the run: nothing and empty text are left alone, white
      space becomes nothing, any other label its token. */
  ghost predicate FormatAfter(before: Option<string>, after: Option<string>) {
    match before
    case None => after == None
    case Some(shown) =>
      if shown == "" then after == before
      else if Strip(shown) == "" then after == None
      else after.Some? && TokenOf(Lower(Strip(shown)), after.value)
  }

  /** The stored genres after the run: a list loses its blanks and is dropped when
      nothing is left; text that does not decode is dropped when the row is rewritten
      for its format. */
  ghost predicate GenresAfter(before: Genres, after: Genres, rewritten: bool) {
    match before
    case NoGenres => after == NoGenres
    case Unreadable(text) => after == if rewritten then NoGenres else before
    case Listed(items) =>
      if items == [] then after == Listed([])
      else if forall i :: 0 <= i < |items| ==> Strip(items[i]) == "" then after == NoGenres
      else after.Listed? && exists at :: Cleaned(items, at, after.items)
  }

  ghost predicate RowAfter(r: Signal, x: Signal) {
    && x.id == r.id && x.scriptId == r.scriptId && x.updatedAt == r.updatedAt && x.createdAt == r.createdAt
    && FormatAfter(r.format, x.format) && GenresAfter(r.genres, x.genres, x.format != r.format)
  }

  lemma {:induction false} FormatIsAfter(format: Option<string>)
    ensures FormatAfter(format, NewFormat(format))
  {
    hide TokenOf, CanonicalFormat, Strip;
    if format.Some? && format.value != "" { FormatByLabel(format.value); }
  }

  lemma {:induction false} GenresAreAfter(items: seq<string>)
    requires items != []
    ensures GenresAfter(Listed(items), NewGenres(Listed(items)), false) && GenresAfter(Listed(items), NewGenres(Listed(items)), true)
  {
    hide GenreList, Strip;
    var at := GenresInOrder(items);
    if GenreList(items) == [] {
      forall i: nat | i < |items| ensures Strip(items[i]) == "" { assert i !in at; }
    } else {
      assert Strip(items[at[0]]) != "" by { assert at[0] in at; }
    }
  }

  lemma {:induction false} RowIsAfter(r: Signal)
    ensures RowAfter(r, Normalised(r))
  {
    hide FormatAfter, CanonicalFormat, CanonicalGenres, Strip;
    FormatIsAfter(r.format);
    if r.genres.Listed? && r.genres.items != [] { GenresAreAfter(r.genres.items); }
  }

  /** An applied run leaves of each script its newest row, and every row without a
      script; format and genres are settled and nothing else in a row changes. */
  lemma {:induction false} CleanedRows(t: Table)
    requires DistinctIds(t)
    ensures var w := CleanRun(t, true).0;
            && (forall x :: x in w ==> exists r :: r in t && (r.scriptId.Some? ==> IsLatest(t, r.scriptId.value, r)) && RowAfter(r, x))
            && (forall r :: r in t && r.scriptId.Some? ==> exists x :: x in w && x.scriptId == r.scriptId)
            && (forall r :: r in t && r.scriptId.None? ==> exists x :: x in w && RowAfter(r, x))
  {
    hide NeedsWork, Normalised, Indexable, Latest, CountScript, Scripts, Repeated, RowAfter, IsLatest, DistinctIds;
    var u := Dedupe(t, Duplicates(t));
    OneRowPerScript(t);
    NormalisedIndexable(u);
    var w := NormaliseAll(u);
    forall x | x in w ensures exists r :: r in t && (r.scriptId.Some? ==> IsLatest(t, r.scriptId.value, r)) && RowAfter(r, x) {
      var i :| 0 <= i < |w| && w[i] == x;
      assert u[i] in u;
      RowIsAfter(u[i]);
    }
    forall r | r in u ensures exists x :: x in w && RowAfter(r, x) && x.scriptId == r.scriptId {
      var i :| 0 <= i < |u| && u[i] == r;
      assert w[i] in w;
      RowIsAfter(r);
      SameScript(r, w[i]);
    }
  }

  lemma {:induction false} SameScript(r: Signal, x: Signal)
    requires RowAfter(r, x)
    ensures x.scriptId == r.scriptId
  {
  }

  lemma {:induction false} WorkIsChange(r: Signal)
    ensures NeedsWork(r) <==> Normalised(r) != r
  {
    hide CanonicalFormat, CanonicalGenres;
  }

  /** The places where two tables of one length differ. */
  ghost function Differences(t: Table, u: Table): set<nat>
    requires |t| == |u|
  {
    set i: nat | i < |t| && t[i] != u[i]
  }

  lemma {:induction false} DifferencesSnoc(t: Table, u: Table, r: Signal, x: Signal)
    requires |t| == |u|
    ensures Differences(t + [r], u + [x]) == Differences(t, u) + if r != x then {|t|} else {}
    ensures |Differences(t + [r], u + [x])| == |Differences(t, u)| + if r != x then 1 else 0
  {
    var a, b := t + [r], u + [x];
    assert forall i :: 0 <= i < |t| ==> a[i] == t[i] && b[i] == u[i];
    assert a[|t|] == r && b[|t|] == x && |t| !in Differences(t, u);
  }

  /** The changes counted are the rows that normalising changes. */
  lemma {:induction false} ChangesCounted(t: Table)
    ensures CountWork(t) == |Differences(t, NormaliseAll(t))|
  {
    hide NeedsWork, Normalised;
    if t != [] {
      var n := |t| - 1;
      ChangesCounted(t[..n]);
      WorkIsChange(t[n]);
      DifferencesSnoc(t[..n], NormaliseAll(t[..n]), t[n], Normalised(t[n]));
      assert t == t[..n] + [t[n]] && NormaliseAll(t) == NormaliseAll(t[..n]) + [Normalised(t[n])];
    }
  }

  /** The script has more than one row. */
  ghost predicate Repeats(t: Table, script: string) {
    exists i, j :: 0 <= i < j < |t| && t[i].scriptId == Some(script) && t[j].scriptId == Some(script)
  }

  lemma {:induction false} OneOfScript(t: Table, script: string)
    ensures CountScript(t, script) >= 1 <==> exists i :: 0 <= i < |t| && t[i].scriptId == Some(script)
  {
    if t != [] {
      var n := |t| - 1;
      OneOfScript(t[..n], script);
      if i :| 0 <= i < n && t[..n][i].scriptId == Some(script) { assert t[i].scriptId == Some(script); }
      if i :| 0 <= i < |t| && t[i].scriptId == Some(script) { if i < n { assert t[..n][i].scriptId == Some(script); } }
    }
  }

  lemma {:induction false} RepeatsIs(t: Table, script: string)
    ensures CountScript(t, script) > 1 <==> Repeats(t, script)
  {
    if t != [] {
      var n := |t| - 1;
      RepeatsIs(t[..n], script);
      OneOfScript(t[..n], script);
      assert forall i :: 0 <= i < n ==> t[..n][i] == t[i];
      if CountScript(t, script) > 1 && CountScript(t[..n], script) <= 1 {
        var i :| 0 <= i < n && t[..n][i].scriptId == Some(script);
        assert t[i].scriptId == Some(script) && t[n].scriptId == Some(script);
      }
      if i, j :| 0 <= i < j < |t| && t[i].scriptId == Some(script) && t[j].scriptId == Some(script) {
        if j < n { assert t[..n][i].scriptId == Some(script) && t[..n][j].scriptId == Some(script); }
        else { assert t[..n][i].scriptId == Some(script); }
      }
    }
  }

  /** The duplicates reported, dry or applied, are the scripts with more than one row,
      each counted once. */
  lemma {:induction false} DuplicatesReported(t: Table, apply: bool)
    ensures var report := CleanRun(t, apply).1;
            report.Some? ==> report.value.duplicates == |Duplicates(t)| && Distinct(Duplicates(t))
                             && forall s :: s in Duplicates(t) <==> Repeats(t, s)
  {
    hide Repeats, CountScript, Indexable, Dedupe, NormaliseAll, CountWork, DoomedTotal, Scripts, Repeated;
    ScriptsAre(t);
    RepeatedAre(t, Scripts(t));
    forall s ensures s in Duplicates(t) <==> Repeats(t, s) {
      RepeatsIs(t, s);
      if Repeats(t, s) { RepeatedPresent(t, s); }
    }
  }

  lemma {:induction false} RepeatedPresent(t: Table, script: string)
    requires Repeats(t, script)
    ensures exists r :: r in t && r.scriptId == Some(script)
  {
    var i, j :| 0 <= i < j < |t| && t[i].scriptId == Some(script) && t[j].scriptId == Some(script);
    assert t[i] in t;
  }
}
