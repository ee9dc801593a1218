/** b2b_signal_v2_cleanup: keep the latest row of each script, settle the stored
    vocabulary, create the unique index. Dry run or apply. */
module SignalCleanup {
  import opened Base
  import opened Formats

  /** The genres column as the driver and json.loads make it out. */
  datatype Genres = NoGenres | Listed(items: seq<string>) | Unreadable(text: string)

  datatype Signal = Signal(
    id: string, scriptId: Option<string>, updatedAt: Option<int>, createdAt: Option<int>, format: Option<string>, genres: Genres)

  type Table = seq<Signal>

  // ---- the latest row of a script ------------------------------------------------------

  /** `a` comes before `b` in DESC NULLS LAST. */
  predicate Later(a: Option<int>, b: Option<int>) { a.Some? && (b.None? || a.value > b.value) }

  /** ORDER BY updated_at DESC NULLS LAST, created_at DESC NULLS LAST */
  predicate Precedes(a: Signal, b: Signal) {
    Later(a.updatedAt, b.updatedAt) || (a.updatedAt == b.updatedAt && Later(a.createdAt, b.createdAt))
  }

  /** The first of the ordered rows; rows that tie keep their table order. */
  function Latest(t: Table, script: string): Option<Signal> {
    if t == [] then None
    else
      var best := Latest(t[..|t| - 1], script);
      var r := t[|t| - 1];
      if r.scriptId != Some(script) then best
      else if best.None? || Precedes(r, best.value) then Some(r) else best
  }

  function CountScript(t: Table, script: string): nat {
    if t == [] then 0 else CountScript(t[..|t| - 1], script) + if t[|t| - 1].scriptId == Some(script) then 1 else 0
  }

  /** The script ids present, each once. */
  function Scripts(t: Table): seq<string> {
    if t == [] then []
    else
      var before, r := Scripts(t[..|t| - 1]), t[|t| - 1];
      if r.scriptId.None? || r.scriptId.value in before then before else before + [r.scriptId.value]
  }

  /** GROUP BY script_id HAVING count(*) > 1 */
  function Repeated(t: Table, scripts: seq<string>): seq<string> {
    if scripts == [] then []
    else
      var n := |scripts| - 1;
      Repeated(t, scripts[..n]) + if CountScript(t, scripts[n]) > 1 then [scripts[n]] else []
  }

  function Duplicates(t: Table): seq<string> { Repeated(t, Scripts(t)) }

  /** DELETE WHERE script_id = :sid AND id != :keep */
  function DeleteOthers(t: Table, script: string, keep: string): Table {
    if t == [] then []
    else
      var n := |t| - 1;
      DeleteOthers(t[..n], script, keep) + if t[n].scriptId == Some(script) && t[n].id != keep then [] else [t[n]]
  }

  function KeepLatest(t: Table, script: string): Table {
    match Latest(t, script) case None => t case Some(r) => DeleteOthers(t, script, r.id)
  }

  function Dedupe(t: Table, scripts: seq<string>): Table {
    if scripts == [] then t else KeepLatest(Dedupe(t, scripts[..|scripts| - 1]), scripts[|scripts| - 1])
  }

  /** The running `doomed_total`: every row but one of each repeated script. */
  function DoomedTotal(t: Table, scripts: seq<string>): int {
    if scripts == [] then 0 else DoomedTotal(t, scripts[..|scripts| - 1]) + CountScript(t, scripts[|scripts| - 1]) - 1
  }

  // ---- vocabulary ------------------------------------------------------------------------

  function NewFormat(format: Option<string>): Option<string> {
    if format.None? || format.value == "" then format else CanonicalFormat(format.value)
  }

  /** The genres read back: text that does not decode counts as absent. */
  function Decoded(genres: Genres): Genres { if genres.Unreadable? then NoGenres else genres }

  function NewGenres(genres: Genres): Genres {
    match Decoded(genres)
    case NoGenres => NoGenres
    case Unreadable(_) => NoGenres
    case Listed(items) =>
      if items == [] then Listed([])
      else match CanonicalGenres(items) case None => NoGenres case Some(out) => Listed(out)
  }

  predicate NeedsWork(r: Signal) { NewFormat(r.format) != r.format || NewGenres(r.genres) != Decoded(r.genres) }

  function Normalised(r: Signal): Signal { if NeedsWork(r) then r.(format := NewFormat(r.format), genres := NewGenres(r.genres)) else r }

  function NormaliseAll(t: Table): (u: Table)
    ensures |u| == |t| && forall i :: 0 <= i < |t| ==> u[i] == Normalised(t[i])
  { seq(|t|, i requires 0 <= i < |t| => Normalised(t[i])) }

  function CountWork(t: Table): nat {
    if t == [] then 0 else CountWork(t[..|t| - 1]) + if NeedsWork(t[|t| - 1]) then 1 else 0
  }

  // ---- one run ----------------------------------------------------------------------------

  /** No two rows share a script: what CREATE UNIQUE INDEX demands. */
  predicate Indexable(t: Table) { forall i, j :: 0 <= i < j < |t| && t[i].scriptId.Some? ==> t[i].scriptId != t[j].scriptId }

  datatype Report = Report(duplicates: nat, doomed: int, changed: nat)

  /** The table after the run; no report when the index cannot be created and the
      whole run is rolled back. */
  function CleanRun(t: Table, apply: bool): (Table, Option<Report>) {
    var dupes := Duplicates(t);
    if !apply then (t, Some(Report(|dupes|, DoomedTotal(t, dupes), CountWork(t))))
    else
      var u := Dedupe(t, dupes);
      var w := NormaliseAll(u);
      if Indexable(w) then (w, Some(Report(|dupes|, DoomedTotal(t, dupes), CountWork(u)))) else (t, None)
  }

  // ---- the script ---------------------------------------------------------------------------

  class SignalTable {
    var rows: Table

    method Clean(apply: bool) returns (report: Option<Report>)
      modifies this
      ensures (rows, report) == CleanRun(old(rows), apply)
    {
      hide NeedsWork, Normalised, Indexable, Latest, CountScript, Scripts, Repeated;
      var dupes := FindDuplicates(rows);
      DuplicatesCounted(rows);
      var t, doomed := DedupeEach(rows, dupes, apply);
      var changed: nat;
      t, changed := NormaliseEach(t, apply);
      if apply {
        if !Indexable(t) { return None; }
        rows := t;
      }
      return Some(Report(|dupes|, doomed, changed));
    }
  }

  method FindDuplicates(t: Table) returns (dupes: seq<string>)
    ensures dupes == Duplicates(t)
  {
    hide CountScript, Scripts;
    var scripts := Scripts(t);
    dupes := [];
    for i := 0 to |scripts|
      invariant dupes == Repeated(t, scripts[..i])
    {
      assert scripts[..i + 1][..i] == scripts[..i];
      if CountScript(t, scripts[i]) > 1 { dupes := dupes + [scripts[i]]; }
    }
    assert scripts[..|scripts|] == scripts;
  }

  /** Step 1. Each script is counted on the table as it stands: in apply mode rows of
      earlier scripts are already gone. */
  method DedupeEach(before: Table, dupes: seq<string>, apply: bool) returns (t: Table, doomed: int)
    requires Distinct(dupes) && forall s :: s in dupes ==> CountScript(before, s) > 1
    ensures t == if apply then Dedupe(before, dupes) else before
    ensures doomed == DoomedTotal(before, dupes)
  {
    hide Latest, CountScript;
    t, doomed := before, 0;
    for i := 0 to |dupes|
      invariant t == if apply then Dedupe(before, dupes[..i]) else before
      invariant doomed == DoomedTotal(before, dupes[..i])
    {
      assert dupes[..i + 1][..i] == dupes[..i];
      if apply { UntouchedByOthers(before, dupes[..i], dupes[i]); }
      doomed := doomed + CountScript(t, dupes[i]) - 1;
      if apply { t := KeepLatest(t, dupes[i]); }
    }
    assert dupes[..|dupes|] == dupes;
  }

  /** Step 2. */
  method NormaliseEach(before: Table, apply: bool) returns (t: Table, changed: nat)
    ensures t == if apply then NormaliseAll(before) else before
    ensures changed == CountWork(before)
  {
    hide NeedsWork, NewFormat, NewGenres;
    t, changed := before, 0;
    for i := 0 to |before|
      invariant |t| == |before|
      invariant forall k :: i <= k < |before| ==> t[k] == before[k]
      invariant forall k :: 0 <= k < i ==> t[k] == if apply then Normalised(before[k]) else before[k]
      invariant changed == CountWork(before[..i])
    {
      assert before[..i + 1][..i] == before[..i];
      if !NeedsWork(before[i]) { continue; }
      changed := changed + 1;
      if apply { t := t[i := before[i].(format := NewFormat(before[i].format), genres := NewGenres(before[i].genres))]; }
    }
    assert before[..|before|] == before;
  }

  // ---- what the loops rely on ------------------------------------------------------------------

  lemma {:induction false} ScriptsAre(t: Table)
    ensures Distinct(Scripts(t))
    ensures forall s :: s in Scripts(t) <==> exists r :: r in t && r.scriptId == Some(s)
  {
    if t != [] {
      var n := |t| - 1;
      assert t == t[..n] + [t[n]];
      ScriptsAre(t[..n]);
      if t[n].scriptId.Some? { DistinctSnoc(Scripts(t[..n]), t[n].scriptId.value); }
    }
  }

  lemma {:induction false} RepeatedAre(t: Table, scripts: seq<string>)
    requires Distinct(scripts)
    ensures Distinct(Repeated(t, scripts))
    ensures forall s :: s in Repeated(t, scripts) <==> s in scripts && CountScript(t, s) > 1
  {
    hide CountScript;
    if scripts != [] {
      var n := |scripts| - 1;
      assert scripts == scripts[..n] + [scripts[n]];
      DistinctSnoc(scripts[..n], scripts[n]);
      RepeatedAre(t, scripts[..n]);
      DistinctSnoc(Repeated(t, scripts[..n]), scripts[n]);
      assert Repeated(t, scripts[..n]) + [] == Repeated(t, scripts[..n]);
    }
  }

  lemma {:induction false} DuplicatesCounted(t: Table)
    ensures Distinct(Duplicates(t)) && forall s :: s in Duplicates(t) ==> CountScript(t, s) > 1
  {
    hide Distinct, CountScript, Scripts, Repeated;
    ScriptsAre(t);
    RepeatedAre(t, Scripts(t));
  }

  lemma {:induction false} ScriptSnoc(t: Table, r: Signal, script: string)
    ensures CountScript(t + [r], script) == CountScript(t, script) + if r.scriptId == Some(script) then 1 else 0
    ensures r.scriptId != Some(script) ==> Latest(t + [r], script) == Latest(t, script)
    ensures r.scriptId == Some(script) ==>
              Latest(t + [r], script) == if Latest(t, script).None? || Precedes(r, Latest(t, script).value) then Some(r) else Latest(t, script)
  {
  }

  lemma {:induction false} DeleteKeepsOthers(t: Table, script: string, keep: string, other: string)
    requires other != script
    ensures CountScript(DeleteOthers(t, script, keep), other) == CountScript(t, other)
    ensures Latest(DeleteOthers(t, script, keep), other) == Latest(t, other)
  {
    hide CountScript, Latest, Precedes;
    if t != [] {
      var n := |t| - 1;
      var front, r := t[..n], t[n];
      assert t == front + [r];
      DeleteKeepsOthers(front, script, keep, other);
      ScriptSnoc(front, r, other);
      ScriptSnoc(DeleteOthers(front, script, keep), r, other);
      assert DeleteOthers(front, script, keep) + [] == DeleteOthers(front, script, keep);
    }
  }

  /** Removing the copies of other scripts changes neither the count nor the latest
      row of this one. */
  lemma {:induction false} UntouchedByOthers(t: Table, scripts: seq<string>, other: string)
    requires other !in scripts
    ensures CountScript(Dedupe(t, scripts), other) == CountScript(t, other)
    ensures Latest(Dedupe(t, scripts), other) == Latest(t, other)
  {
    hide CountScript, Latest;
    if scripts != [] {
      var n := |scripts| - 1;
      assert scripts == scripts[..n] + [scripts[n]];
      UntouchedByOthers(t, scripts[..n], other);
      var u := Dedupe(t, scripts[..n]);
      if Latest(u, scripts[n]).Some? { DeleteKeepsOthers(u, scripts[n], Latest(u, scripts[n]).value.id, other); }
    }
  }
}
