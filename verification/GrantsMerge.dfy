/** The duplicate merge of revision b1c2d3e4f5a7: one row of a title survives, and
    no title loses its source.

    The survivor test is Python's `!=`, which holds of NULL; the delete is SQL's
    `<>`, which does not. A row without a type is therefore a donor but stays. */
module GrantsMerge {
  import opened Base

  datatype Opportunity = Opportunity(
    id: string, title: Option<string>, kind: Option<string>, source: Option<string>)

  type Table = seq<Opportunity>

  predicate OfTitle(r: Opportunity, title: string) { r.title == Some(title) }

  /** `not source` */
  predicate HasSource(r: Opportunity) { r.source.Some? && r.source.value != "" }

  predicate Survives(r: Opportunity, title: string, keep: string) { OfTitle(r, title) && r.kind == Some(keep) }

  /** A loser, in Python's reading. */
  predicate Loses(r: Opportunity, title: string, keep: string) { OfTitle(r, title) && r.kind != Some(keep) }

  /** What the DELETE selects. */
  predicate Doomed(r: Opportunity, title: string, keep: string) { OfTitle(r, title) && r.kind.Some? && r.kind.value != keep }

  function CountTitle(t: Table, title: string): nat {
    if t == [] then 0 else CountTitle(t[..|t| - 1], title) + if OfTitle(t[|t| - 1], title) then 1 else 0
  }

  function FirstSurvivor(t: Table, title: string, keep: string): Option<Opportunity> {
    if t == [] then None
    else
      var n := |t| - 1;
      var earlier := FirstSurvivor(t[..n], title, keep);
      if earlier.Some? then earlier else if Survives(t[n], title, keep) then Some(t[n]) else None
  }

  /** The first source a loser has. */
  function Donor(t: Table, title: string, keep: string): Option<string> {
    if t == [] then None
    else
      var n := |t| - 1;
      var earlier := Donor(t[..n], title, keep);
      if earlier.Some? then earlier else if Loses(t[n], title, keep) && HasSource(t[n]) then t[n].source else None
  }

  /** UPDATE ... SET official_source WHERE id */
  function SetSource(t: Table, id: string, source: string): (u: Table)
    ensures |u| == |t| && forall i :: 0 <= i < |t| ==> u[i] == if t[i].id == id then t[i].(source := Some(source)) else t[i]
  { seq(|t|, i requires 0 <= i < |t| => if t[i].id == id then t[i].(source := Some(source)) else t[i]) }

  function DeleteDoomed(t: Table, title: string, keep: string): Table {
    if t == [] then []
    else DeleteDoomed(t[..|t| - 1], title, keep) + if Doomed(t[|t| - 1], title, keep) then [] else [t[|t| - 1]]
  }

  /** The table once the survivor has what it can inherit. */
  function Inherit(t: Table, title: string, keep: string): Table {
    var survivor, donor := FirstSurvivor(t, title, keep), Donor(t, title, keep);
    if survivor.Some? && !HasSource(survivor.value) && donor.Some? then SetSource(t, survivor.value.id, donor.value) else t
  }

  function MergeTitle(t: Table, title: string, keep: string): Table {
    if CountTitle(t, title) < 2 || FirstSurvivor(t, title, keep).None? then t
    else DeleteDoomed(Inherit(t, title, keep), title, keep)
  }

  datatype Keep = Keep(title: string, kind: string)

  function MergeAll(t: Table, keeps: seq<Keep>): Table {
    if keeps == [] then t else MergeTitle(MergeAll(t, keeps[..|keeps| - 1]), keeps[|keeps| - 1].title, keeps[|keeps| - 1].kind)
  }

  // ---- the migration -----------------------------------------------------------------------

  class OpportunityTable {
    var rows: Table

    method Upgrade(keeps: seq<Keep>)
      modifies this
      ensures rows == MergeAll(old(rows), keeps)
    {
      for i := 0 to |keeps|
        invariant rows == MergeAll(old(rows), keeps[..i])
      {
        assert keeps[..i + 1][..i] == keeps[..i];
        var count, survivor, donor := Survey(rows, keeps[i].title, keeps[i].kind);
        if count < 2 || survivor.None? { continue; }
        if !HasSource(survivor.value) && donor.Some? {
          rows := SetSource(rows, survivor.value.id, donor.value);
        }
        rows := Delete(rows, keeps[i].title, keeps[i].kind);
      }
      assert keeps[..|keeps|] == keeps;
    }
  }

  /** The SELECT and the comprehensions over its rows. */
  method Survey(t: Table, title: string, keep: string) returns (count: nat, survivor: Option<Opportunity>, donor: Option<string>)
    ensures count == CountTitle(t, title)
    ensures survivor == FirstSurvivor(t, title, keep) && donor == Donor(t, title, keep)
  {
    count, survivor, donor := 0, None, None;
    for i := 0 to |t|
      invariant count == CountTitle(t[..i], title)
      invariant survivor == FirstSurvivor(t[..i], title, keep) && donor == Donor(t[..i], title, keep)
    {
      assert t[..i + 1][..i] == t[..i];
      var r := t[i];
      if OfTitle(r, title) { count := count + 1; }
      if survivor.None? && Survives(r, title, keep) { survivor := Some(r); }
      if donor.None? && Loses(r, title, keep) && HasSource(r) { donor := r.source; }
    }
    assert t[..|t|] == t;
  }

  method Delete(t: Table, title: string, keep: string) returns (u: Table)
    ensures u == DeleteDoomed(t, title, keep)
  {
    u := [];
    for i := 0 to |t|
      invariant u == DeleteDoomed(t[..i], title, keep)
    {
      assert t[..i + 1][..i] == t[..i];
      if !Doomed(t[i], title, keep) { u := u + [t[i]]; }
    }
    assert t[..|t|] == t;
  }

  // ---- what one merge does --------------------------------------------------------------------

  lemma {:induction false} FirstSurvivorIs(t: Table, title: string, keep: string)
    ensures FirstSurvivor(t, title, keep).Some? ==>
            FirstSurvivor(t, title, keep).value in t && Survives(FirstSurvivor(t, title, keep).value, title, keep)
    ensures FirstSurvivor(t, title, keep).None? ==> forall r :: r in t ==> !Survives(r, title, keep)
  {
    if t != [] {
      var n := |t| - 1;
      assert t == t[..n] + [t[n]];
      FirstSurvivorIs(t[..n], title, keep);
    }
  }

  lemma {:induction false} DonorIs(t: Table, title: string, keep: string)
    ensures Donor(t, title, keep).Some? ==>
            Donor(t, title, keep).value != "" && exists r :: r in t && Loses(r, title, keep) && r.source == Donor(t, title, keep)
    ensures Donor(t, title, keep).None? ==> forall r :: r in t && Loses(r, title, keep) ==> !HasSource(r)
  {
    if t != [] {
      var n := |t| - 1;
      assert t == t[..n] + [t[n]];
      DonorIs(t[..n], title, keep);
    }
  }

  lemma {:induction false} DeletedAre(t: Table, title: string, keep: string)
    ensures forall r :: r in DeleteDoomed(t, title, keep) <==> r in t && !Doomed(r, title, keep)
  {
    if t != [] {
      var n := |t| - 1;
      assert t == t[..n] + [t[n]];
      DeletedAre(t[..n], title, keep);
    }
  }

  /** Once a title has several rows, those with another type all go; rows without a
      type, and every row of the kept type, stay. */
  ghost predicate Settled(t: Table, title: string, keep: string) {
    (exists r :: r in t && Survives(r, title, keep)) ==> forall r :: r in t && OfTitle(r, title) ==> r.kind.None? || r.kind == Some(keep)
  }

  lemma {:induction false} SingleRow(t: Table, title: string, r: Opportunity, x: Opportunity)
    requires CountTitle(t, title) < 2 && r in t && x in t && OfTitle(r, title) && OfTitle(x, title)
    ensures r == x
  {
    if t != [] {
      var n := |t| - 1;
      assert t == t[..n] + [t[n]];
      if OfTitle(t[n], title) {
        NoRow(t[..n], title);
      } else {
        SingleRow(t[..n], title, r, x);
      }
    }
  }

  lemma {:induction false} NoRow(t: Table, title: string)
    requires CountTitle(t, title) == 0
    ensures forall r :: r in t ==> !OfTitle(r, title)
  {
    if t != [] {
      var n := |t| - 1;
      assert t == t[..n] + [t[n]];
      NoRow(t[..n], title);
    }
  }

  lemma {:induction false} MergeSettles(t: Table, title: string, keep: string)
    ensures Settled(MergeTitle(t, title, keep), title, keep)
  {
    hide CountTitle, FirstSurvivor, Inherit, DeleteDoomed;
    FirstSurvivorIs(t, title, keep);
    if CountTitle(t, title) < 2 {
      forall r, x | r in t && x in t && OfTitle(r, title) && OfTitle(x, title) ensures r == x { SingleRow(t, title, r, x); }
    } else if FirstSurvivor(t, title, keep).Some? {
      DeletedAre(Inherit(t, title, keep), title, keep);
    }
  }

  /** The rows before and after inheriting differ in the survivor's source at most. */
  lemma {:induction false} InheritRows(t: Table, title: string, keep: string)
    ensures var u := Inherit(t, title, keep);
            && |u| == |t|
            && (forall i :: 0 <= i < |t| ==> u[i].id == t[i].id && u[i].title == t[i].title && u[i].kind == t[i].kind)
            && (forall i :: 0 <= i < |t| && u[i] != t[i] ==>
                  FirstSurvivor(t, title, keep).Some? && t[i].id == FirstSurvivor(t, title, keep).value.id && HasSource(u[i]))
  {
    hide FirstSurvivor, Donor;
    DonorIs(t, title, keep);
  }

  ghost predicate Sourced(t: Table, title: string) { exists r :: r in t && OfTitle(r, title) && HasSource(r) }

  /** A title that had a source before the merge has one after it. */
  lemma {:induction false} SourceKept(t: Table, title: string, keep: string)
    requires Sourced(t, title)
    ensures Sourced(MergeTitle(t, title, keep), title)
  {
    hide CountTitle, FirstSurvivor, Donor, DeleteDoomed, Inherit;
    if CountTitle(t, title) >= 2 && FirstSurvivor(t, title, keep).Some? {
      var u, i := InheritSource(t, title, keep);
      DeletedAre(u, title, keep);
      assert u[i] in u;
    }
  }

  lemma {:induction false} InheritSource(t: Table, title: string, keep: string) returns (u: Table, i: nat)
    requires Sourced(t, title) && FirstSurvivor(t, title, keep).Some?
    ensures u == Inherit(t, title, keep) && i < |u| && OfTitle(u[i], title) && HasSource(u[i]) && !Doomed(u[i], title, keep)
  {
    hide FirstSurvivor, Donor;
    u := Inherit(t, title, keep);
    FirstSurvivorIs(t, title, keep);
    DonorIs(t, title, keep);
    var survivor := FirstSurvivor(t, title, keep).value;
    var k :| 0 <= k < |t| && t[k] == survivor;
    i := k;
    if !HasSource(survivor) && Donor(t, title, keep).None? {
      var r :| r in t && OfTitle(r, title) && HasSource(r);
      i :| 0 <= i < |t| && t[i] == r;
    }
  }

  function Elsewhere(t: Table, title: string): Table {
    if t == [] then [] else Elsewhere(t[..|t| - 1], title) + if OfTitle(t[|t| - 1], title) then [] else [t[|t| - 1]]
  }

  ghost predicate DistinctIds(t: Table) { forall i, j :: 0 <= i < j < |t| ==> t[i].id != t[j].id }

  lemma {:induction false} DeleteElsewhere(t: Table, title: string, keep: string)
    ensures Elsewhere(DeleteDoomed(t, title, keep), title) == Elsewhere(t, title)
  {
    if t != [] {
      var n := |t| - 1;
      DeleteElsewhere(t[..n], title, keep);
      var front := DeleteDoomed(t[..n], title, keep);
      if !Doomed(t[n], title, keep) {
        assert (front + [t[n]])[..|front|] == front;
      } else {
        assert front + [] == front;
      }
    }
  }

  lemma {:induction false} SameElsewhere(t: Table, u: Table, title: string)
    requires |u| == |t| && forall i :: 0 <= i < |t| ==> u[i].title == t[i].title && (u[i] == t[i] || OfTitle(t[i], title))
    ensures Elsewhere(u, title) == Elsewhere(t, title)
  {
    if t != [] { SameElsewhere(t[..|t| - 1], u[..|t| - 1], title); }
  }

  /** Rows of other titles are untouched and keep their order. */
  lemma {:induction false} OtherTitlesUntouched(t: Table, title: string, keep: string)
    requires DistinctIds(t)
    ensures Elsewhere(MergeTitle(t, title, keep), title) == Elsewhere(t, title)
  {
    hide CountTitle, FirstSurvivor, DeleteDoomed, Elsewhere, Inherit;
    if CountTitle(t, title) >= 2 && FirstSurvivor(t, title, keep).Some? {
      var u := Inherit(t, title, keep);
      InheritRows(t, title, keep);
      FirstSurvivorIs(t, title, keep);
      forall i | 0 <= i < |t| ensures u[i] == t[i] || OfTitle(t[i], title) {
        if u[i] != t[i] {
          var k :| 0 <= k < |t| && t[k] == FirstSurvivor(t, title, keep).value;
          assert k == i;
        }
      }
      SameElsewhere(t, u, title);
      DeleteElsewhere(u, title, keep);
    }
  }

  /** No row of the kept type, and none without a type, is deleted. */
  lemma {:induction false} KeptRowsStay(t: Table, title: string, keep: string, i: nat)
    requires i < |t| && !Doomed(t[i], title, keep)
    ensures exists r :: r in MergeTitle(t, title, keep) && r.id == t[i].id && r.title == t[i].title && r.kind == t[i].kind
  {
    hide CountTitle, FirstSurvivor, DeleteDoomed, Inherit;
    if CountTitle(t, title) < 2 || FirstSurvivor(t, title, keep).None? {
      assert t[i] in t;
    } else {
      var u := Inherit(t, title, keep);
      InheritRows(t, title, keep);
      DeletedAre(u, title, keep);
      assert u[i] in u;
    }
  }

  // ---- how many rows remain --------------------------------------------------------------------

  /** The rows of a title the DELETE does not select. */
  function CountStaying(t: Table, title: string, keep: string): nat {
    if t == [] then 0
    else
      CountStaying(t[..|t| - 1], title, keep) +
      if OfTitle(t[|t| - 1], title) && !Doomed(t[|t| - 1], title, keep) then 1 else 0
  }

  function CountKept(t: Table, title: string, keep: string): nat {
    if t == [] then 0 else CountKept(t[..|t| - 1], title, keep) + if Survives(t[|t| - 1], title, keep) then 1 else 0
  }

  function CountUntyped(t: Table, title: string): nat {
    if t == [] then 0 else CountUntyped(t[..|t| - 1], title) + if OfTitle(t[|t| - 1], title) && t[|t| - 1].kind.None? then 1 else 0
  }

  lemma {:induction false} StayingAre(t: Table, title: string, keep: string)
    ensures CountStaying(t, title, keep) == CountKept(t, title, keep) + CountUntyped(t, title)
  {
    if t != [] { StayingAre(t[..|t| - 1], title, keep); }
  }

  lemma {:induction false} DeletedCount(t: Table, title: string, keep: string)
    ensures CountTitle(DeleteDoomed(t, title, keep), title) == CountStaying(t, title, keep)
  {
    if t != [] {
      var n := |t| - 1;
      DeletedCount(t[..n], title, keep);
      TitleSnoc(DeleteDoomed(t[..n], title, keep), t[n], title);
      assert DeleteDoomed(t[..n], title, keep) + [] == DeleteDoomed(t[..n], title, keep);
    }
  }

  lemma {:induction false} TitleSnoc(t: Table, r: Opportunity, title: string)
    ensures CountTitle(t + [r], title) == CountTitle(t, title) + if OfTitle(r, title) then 1 else 0
  {
    assert (t + [r])[..|t|] == t;
  }

  lemma {:induction false} SameCounts(t: Table, u: Table, title: string, keep: string)
    requires |u| == |t| && forall i :: 0 <= i < |t| ==> u[i].title == t[i].title && u[i].kind == t[i].kind
    ensures CountStaying(u, title, keep) == CountStaying(t, title, keep)
  {
    if t != [] { SameCounts(t[..|t| - 1], u[..|t| - 1], title, keep); }
  }

  lemma {:induction false} SurvivorCounted(t: Table, title: string, keep: string)
    ensures FirstSurvivor(t, title, keep).Some? <==> CountKept(t, title, keep) > 0
  {
    if t != [] { SurvivorCounted(t[..|t| - 1], title, keep); }
  }

  /** A merge of several rows leaves the rows of the kept type and those without a
      type: a single row exactly when one row had the kept type and none lacked one. */
  lemma {:induction false} OneRowLeftIff(t: Table, title: string, keep: string)
    requires CountTitle(t, title) >= 2 && FirstSurvivor(t, title, keep).Some?
    ensures CountTitle(MergeTitle(t, title, keep), title) == CountKept(t, title, keep) + CountUntyped(t, title)
    ensures CountTitle(MergeTitle(t, title, keep), title) == 1 <==> CountKept(t, title, keep) == 1 && CountUntyped(t, title) == 0
  {
    hide CountTitle, FirstSurvivor, CountKept, CountUntyped, CountStaying, DeleteDoomed, Inherit;
    InheritRows(t, title, keep);
    DeletedCount(Inherit(t, title, keep), title, keep);
    SameCounts(t, Inherit(t, title, keep), title, keep);
    StayingAre(t, title, keep);
    SurvivorCounted(t, title, keep);
  }

  // ---- the whole migration ----------------------------------------------------------------------

  lemma {:induction false} DistinctAfter(t: Table, title: string, keep: string)
    requires DistinctIds(t)
    ensures DistinctIds(MergeTitle(t, title, keep))
  {
    hide CountTitle, FirstSurvivor, Inherit;
    InheritRows(t, title, keep);
    DistinctDeleted(Inherit(t, title, keep), title, keep);
  }

  lemma {:induction false} DistinctDeleted(t: Table, title: string, keep: string)
    requires DistinctIds(t)
    ensures DistinctIds(DeleteDoomed(t, title, keep))
  {
    if t != [] {
      var n := |t| - 1;
      DistinctDeleted(t[..n], title, keep);
      DeletedAre(t[..n], title, keep);
      var front := DeleteDoomed(t[..n], title, keep);
      forall i | 0 <= i < |front| ensures front[i].id != t[n].id {
        assert front[i] in front;
        var k :| 0 <= k < n && t[..n][k] == front[i];
        assert t[k].id != t[n].id;
      }
    }
  }

  lemma {:induction false} ElsewhereAre(t: Table, title: string)
    ensures forall r :: r in Elsewhere(t, title) <==> r in t && !OfTitle(r, title)
  {
    if t != [] {
      var n := |t| - 1;
      assert t == t[..n] + [t[n]];
      ElsewhereAre(t[..n], title);
    }
  }

  /** The rows of another title, as a set, are untouched by a merge. */
  lemma {:induction false} OtherTitleRows(t: Table, title: string, keep: string, other: string)
    requires DistinctIds(t) && other != title
    ensures forall r :: OfTitle(r, other) ==> (r in MergeTitle(t, title, keep) <==> r in t)
  {
    hide MergeTitle, Elsewhere;
    OtherTitlesUntouched(t, title, keep);
    ElsewhereAre(t, title);
    ElsewhereAre(MergeTitle(t, title, keep), title);
  }

  /** After the migration no title has lost its source, and every listed title is
      settled, whatever the list. */
  lemma {:induction false} NoSourceLost(t: Table, keeps: seq<Keep>, title: string)
    requires DistinctIds(t)
    ensures DistinctIds(MergeAll(t, keeps))
    ensures Sourced(t, title) ==> Sourced(MergeAll(t, keeps), title)
  {
    hide MergeTitle, DistinctIds;
    if keeps != [] {
      var n := |keeps| - 1;
      NoSourceLost(t, keeps[..n], title);
      var u := MergeAll(t, keeps[..n]);
      DistinctAfter(u, keeps[n].title, keeps[n].kind);
      if Sourced(u, title) {
        if title == keeps[n].title {
          SourceKept(u, title, keeps[n].kind);
        } else {
          OtherTitleRows(u, keeps[n].title, keeps[n].kind, title);
        }
      }
    }
  }

  lemma {:induction false} EveryTitleSettled(t: Table, keeps: seq<Keep>, k: nat)
    requires DistinctIds(t) && k < |keeps|
    requires forall i, j :: 0 <= i < j < |keeps| ==> keeps[i].title != keeps[j].title
    ensures Settled(MergeAll(t, keeps), keeps[k].title, keeps[k].kind)
  {
    hide MergeTitle, DistinctIds;
    var n := |keeps| - 1;
    var u := MergeAll(t, keeps[..n]);
    if k == n {
      MergeSettles(u, keeps[n].title, keeps[n].kind);
    } else {
      EveryTitleSettled(t, keeps[..n], k);
      NoSourceLost(t, keeps[..n], keeps[k].title);
      OtherTitleRows(u, keeps[n].title, keeps[n].kind, keeps[k].title);
    }
  }

  /** A title none of the keeps names comes out as it went in. */
  lemma {:induction false} UnlistedUntouched(t: Table, keeps: seq<Keep>, r: Opportunity)
    requires DistinctIds(t) && forall k :: k in keeps ==> !OfTitle(r, k.title)
    ensures r in MergeAll(t, keeps) <==> r in t
  {
    hide MergeTitle, DistinctIds, Elsewhere;
    if keeps != [] {
      var n := |keeps| - 1;
      assert keeps == keeps[..n] + [keeps[n]] && keeps[n] in keeps;
      UnlistedUntouched(t, keeps[..n], r);
      NoSourceLost(t, keeps[..n], "");
      var u := MergeAll(t, keeps[..n]);
      OtherTitlesUntouched(u, keeps[n].title, keeps[n].kind);
      ElsewhereAre(u, keeps[n].title);
      ElsewhereAre(MergeTitle(u, keeps[n].title, keeps[n].kind), keeps[n].title);
    }
  }
}
