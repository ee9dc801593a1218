/** The duplicate merge row by row: which rows stay, in which order, and where each
    one's source comes from. */
module GrantsMergeRows {
  import opened Base
  import opened GrantsMerge

  // ---- the rows a merge is about --------------------------------------------------------------

  ghost predicate Named(r: Opportunity, title: string) { r.title.Some? && r.title.value == title }

  /** A source that is neither NULL nor empty. */
  ghost predicate HasOwn(r: Opportunity) { r.source.Some? && r.source.value != "" }

  /** The title has two rows or more. */
  ghost predicate Several(t: Table, title: string) { exists i, j :: 0 <= i < j < |t| && Named(t[i], title) && Named(t[j], title) }

  /** Row `i` is the first of the kept type. */
  ghost predicate FirstKept(t: Table, title: string, keep: string, i: nat) {
    && i < |t| && Named(t[i], title) && t[i].kind == Some(keep)
    && forall j :: 0 <= j < i && Named(t[j], title) ==> t[j].kind != Some(keep)
  }

  /** Row `i` is the first with another type, or none, that has a source. */
  ghost predicate FirstDonor(t: Table, title: string, keep: string, i: nat) {
    && i < |t| && Named(t[i], title) && t[i].kind != Some(keep) && HasOwn(t[i])
    && forall j :: 0 <= j < i && Named(t[j], title) && t[j].kind != Some(keep) ==> !HasOwn(t[j])
  }

  /** There is something to merge and a row to keep. */
  ghost predicate Merges(t: Table, title: string, keep: string) { Several(t, title) && exists i: nat :: FirstKept(t, title, keep, i) }

  /** The merge takes the row out. */
  ghost predicate Dropped(r: Opportunity, title: string, keep: string) { Named(r, title) && r.kind.Some? && r.kind.value != keep }

  /** The source row `i` ends up with: its own where it has one, or is not the first of
      the kept type; the donor's where there is one. */
  ghost predicate SourceAfter(t: Table, title: string, keep: string, i: nat, source: Option<string>)
    requires i < |t|
  {
    if FirstKept(t, title, keep, i) && !HasOwn(t[i])
    then (forall j: nat :: FirstDonor(t, title, keep, j) ==> source == t[j].source)
         && ((forall j: nat :: !FirstDonor(t, title, keep, j)) ==> source == t[i].source)
    else source == t[i].source
  }

  // ---- the survey, by place -------------------------------------------------------------------

  lemma {:induction false} SurvivorAt(t: Table, title: string, keep: string, i: nat)
    requires FirstKept(t, title, keep, i)
    ensures FirstSurvivor(t, title, keep) == Some(t[i])
  {
    var n := |t| - 1;
    if i < n {
      SurvivorAt(t[..n], title, keep, i);
    } else {
      FirstSurvivorIs(t[..n], title, keep);
    }
  }

  lemma {:induction false} SomeKept(t: Table, title: string, keep: string) returns (i: nat)
    requires FirstSurvivor(t, title, keep).Some?
    ensures FirstKept(t, title, keep, i)
  {
    var n := |t| - 1;
    if FirstSurvivor(t[..n], title, keep).Some? {
      i := SomeKept(t[..n], title, keep);
    } else {
      FirstSurvivorIs(t[..n], title, keep);
      assert forall j :: 0 <= j < n ==> t[..n][j] == t[j] && t[j] in t[..n];
      i := n;
    }
  }

  lemma {:induction false} DonorAt(t: Table, title: string, keep: string, i: nat)
    requires FirstDonor(t, title, keep, i)
    ensures Donor(t, title, keep) == t[i].source
  {
    var n := |t| - 1;
    if i < n {
      DonorAt(t[..n], title, keep, i);
    } else {
      DonorIs(t[..n], title, keep);
    }
  }

  lemma {:induction false} SomeDonor(t: Table, title: string, keep: string) returns (i: nat)
    requires Donor(t, title, keep).Some?
    ensures FirstDonor(t, title, keep, i)
  {
    var n := |t| - 1;
    if Donor(t[..n], title, keep).Some? {
      i := SomeDonor(t[..n], title, keep);
    } else {
      DonorIs(t[..n], title, keep);
      assert forall j :: 0 <= j < n ==> t[..n][j] == t[j] && t[j] in t[..n];
      i := n;
    }
  }

  lemma {:induction false} CountOne(t: Table, title: string)
    ensures CountTitle(t, title) >= 1 <==> exists i :: 0 <= i < |t| && Named(t[i], title)
  {
    if t != [] {
      var n := |t| - 1;
      CountOne(t[..n], title);
      if i :| 0 <= i < n && Named(t[..n][i], title) { assert Named(t[i], title); }
      if i :| 0 <= i < |t| && Named(t[i], title) { if i < n { assert Named(t[..n][i], title); } }
    }
  }

  lemma {:induction false} SeveralIs(t: Table, title: string)
    ensures CountTitle(t, title) >= 2 <==> Several(t, title)
  {
    if t != [] {
      var n := |t| - 1;
      SeveralIs(t[..n], title);
      CountOne(t[..n], title);
      assert forall i :: 0 <= i < n ==> t[..n][i] == t[i];
      if CountTitle(t, title) >= 2 && CountTitle(t[..n], title) < 2 {
        var i :| 0 <= i < n && Named(t[..n][i], title);
        assert Named(t[i], title) && Named(t[n], title);
      }
      if i, j :| 0 <= i < j < |t| && Named(t[i], title) && Named(t[j], title) {
        if j < n { assert Named(t[..n][i], title) && Named(t[..n][j], title); } else { assert Named(t[..n][i], title); }
      }
    }
  }

  // ---- the rows that stay --------------------------------------------------------------------------

  /** `u` is the rows of `t` at the places `at`, in order, which are those not dropped. */
  ghost predicate StayAt(t: Table, title: string, keep: string, at: seq<nat>, u: Table) {
    && |at| == |u|
    && (forall k :: 0 <= k < |at| ==> at[k] < |t| && u[k] == t[at[k]])
    && (forall j, k :: 0 <= j < k < |at| ==> at[j] < at[k])
    && (forall i: nat :: i < |t| ==> (i in at <==> !Dropped(t[i], title, keep)))
  }

  lemma {:induction false} DeletedPlaces(t: Table, title: string, keep: string) returns (at: seq<nat>)
    ensures StayAt(t, title, keep, at, DeleteDoomed(t, title, keep))
  {
    if t == [] {
      at := [];
    } else {
      var n := |t| - 1;
      at := DeletedPlaces(t[..n], title, keep);
      assert forall i :: 0 <= i < n ==> t[..n][i] == t[i];
      assert Doomed(t[n], title, keep) <==> Dropped(t[n], title, keep);
      if !Dropped(t[n], title, keep) {
        StaySnoc(t[..n], t[n], title, keep, at, DeleteDoomed(t[..n], title, keep));
        at := at + [n];
        assert t == t[..n] + [t[n]];
      }
    }
  }

  lemma {:induction false} StaySnoc(t: Table, r: Opportunity, title: string, keep: string, at: seq<nat>, u: Table)
    requires StayAt(t, title, keep, at, u) && !Dropped(r, title, keep)
    ensures StayAt(t + [r], title, keep, at + [|t|], u + [r])
  {
    hide Dropped;
    var rows, places := t + [r], at + [|t|];
    assert forall i :: 0 <= i < |t| ==> rows[i] == t[i];
    forall i: nat | i < |rows| ensures i in places <==> !Dropped(rows[i], title, keep) {
      if i < |t| { assert i in places <==> i in at; }
    }
  }

  /** The rows once the survivor has what it can inherit. */
  lemma {:induction false} Inherits(t: Table, title: string, keep: string, i: nat)
    requires DistinctIds(t) && FirstSurvivor(t, title, keep).Some? && i < |t|
    ensures var u := Inherit(t, title, keep);
            && |u| == |t| && u[i] == t[i].(source := u[i].source) && SourceAfter(t, title, keep, i, u[i].source)
  {
    hide FirstSurvivor, Donor;
    var s := SomeKept(t, title, keep);
    SurvivorAt(t, title, keep, s);
    if i != s { assert t[i].id != t[s].id; }
    forall j: nat | FirstDonor(t, title, keep, j) ensures Donor(t, title, keep) == t[j].source { DonorAt(t, title, keep, j); }
    if Donor(t, title, keep).Some? { var d := SomeDonor(t, title, keep); }
    if FirstKept(t, title, keep, i) { SurvivorAt(t, title, keep, i); }
  }

  /** What a merge leaves, exactly: nothing changes unless the title has several rows
      and one of the kept type. Then the rows that are not dropped stay, in order and
      unchanged but for one source: the first row of the kept type, if it has none,
      takes that of the first other row of the title that has one. */
  lemma {:induction false} MergeExactly(t: Table, title: string, keep: string) returns (at: seq<nat>)
    requires DistinctIds(t)
    ensures !Merges(t, title, keep) ==> MergeTitle(t, title, keep) == t
    ensures Merges(t, title, keep) ==>
              var u := MergeTitle(t, title, keep);
              && |at| == |u|
              && (forall j, k :: 0 <= j < k < |at| ==> at[j] < at[k])
              && (forall i: nat :: i < |t| ==> (i in at <==> !Dropped(t[i], title, keep)))
              && forall k :: 0 <= k < |at| ==>
                   at[k] < |t| && u[k] == t[at[k]].(source := u[k].source) && SourceAfter(t, title, keep, at[k], u[k].source)
  {
    hide CountTitle, FirstSurvivor, Inherit, DeleteDoomed, SourceAfter, Several, FirstKept;
    at := [];
    SeveralIs(t, title);
    if Merges(t, title, keep) {
      var i: nat :| FirstKept(t, title, keep, i);
      SurvivorAt(t, title, keep, i);
      var u := Inherit(t, title, keep);
      InheritRows(t, title, keep);
      at := DeletedPlaces(u, title, keep);
      forall i: nat | i < |t| ensures Dropped(u[i], title, keep) <==> Dropped(t[i], title, keep) { }
      forall i: nat | i < |t| ensures u[i] == t[i].(source := u[i].source) && SourceAfter(t, title, keep, i, u[i].source) {
        Inherits(t, title, keep, i);
      }
    } else if FirstSurvivor(t, title, keep).Some? {
      var i := SomeKept(t, title, keep);
    }
  }

  // ---- the whole list ---------------------------------------------------------------------------------

  /** No keep of the list drops the row. */
  ghost predicate Spared(r: Opportunity, keeps: seq<Keep>) { forall k :: k in keeps ==> !Dropped(r, k.title, k.kind) }

  lemma {:induction false} OwnSourceStaysOnce(t: Table, title: string, keep: string, r: Opportunity)
    requires DistinctIds(t) && r in t && HasOwn(r) && !Dropped(r, title, keep)
    ensures r in MergeTitle(t, title, keep)
  {
    hide MergeTitle, Dropped;
    var at := MergeExactly(t, title, keep);
    if Merges(t, title, keep) {
      var i :| 0 <= i < |t| && t[i] == r;
      assert i in at;
      var k :| 0 <= k < |at| && at[k] == i;
      assert MergeTitle(t, title, keep)[k] == r;
    }
  }

  /** Over the whole list, a row that has a source and is not dropped comes out exactly
      as it went in. */
  lemma {:induction false} OwnSourceStays(t: Table, keeps: seq<Keep>, r: Opportunity)
    requires DistinctIds(t) && r in t && HasOwn(r) && Spared(r, keeps)
    ensures r in MergeAll(t, keeps)
  {
    hide MergeTitle, DistinctIds, HasOwn, Dropped;
    if keeps != [] {
      var n := |keeps| - 1;
      assert keeps == keeps[..n] + [keeps[n]] && keeps[n] in keeps;
      OwnSourceStays(t, keeps[..n], r);
      NoSourceLost(t, keeps[..n], "");
      OwnSourceStaysOnce(MergeAll(t, keeps[..n]), keeps[n].title, keeps[n].kind, r);
    }
  }

  /** `x` is a row of `t`, unchanged or with a source it lacked and another row of its
      title had. */
  ghost predicate ComesFrom(t: Table, x: Opportunity) {
    exists r :: r in t && x.id == r.id && x.title == r.title && x.kind == r.kind
                && (x == r || (!HasOwn(r) && HasOwn(x) && exists d :: d in t && d.title == r.title && d.source == x.source))
  }

  lemma {:induction false} MergedRowComesFrom(t: Table, title: string, keep: string, x: Opportunity)
    requires DistinctIds(t) && x in MergeTitle(t, title, keep)
    ensures ComesFrom(t, x)
  {
    hide MergeTitle, Merges;
    var at := MergeExactly(t, title, keep);
    if Merges(t, title, keep) {
      var u := MergeTitle(t, title, keep);
      var k :| 0 <= k < |u| && u[k] == x;
      assert t[at[k]] in t;
      if x != t[at[k]] {
        var j: nat :| FirstDonor(t, title, keep, j);
        assert t[j] in t;
      }
    }
  }

  /** Over the whole list no row appears from nowhere, and none loses or changes a
      source it had. */
  lemma {:induction false} RowsComeFrom(t: Table, keeps: seq<Keep>, x: Opportunity)
    requires DistinctIds(t) && x in MergeAll(t, keeps)
    ensures ComesFrom(t, x)
  {
    hide MergeTitle, DistinctIds, HasOwn;
    if keeps != [] {
      var n := |keeps| - 1;
      var u := MergeAll(t, keeps[..n]);
      NoSourceLost(t, keeps[..n], "");
      MergedRowComesFrom(u, keeps[n].title, keeps[n].kind, x);
      var r :| r in u && x.id == r.id && x.title == r.title && x.kind == r.kind
               && (x == r || (!HasOwn(r) && HasOwn(x) && exists d :: d in u && d.title == r.title && d.source == x.source));
      RowsComeFrom(t, keeps[..n], r);
      if x != r {
        var d :| d in u && d.title == r.title && d.source == x.source;
        RowsComeFrom(t, keeps[..n], d);
        TracedTwice(t, r, d, x);
      }
    }
  }

  lemma {:induction false} TracedTwice(t: Table, r: Opportunity, d: Opportunity, x: Opportunity)
    requires ComesFrom(t, r) && ComesFrom(t, d) && d.title == r.title && d.source == x.source
    requires x.id == r.id && x.title == r.title && x.kind == r.kind && !HasOwn(r) && HasOwn(x)
    ensures ComesFrom(t, x)
  {
  }
}
