/** Upgrading through both dedup revisions and downgrading in reverse order. */
module GrantsRoundTrip {
  import opened Base
  import opened GrantsDedup
  import opened GrantsDedupProofs

  /** Both upgrades, then both downgrades. None when the first upgrade refuses. */
  function ThereAndBack(t: Table, v: Revision, s: Step, reason: string): Option<Table> {
    match UpA(t, v)
    case None => None
    case Some(u) => Some(DownA(DownB(UpB(u, s), s.reason), v, reason))
  }

  /** The reason texts the two revisions write. */
  ghost predicate Reasons(v: Revision, s: Step, reason: string) { forall a :: a in v.steps ==> a.reason == reason }

  /** The row already carries one of the texts the downgrades look for. */
  predicate Marked(r: Grant, s: Step, reason: string) { r.reason == Some(reason) || r.reason == Some(s.reason) }

  /** One of the guarded steps retires the row. */
  predicate Retired(t: Table, r: Grant, steps: seq<Step>) {
    r.lifecycle == Live && r.title.Some? && RetiredBy(t, r.title.value, steps).Some?
  }

  // ---- rows on the way up --------------------------------------------------------------

  lemma {:induction false} UpRows(t: Table, v: Revision, s: Step)
    requires Apart(v.steps + [s]) && UpA(t, v).Some?
    ensures var w := UpB(UpA(t, v).value, s);
            |w| == |t| && forall i :: 0 <= i < |t| ==> w[i] == RowAfter(t, PreparedRow(t[i], v), v.steps + [s])
  {
    hide LiveTitle, RetiredBy, Prepared, Target, NoOrphans, CorrectedTerritory;
    var u, steps := Prepared(t, v), v.steps + [s];
    assert steps[..|v.steps|] == v.steps;
    RetireAllRows(u, steps);
    PreparedRows(t, v);
    forall title ensures RetiredBy(u, title, steps) == RetiredBy(t, title, steps) { PreparedRetiredBy(t, v, title, steps); }
  }

  // ---- rows on the way down ---------------------------------------------------------------

  function UncorrectedTerritory(r: Grant, cs: seq<Correction>): Option<string> {
    if cs == [] then r.territory
    else
      var c := cs[|cs| - 1];
      var before := UncorrectedTerritory(r, cs[..|cs| - 1]);
      if r.title == Some(c.title) && before == Some(c.right) then Some(c.wrong) else before
  }

  lemma {:induction false} UncorrectedRows(t: Table, cs: seq<Correction>)
    ensures |UncorrectAll(t, cs)| == |t| && forall i :: 0 <= i < |t| ==> UncorrectAll(t, cs)[i] == t[i].(territory := UncorrectedTerritory(t[i], cs))
  {
    if cs != [] { UncorrectedRows(t, cs[..|cs| - 1]); }
  }

  lemma {:induction false} SameUncorrected(r: Grant, x: Grant, cs: seq<Correction>)
    requires x.title == r.title && x.territory == r.territory
    ensures UncorrectedTerritory(x, cs) == UncorrectedTerritory(r, cs)
  {
    if cs != [] { SameUncorrected(r, x, cs[..|cs| - 1]); }
  }

  /** What the downgrades make of a row. */
  function RowBack(w: Grant, v: Revision, s: Step, reason: string): Grant {
    RestoreRow(RestoreRow(w, s.reason), reason).(territory := UncorrectedTerritory(w, v.corrections))
  }

  lemma {:induction false} DownRows(w: Table, v: Revision, s: Step, reason: string)
    ensures var y := DownA(DownB(w, s.reason), v, reason);
            |y| == |w| && forall i :: 0 <= i < |w| ==> y[i] == RowBack(w[i], v, s, reason)
  {
    hide UncorrectedTerritory, UncorrectAll;
    var x := Restore(DownB(w, s.reason), reason);
    UncorrectedRows(x, v.corrections);
    forall i | 0 <= i < |w| ensures UncorrectAll(x, v.corrections)[i] == RowBack(w[i], v, s, reason) {
      SameUncorrected(w[i], x[i], v.corrections);
    }
  }

  /** The first revision's downgrade by itself: rows with the reason text become live
      and lose what the upgrade wrote, and a corrected territory goes back. */
  ghost predicate DowngradedRow(v: Revision, reason: string, r: Grant, x: Grant) {
    && x.id == r.id && x.title == r.title
    && (if r.reason == Some(reason) then x.lifecycle == Live && x.paid == None && x.replacement == None && x.reason == None
        else x.lifecycle == r.lifecycle && x.paid == r.paid && x.replacement == r.replacement && x.reason == r.reason)
    && ((forall c :: c in v.corrections ==> r.title != Some(c.title) || r.territory != Some(c.right)) ==> x.territory == r.territory)
    && (forall c :: v.corrections == [c] && r.title == Some(c.title) && r.territory == Some(c.right) ==> x.territory == Some(c.wrong))
  }

  lemma {:induction false} UncorrectedKept(r: Grant, cs: seq<Correction>)
    requires forall c :: c in cs ==> r.title != Some(c.title) || r.territory != Some(c.right)
    ensures UncorrectedTerritory(r, cs) == r.territory
  {
    if cs != [] {
      assert cs == cs[..|cs| - 1] + [cs[|cs| - 1]];
      UncorrectedKept(r, cs[..|cs| - 1]);
    }
  }

  lemma {:induction false} DowngradeColumns(t: Table, v: Revision, reason: string, i: nat)
    requires i < |t|
    ensures |DownA(t, v, reason)| == |t| && DowngradedRow(v, reason, t[i], DownA(t, v, reason)[i])
  {
    hide UncorrectAll;
    var u := Restore(t, reason);
    UncorrectedRows(u, v.corrections);
    SameUncorrected(t[i], u[i], v.corrections);
    if forall c :: c in v.corrections ==> t[i].title != Some(c.title) || t[i].territory != Some(c.right) { UncorrectedKept(t[i], v.corrections); }
    forall c | v.corrections == [c] && t[i].title == Some(c.title) && t[i].territory == Some(c.right)
      ensures UncorrectedTerritory(t[i], v.corrections) == Some(c.wrong)
    {
      assert [c][..0] == [];
    }
  }

  /** A row after the round trip, from the row before it. */
  ghost predicate BackFrom(t: Table, v: Revision, s: Step, reason: string, r: Grant, y: Grant) {
    && y.id == r.id && y.title == r.title
    && y.territory == UncorrectedTerritory(PreparedRow(r, v), v.corrections)
    && if Retired(t, r, v.steps + [s]) || Marked(r, s, reason)
       then y.lifecycle == Live && y.paid == None && y.replacement == None && y.reason == None
       else y.lifecycle == r.lifecycle && y.paid == r.paid && y.replacement == Target(r, v.pointers) && y.reason == r.reason
  }

  lemma {:induction false} RoundTripRows(t: Table, v: Revision, s: Step, reason: string)
    requires Apart(v.steps + [s]) && Reasons(v, s, reason) && UpA(t, v).Some?
    ensures ThereAndBack(t, v, s, reason).Some?
    ensures var y := ThereAndBack(t, v, s, reason).value;
            |y| == |t| && forall i :: 0 <= i < |t| ==> BackFrom(t, v, s, reason, t[i], y[i])
  {
    hide LiveTitle, RetiredBy, Target, CorrectedTerritory, UncorrectedTerritory, UpA, UpB, DownA, DownB;
    var w, steps := UpB(UpA(t, v).value, s), v.steps + [s];
    UpRows(t, v, s);
    DownRows(w, v, s, reason);
    forall i | 0 <= i < |t| ensures BackFrom(t, v, s, reason, t[i], RowBack(w[i], v, s, reason)) {
      SameUncorrected(w[i], PreparedRow(t[i], v), v.corrections);
      if t[i].title.Some? { RetiredByIs(t, t[i].title.value, steps); }
    }
  }

  // ---- what comes back ------------------------------------------------------------------------

  /** Every lifecycle comes back exactly when each row that already carried one of
      the reason texts was live. */
  lemma {:induction false} LifecycleRestoredIff(t: Table, v: Revision, s: Step, reason: string)
    requires Apart(v.steps + [s]) && Reasons(v, s, reason) && UpA(t, v).Some?
    ensures ThereAndBack(t, v, s, reason).Some?
    ensures var y := ThereAndBack(t, v, s, reason).value;
            && |y| == |t|
            && ((forall i :: 0 <= i < |t| ==> y[i].lifecycle == t[i].lifecycle) <==>
                (forall i :: 0 <= i < |t| && Marked(t[i], s, reason) ==> t[i].lifecycle == Live))
  {
    hide ThereAndBack, RetiredBy, Target, UncorrectedTerritory, PreparedRow, Apart;
    RoundTripRows(t, v, s, reason);
    var y := ThereAndBack(t, v, s, reason).value;
    forall i | 0 <= i < |t| ensures y[i].lifecycle == t[i].lifecycle <==> (Marked(t[i], s, reason) ==> t[i].lifecycle == Live) {
      assert BackFrom(t, v, s, reason, t[i], y[i]);
    }
  }

  ghost predicate OnePerTitle(cs: seq<Correction>) {
    && (forall c :: c in cs ==> c.wrong != c.right)
    && (forall i, j :: 0 <= i < j < |cs| ==> cs[i].title != cs[j].title)
  }

  /** The row of a corrected title already has the corrected territory. */
  predicate AlreadyRight(r: Grant, c: Correction) { r.title == Some(c.title) && r.territory == Some(c.right) }

  lemma {:induction false} UncorrectedElsewhere(r: Grant, cs: seq<Correction>)
    requires forall c :: c in cs ==> r.title != Some(c.title)
    ensures CorrectedTerritory(r, cs) == r.territory && UncorrectedTerritory(r, cs) == r.territory
  {
    if cs != [] {
      var n := |cs| - 1;
      assert cs == cs[..n] + [cs[n]];
      UncorrectedElsewhere(r, cs[..n]);
    }
  }

  lemma {:induction false} TerritoryBack(r: Grant, cs: seq<Correction>)
    requires OnePerTitle(cs)
    ensures UncorrectedTerritory(r.(territory := CorrectedTerritory(r, cs)), cs) == r.territory <==> forall c :: c in cs ==> !AlreadyRight(r, c)
  {
    if cs != [] {
      var n := |cs| - 1;
      var front, c := cs[..n], cs[n];
      assert cs == front + [c];
      var x := r.(territory := CorrectedTerritory(r, cs));
      if r.title == Some(c.title) {
        forall d | d in front ensures d.title != c.title {
          var i :| 0 <= i < n && front[i] == d;
          assert cs[i].title != cs[n].title;
        }
        UncorrectedElsewhere(r, front);
        UncorrectedElsewhere(x, front);
        assert c in cs && forall d :: d in cs ==> d in front || d == c;
        assert UncorrectedTerritory(x, cs) == if x.territory == Some(c.right) then Some(c.wrong) else x.territory;
      } else {
        TerritoryBack(r, front);
      }
    }
  }

  /** Every territory comes back exactly when no row of a corrected title had the
      corrected territory beforehand. */
  lemma {:induction false} TerritoryRestoredIff(t: Table, v: Revision, s: Step, reason: string)
    requires Apart(v.steps + [s]) && Reasons(v, s, reason) && UpA(t, v).Some? && OnePerTitle(v.corrections)
    ensures ThereAndBack(t, v, s, reason).Some?
    ensures var y := ThereAndBack(t, v, s, reason).value;
            && |y| == |t|
            && ((forall i :: 0 <= i < |t| ==> y[i].territory == t[i].territory) <==>
                (forall i, c :: 0 <= i < |t| && c in v.corrections ==> !AlreadyRight(t[i], c)))
  {
    hide ThereAndBack, RetiredBy, Target, UncorrectedTerritory, CorrectedTerritory, AlreadyRight, Apart, OnePerTitle;
    RoundTripRows(t, v, s, reason);
    var y := ThereAndBack(t, v, s, reason).value;
    forall i | 0 <= i < |t|
      ensures y[i].territory == t[i].territory <==> forall c :: c in v.corrections ==> !AlreadyRight(t[i], c)
    {
      assert BackFrom(t, v, s, reason, t[i], y[i]);
      TerritoryBack(t[i], v.corrections);
      SameUncorrected(PreparedRow(t[i], v), t[i].(territory := CorrectedTerritory(t[i], v.corrections)), v.corrections);
    }
  }

  /** The row comes back whole. */
  ghost predicate Restorable(t: Table, v: Revision, s: Step, reason: string, r: Grant) {
    && (forall c :: c in v.corrections ==> !AlreadyRight(r, c))
    && if Retired(t, r, v.steps + [s]) || Marked(r, s, reason)
       then r.lifecycle == Live && r.paid == None && r.replacement == None && r.reason == None
       else Target(r, v.pointers) == r.replacement
  }

  /** The downgrade restores every row exactly when nothing it clears was set: no
      retired row had an eligibility, a successor or a reason, no row carried a
      reason text, and no pointer was really repaired. */
  lemma {:induction false} TableRestoredIff(t: Table, v: Revision, s: Step, reason: string)
    requires Apart(v.steps + [s]) && Reasons(v, s, reason) && UpA(t, v).Some? && OnePerTitle(v.corrections)
    ensures ThereAndBack(t, v, s, reason) == Some(t) <==> forall i :: 0 <= i < |t| ==> Restorable(t, v, s, reason, t[i])
  {
    hide UpA, UpB, DownA, DownB, Retired, Target, UncorrectedTerritory, CorrectedTerritory, AlreadyRight, Apart, OnePerTitle, Marked;
    RoundTripRows(t, v, s, reason);
    var y := ThereAndBack(t, v, s, reason).value;
    forall i | 0 <= i < |t| ensures y[i] == t[i] <==> Restorable(t, v, s, reason, t[i]) {
      assert BackFrom(t, v, s, reason, t[i], y[i]);
      TerritoryBack(t[i], v.corrections);
      SameUncorrected(PreparedRow(t[i], v), t[i].(territory := CorrectedTerritory(t[i], v.corrections)), v.corrections);
    }
    assert y == t <==> forall i :: 0 <= i < |t| ==> y[i] == t[i];
  }

  /** So the promise that a downgrade restores every row fails as soon as a retired
      row said whether it was eligible for paid matching. */
  lemma {:induction false} EligibilityIsLost(t: Table, v: Revision, s: Step, reason: string, i: nat)
    requires Apart(v.steps + [s]) && Reasons(v, s, reason) && UpA(t, v).Some? && OnePerTitle(v.corrections)
    requires i < |t| && Retired(t, t[i], v.steps + [s]) && t[i].paid.Some?
    ensures ThereAndBack(t, v, s, reason) != Some(t)
  {
    hide ThereAndBack, Retired, Target, AlreadyRight, Apart, OnePerTitle, Marked, UpA;
    TableRestoredIff(t, v, s, reason);
    assert !Restorable(t, v, s, reason, t[i]);
  }

  // ---- the two revisions as written ------------------------------------------------------------

  lemma {:induction false} RealRevisions()
    ensures Apart(REVISION_A.steps + [STEP_B]) && Reasons(REVISION_A, STEP_B, REASON_A) && OnePerTitle(REVISION_A.corrections)
  {
    hide Apart, Reasons, OnePerTitle;
    RealStepsApart();
    RealReasons();
    RealCorrections();
  }

  lemma {:induction false} RealReasons()
    ensures Reasons(REVISION_A, STEP_B, REASON_A)
  {
  }

  lemma {:induction false} RealCorrections()
    ensures OnePerTitle(REVISION_A.corrections)
  {
  }

  /** The two revisions themselves: every lifecycle and territory comes back exactly
      when no row that carried one of their reason texts was held, and the Eurimages
      record was not corrected already. */
  lemma {:induction false} RealRoundTrip(t: Table)
    requires UpA(t, REVISION_A).Some?
    ensures ThereAndBack(t, REVISION_A, STEP_B, REASON_A).Some?
    ensures var y := ThereAndBack(t, REVISION_A, STEP_B, REASON_A).value;
            && |y| == |t|
            && ((forall i :: 0 <= i < |t| ==> y[i].lifecycle == t[i].lifecycle) <==>
                (forall i :: 0 <= i < |t| && Marked(t[i], STEP_B, REASON_A) ==> t[i].lifecycle == Live))
            && ((forall i :: 0 <= i < |t| ==> y[i].territory == t[i].territory) <==>
                (forall i, c :: 0 <= i < |t| && c in REVISION_A.corrections ==> !AlreadyRight(t[i], c)))
  {
    hide Apart, Reasons, OnePerTitle, ThereAndBack, UpA, Marked, AlreadyRight;
    RealRevisions();
    LifecycleRestoredIff(t, REVISION_A, STEP_B, REASON_A);
    TerritoryRestoredIff(t, REVISION_A, STEP_B, REASON_A);
  }

  /** The whole table comes back exactly when no retired row said whether it is
      eligible or why it is held, no row carried one of the reason texts, the one
      pointer needed no repair and Eurimages was not corrected already. */
  lemma {:induction false} RealTableRestored(t: Table)
    requires UpA(t, REVISION_A).Some?
    ensures ThereAndBack(t, REVISION_A, STEP_B, REASON_A) == Some(t) <==>
            forall i :: 0 <= i < |t| ==> Restorable(t, REVISION_A, STEP_B, REASON_A, t[i])
  {
    hide Apart, Reasons, OnePerTitle, ThereAndBack, UpA, Restorable;
    RealRevisions();
    TableRestoredIff(t, REVISION_A, STEP_B, REASON_A);
  }

  /** The Netherlands pair, both live and both marked eligible. */
  const NETHERLANDS: Table := [
    Grant(1, Some("Netherlands Film Fund + HBF — Minority Co-productions"), None, Live, Some(true), None, None),
    Grant(2, Some("Netherlands Film Fund + HBF — Minority Co-production"), None, Live, Some(true), None, None)]

  /** On it the two revisions go through, and the downgrades do not bring it back. */
  lemma {:induction false} DowngradeLosesEligibility()
    ensures ThereAndBack(NETHERLANDS, REVISION_A, STEP_B, REASON_A).Some?
    ensures ThereAndBack(NETHERLANDS, REVISION_A, STEP_B, REASON_A) != Some(NETHERLANDS)
  {
    hide Apart, Reasons, OnePerTitle, ThereAndBack, UpA, RetiredBy, REVISION_A, REASON_A;
    var t, steps := NETHERLANDS, REVISION_A.steps + [STEP_B];
    RealRevisions();
    NoneHeld();
    LiveSurvivor();
    assert steps[|REVISION_A.steps|] == STEP_B && STEP_B in steps;
    RetiredByIs(t, STEP_B.drop, steps);
    assert Retired(t, t[0], steps);
    EligibilityIsLost(t, REVISION_A, STEP_B, REASON_A, 0);
    RealRoundTrip(t);
  }

  lemma {:induction false} NoneHeld()
    ensures UpA(NETHERLANDS, REVISION_A).Some?
  {
    hide Apart, UpA, REVISION_A, TargetStays;
    ApartFront(REVISION_A.steps, STEP_B);
    UpgradeSucceedsIff(NETHERLANDS, REVISION_A);
  }

  lemma {:induction false} ApartFront(steps: seq<Step>, s: Step)
    ensures Apart(steps + [s]) ==> Apart(steps)
    ensures steps == REVISION_A.steps && s == STEP_B ==> Apart(steps)
  {
    hide REVISION_A;
    if Apart(steps + [s]) {
      forall a | a in steps ensures a in steps + [s] { }
    }
    RealStepsApart();
    forall a | a in REVISION_A.steps ensures a in REVISION_A.steps + [STEP_B] { }
  }

  lemma {:induction false} LiveSurvivor()
    ensures LiveTitle(NETHERLANDS, STEP_B.keep) && NETHERLANDS[0].title == Some(STEP_B.drop)
  {
    assert NETHERLANDS[1] in NETHERLANDS;
  }
}
