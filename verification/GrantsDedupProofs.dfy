/** What the dedup revisions keep, when their assertion holds, and what a
    downgrade really restores. */
module GrantsDedupProofs {
  import opened Base
  import opened GrantsDedup

  // ---- retiring in one look -------------------------------------------------------------

  /** No title is both dropped and kept. */
  ghost predicate Apart(steps: seq<Step>) { forall a, b :: a in steps && b in steps ==> a.drop != b.keep }

  /** The first step that drops a title and whose survivor is live to begin with. */
  function RetiredBy(t: Table, title: string, steps: seq<Step>): Option<Step> {
    if steps == [] then None
    else
      var n := |steps| - 1;
      var earlier := RetiredBy(t, title, steps[..n]);
      if earlier.Some? then earlier
      else if steps[n].drop == title && LiveTitle(t, steps[n].keep) then Some(steps[n]) else None
  }

  function RowAfter(t: Table, r: Grant, steps: seq<Step>): Grant {
    if r.lifecycle == Live && r.title.Some? && RetiredBy(t, r.title.value, steps).Some?
    then RetireRow(r, RetiredBy(t, r.title.value, steps).value) else r
  }

  lemma {:induction false} RetiredByIs(t: Table, title: string, steps: seq<Step>)
    ensures RetiredBy(t, title, steps).Some? ==>
            var s := RetiredBy(t, title, steps).value; s in steps && s.drop == title && LiveTitle(t, s.keep)
    ensures RetiredBy(t, title, steps).None? ==> forall s :: s in steps && s.drop == title ==> !LiveTitle(t, s.keep)
  {
    hide LiveTitle;
    if steps != [] {
      var n := |steps| - 1;
      assert steps == steps[..n] + [steps[n]];
      RetiredByIs(t, title, steps[..n]);
    }
  }

  lemma {:induction false} LiveAfter(t: Table, u: Table, steps: seq<Step>, title: string)
    requires |u| == |t| && forall i :: 0 <= i < |t| ==> u[i] == RowAfter(t, t[i], steps)
    ensures LiveTitle(u, title) <==> LiveTitle(t, title) && RetiredBy(t, title, steps).None?
  {
    hide RetiredBy;
    RetiredByIs(t, title, steps);
    if LiveTitle(u, title) {
      var r :| r in u && r.title == Some(title) && r.lifecycle == Live;
      var i :| 0 <= i < |u| && u[i] == r;
      assert t[i] in t;
    }
    if LiveTitle(t, title) && RetiredBy(t, title, steps).None? {
      var r :| r in t && r.title == Some(title) && r.lifecycle == Live;
      var i :| 0 <= i < |t| && t[i] == r;
      assert u[i] in u;
    }
  }

  /** One more step, on a row the steps before it have dealt with. */
  lemma {:induction false} RowAfterSnoc(t: Table, r: Grant, steps: seq<Step>, s: Step)
    ensures RowAfter(t, r, steps + [s]) == if LiveTitle(t, s.keep) then RetireRow(RowAfter(t, r, steps), s) else RowAfter(t, r, steps)
  {
    hide LiveTitle;
    assert (steps + [s])[..|steps|] == steps;
    if r.title.Some? { RetiredByIs(t, r.title.value, steps); }
  }

  /** Guarded steps one after another retire what one look at the first table says. */
  lemma {:induction false} RetireAllRows(t: Table, steps: seq<Step>)
    requires Apart(steps)
    ensures |RetireAll(t, steps)| == |t| && forall i :: 0 <= i < |t| ==> RetireAll(t, steps)[i] == RowAfter(t, t[i], steps)
  {
    hide LiveTitle, RowAfter, RetireRow;
    if steps == [] {
      NoSteps(t);
    } else {
      var n := |steps| - 1;
      var front, s := steps[..n], steps[n];
      assert steps == front + [s] && s in steps;
      assert forall a :: a in front ==> a in steps;
      RetireAllRows(t, front);
      LiveAfter(t, RetireAll(t, front), front, s.keep);
      RetiredByIs(t, s.keep, front);
      forall i | 0 <= i < |t| ensures RetireAll(t, steps)[i] == RowAfter(t, t[i], steps) { RowAfterSnoc(t, t[i], front, s); }
    }
  }

  lemma {:induction false} NoSteps(t: Table)
    ensures forall r :: RowAfter(t, r, []) == r
  {
  }

  // ---- no orphans ------------------------------------------------------------------------

  /** A held row's target is live and no step will retire it. */
  ghost predicate TargetStays(t: Table, target: Option<string>, steps: seq<Step>) {
    target.Some? ==> LiveTitle(t, target.value) && RetiredBy(t, target.value, steps).None?
  }

  /** The closing assertion holds after the steps exactly when, before them, every
      held row's target is live and is not itself about to be retired. */
  lemma {:induction false} NoOrphansIff(t: Table, steps: seq<Step>)
    requires Apart(steps)
    ensures NoOrphans(RetireAll(t, steps)) <==> forall r :: r in t && r.lifecycle == Held ==> TargetStays(t, r.replacement, steps)
  {
    hide LiveTitle, RetiredBy;
    var u := RetireAll(t, steps);
    RetireAllRows(t, steps);
    forall i | 0 <= i < |t|
      ensures Orphan(u, u[i]) <==> t[i].lifecycle == Held && !TargetStays(t, t[i].replacement, steps)
    {
      if t[i].lifecycle == Live && t[i].title.Some? && RetiredBy(t, t[i].title.value, steps).Some? {
        var s := RetiredBy(t, t[i].title.value, steps).value;
        RetiredByIs(t, t[i].title.value, steps);
        LiveAfter(t, u, steps, s.keep);
        RetiredByIs(t, s.keep, steps);
      } else if t[i].replacement.Some? {
        LiveAfter(t, u, steps, t[i].replacement.value);
      }
    }
    if NoOrphans(u) {
      forall r | r in t && r.lifecycle == Held ensures TargetStays(t, r.replacement, steps) {
        var i :| 0 <= i < |t| && t[i] == r;
        assert u[i] in u;
      }
    }
  }

  /** Any sequence of guarded steps keeps the no-orphan invariant, so long as no
      step drops a title another keeps or a held row points at. */
  lemma {:induction false} StepsKeepNoOrphans(t: Table, steps: seq<Step>)
    requires Apart(steps) && NoOrphans(t)
    requires forall r, s :: r in t && r.lifecycle == Held && s in steps ==> r.replacement != Some(s.drop)
    ensures NoOrphans(RetireAll(t, steps))
  {
    hide LiveTitle, RetiredBy;
    NoOrphansIff(t, steps);
    forall r | r in t && r.lifecycle == Held ensures TargetStays(t, r.replacement, steps) {
      assert !Orphan(t, r);
      if r.replacement.Some? { RetiredByIs(t, r.replacement.value, steps); }
    }
  }

  /** No fund disappears: a row that was live is live still, or held and pointing at
      a title that is. */
  lemma {:induction false} NothingLost(t: Table, steps: seq<Step>, i: nat)
    requires Apart(steps) && i < |t| && t[i].lifecycle == Live
    ensures var u := RetireAll(t, steps);
            && |u| == |t|
            && (u[i] == t[i] || (u[i].lifecycle == Held && u[i].replacement.Some? && LiveTitle(u, u[i].replacement.value)))
  {
    hide LiveTitle, RetiredBy;
    RetireAllRows(t, steps);
    if t[i].title.Some? && RetiredBy(t, t[i].title.value, steps).Some? {
      RetiredByIs(t, t[i].title.value, steps);
      var keep := RetiredBy(t, t[i].title.value, steps).value.keep;
      LiveAfter(t, RetireAll(t, steps), steps, keep);
      RetiredByIs(t, keep, steps);
    }
  }

  // ---- counting ---------------------------------------------------------------------------

  lemma {:induction false} StepCount(t: Table, s: Step, u: Table)
    requires |u| == |t| && forall i :: 0 <= i < |t| ==> u[i] == RetireRow(t[i], s)
    ensures CountLive(t) == CountLive(u) + CountSelected(t, s)
  {
    if t != [] { StepCount(t[..|t| - 1], s, u[..|t| - 1]); }
  }

  /** The live count falls by exactly the number reported as retired. */
  lemma {:induction false} LiveCountFalls(t: Table, steps: seq<Step>)
    ensures CountLive(t) == CountLive(RetireAll(t, steps)) + CountRetired(t, steps)
  {
    hide LiveTitle, CountLive, CountSelected;
    if steps != [] {
      var n := |steps| - 1;
      LiveCountFalls(t, steps[..n]);
      var u := RetireAll(t, steps[..n]);
      if LiveTitle(u, steps[n].keep) {
        StepCount(u, steps[n], Retire(u, steps[n]));
      } else {
        assert Retire(u, steps[n]) == u;
      }
    }
  }

  // ---- when the first revision goes through --------------------------------------------------

  /** Where the corrected pointers send a row. */
  function Target(r: Grant, ps: seq<Pointer>): Option<string> {
    if ps == [] then r.replacement
    else if r.title == Some(ps[|ps| - 1].title) then Some(ps[|ps| - 1].successor)
    else Target(r, ps[..|ps| - 1])
  }

  function CorrectedTerritory(r: Grant, cs: seq<Correction>): Option<string> {
    if cs == [] then r.territory
    else
      var c := cs[|cs| - 1];
      var before := CorrectedTerritory(r, cs[..|cs| - 1]);
      if r.title == Some(c.title) && before == Some(c.wrong) then Some(c.right) else before
  }

  function PreparedRow(r: Grant, v: Revision): Grant {
    r.(replacement := Target(r, v.pointers), territory := CorrectedTerritory(r, v.corrections))
  }

  lemma {:induction false} PointedRows(t: Table, ps: seq<Pointer>)
    ensures |PointAll(t, ps)| == |t| && forall i :: 0 <= i < |t| ==> PointAll(t, ps)[i] == t[i].(replacement := Target(t[i], ps))
  {
    if ps != [] { PointedRows(t, ps[..|ps| - 1]); }
  }

  lemma {:induction false} CorrectedRows(t: Table, cs: seq<Correction>)
    ensures |CorrectAll(t, cs)| == |t| && forall i :: 0 <= i < |t| ==> CorrectAll(t, cs)[i] == t[i].(territory := CorrectedTerritory(t[i], cs))
  {
    if cs != [] { CorrectedRows(t, cs[..|cs| - 1]); }
  }

  lemma {:induction false} SameTerritory(r: Grant, x: Grant, cs: seq<Correction>)
    requires x.title == r.title && x.territory == r.territory
    ensures CorrectedTerritory(x, cs) == CorrectedTerritory(r, cs)
  {
    if cs != [] { SameTerritory(r, x, cs[..|cs| - 1]); }
  }

  lemma {:induction false} PreparedRows(t: Table, v: Revision)
    ensures |Prepared(t, v)| == |t| && forall i :: 0 <= i < |t| ==> Prepared(t, v)[i] == PreparedRow(t[i], v)
  {
    hide Target, CorrectedTerritory, PointAll, CorrectAll;
    PointedRows(t, v.pointers);
    CorrectedRows(PointAll(t, v.pointers), v.corrections);
    forall i | 0 <= i < |t| ensures Prepared(t, v)[i] == PreparedRow(t[i], v) {
      SameTerritory(t[i], PointAll(t, v.pointers)[i], v.corrections);
    }
  }

  /** Pointers and territories decide nothing about which titles are live. */
  lemma {:induction false} PreparedLive(t: Table, v: Revision, title: string)
    ensures LiveTitle(Prepared(t, v), title) <==> LiveTitle(t, title)
  {
    hide Prepared;
    PreparedRows(t, v);
    var u := Prepared(t, v);
    if r :| r in u && r.title == Some(title) && r.lifecycle == Live {
      var i :| 0 <= i < |u| && u[i] == r;
      assert t[i] in t;
    }
    if r :| r in t && r.title == Some(title) && r.lifecycle == Live {
      var i :| 0 <= i < |t| && t[i] == r;
      assert u[i] in u;
    }
  }

  lemma {:induction false} PreparedRetiredBy(t: Table, v: Revision, title: string, steps: seq<Step>)
    ensures RetiredBy(Prepared(t, v), title, steps) == RetiredBy(t, title, steps)
  {
    hide Prepared, LiveTitle;
    if steps != [] {
      PreparedRetiredBy(t, v, title, steps[..|steps| - 1]);
      PreparedLive(t, v, steps[|steps| - 1].keep);
    }
  }

  /** The upgrade goes through exactly when every held row, its pointer corrected,
      names a live title that is not retired by the revision itself. */
  lemma {:induction false} UpgradeSucceedsIff(t: Table, v: Revision)
    requires Apart(v.steps)
    ensures UpA(t, v).Some? <==> forall r :: r in t && r.lifecycle == Held ==> TargetStays(t, Target(r, v.pointers), v.steps)
  {
    hide LiveTitle, RetiredBy, Prepared, Target, NoOrphans;
    var u := Prepared(t, v);
    NoOrphansIff(u, v.steps);
    PreparedRows(t, v);
    forall title ensures RetiredBy(u, title, v.steps) == RetiredBy(t, title, v.steps) { PreparedRetiredBy(t, v, title, v.steps); }
    forall title ensures LiveTitle(u, title) <==> LiveTitle(t, title) { PreparedLive(t, v, title); }
    forall i | 0 <= i < |t| ensures TargetStays(u, u[i].replacement, v.steps) <==> TargetStays(t, Target(t[i], v.pointers), v.steps) { }
    if forall r :: r in u && r.lifecycle == Held ==> TargetStays(u, r.replacement, v.steps) {
      forall r | r in t && r.lifecycle == Held ensures TargetStays(t, Target(r, v.pointers), v.steps) {
        var i :| 0 <= i < |t| && t[i] == r;
        assert u[i] in u;
      }
    }
  }

  // ---- the upgraded table, column by column ---------------------------------------------------

  /** Some row of the title is live. */
  ghost predicate Stands(t: Table, title: string) { exists j :: 0 <= j < |t| && t[j].title == Some(title) && t[j].lifecycle == Live }

  /** Step `k` is the first that drops the row in favour of a title that is live. */
  ghost predicate RetiringStep(t: Table, r: Grant, steps: seq<Step>, k: nat) {
    && k < |steps| && r.lifecycle == Live && r.title == Some(steps[k].drop) && Stands(t, steps[k].keep)
    && forall j :: 0 <= j < k && r.title == Some(steps[j].drop) ==> !Stands(t, steps[j].keep)
  }

  /** Pointer `k` is the last one for the row's title. */
  ghost predicate LastPointer(r: Grant, ps: seq<Pointer>, k: nat) {
    k < |ps| && r.title == Some(ps[k].title) && forall j :: k < j < |ps| ==> r.title != Some(ps[j].title)
  }

  ghost predicate Unpointed(r: Grant, ps: seq<Pointer>) { forall k :: 0 <= k < |ps| ==> r.title != Some(ps[k].title) }

  /** Where the row's replacement points: where the last pointer for its title says, or
      where it pointed. */
  ghost predicate PointsTo(r: Grant, ps: seq<Pointer>, target: Option<string>) {
    && (forall k: nat :: LastPointer(r, ps, k) ==> target == Some(ps[k].successor))
    && (Unpointed(r, ps) ==> target == r.replacement)
  }

  /** A retired row is held, not eligible, and carries its step's survivor and reason;
      every other row keeps all three and is only pointed. No row is lost or moved. */
  ghost predicate UpgradedRow(t: Table, v: Revision, r: Grant, x: Grant) {
    && x.id == r.id && x.title == r.title
    && (forall k: nat :: RetiringStep(t, r, v.steps, k) ==>
          x.lifecycle == Held && x.paid == Some(false) && x.replacement == Some(v.steps[k].keep) && x.reason == Some(v.steps[k].reason))
    && ((forall k: nat :: !RetiringStep(t, r, v.steps, k)) ==>
          x.lifecycle == r.lifecycle && x.paid == r.paid && x.reason == r.reason && PointsTo(r, v.pointers, x.replacement))
    && ((forall c :: c in v.corrections ==> r.title != Some(c.title) || r.territory != Some(c.wrong)) ==> x.territory == r.territory)
    && (forall c :: v.corrections == [c] && r.title == Some(c.title) && r.territory == Some(c.wrong) ==> x.territory == Some(c.right))
  }

  lemma {:induction false} StandsIs(t: Table, title: string)
    ensures Stands(t, title) <==> LiveTitle(t, title)
  {
    if LiveTitle(t, title) {
      var r :| r in t && r.title == Some(title) && r.lifecycle == Live;
      var j :| 0 <= j < |t| && t[j] == r;
    }
  }

  lemma {:induction false} RetiredByAt(t: Table, r: Grant, steps: seq<Step>, k: nat)
    requires RetiringStep(t, r, steps, k)
    ensures RetiredBy(t, r.title.value, steps) == Some(steps[k])
  {
    hide Stands, LiveTitle;
    var n := |steps| - 1;
    StandsIs(t, steps[n].keep);
    if k < n {
      assert RetiringStep(t, r, steps[..n], k);
      RetiredByAt(t, r, steps[..n], k);
    } else {
      RetiredByIs(t, r.title.value, steps[..n]);
      if RetiredBy(t, r.title.value, steps[..n]).Some? { StandsIs(t, RetiredBy(t, r.title.value, steps[..n]).value.keep); }
    }
  }

  lemma {:induction false} SomeRetiringStep(t: Table, r: Grant, steps: seq<Step>) returns (k: nat)
    requires r.lifecycle == Live && r.title.Some? && RetiredBy(t, r.title.value, steps).Some?
    ensures RetiringStep(t, r, steps, k)
  {
    hide Stands, LiveTitle;
    var n := |steps| - 1;
    if RetiredBy(t, r.title.value, steps[..n]).Some? {
      k := SomeRetiringStep(t, r, steps[..n]);
    } else {
      StandsIs(t, steps[n].keep);
      RetiredByIs(t, r.title.value, steps[..n]);
      forall j | 0 <= j < n && r.title == Some(steps[j].drop) ensures !Stands(t, steps[j].keep) {
        assert steps[..n][j] == steps[j] && steps[j] in steps[..n];
        StandsIs(t, steps[j].keep);
      }
      k := n;
    }
  }

  lemma {:induction false} LastPointerSnoc(r: Grant, ps: seq<Pointer>, p: Pointer, k: nat)
    ensures LastPointer(r, ps + [p], k) <==> if r.title == Some(p.title) then k == |ps| else LastPointer(r, ps, k)
    ensures Unpointed(r, ps + [p]) <==> Unpointed(r, ps) && r.title != Some(p.title)
  {
    var all := ps + [p];
    assert all[|ps|] == p && forall j :: 0 <= j < |ps| ==> all[j] == ps[j];
  }

  lemma {:induction false} PointsSnoc(r: Grant, ps: seq<Pointer>, p: Pointer, target: Option<string>)
    requires if r.title == Some(p.title) then target == Some(p.successor) else PointsTo(r, ps, target)
    ensures PointsTo(r, ps + [p], target)
  {
    hide LastPointer, Unpointed;
    LastPointerSnoc(r, ps, p, 0);
    forall k: nat | LastPointer(r, ps + [p], k) ensures k < |ps + [p]| && target == Some((ps + [p])[k].successor) {
      LastPointerSnoc(r, ps, p, k);
      PointerPlace(r, ps + [p], k);
      if r.title != Some(p.title) { PointerPlace(r, ps, k); }
    }
  }

  lemma {:induction false} PointerPlace(r: Grant, ps: seq<Pointer>, k: nat)
    requires LastPointer(r, ps, k)
    ensures k < |ps|
  {
  }

  lemma {:induction false} NoPointers(r: Grant)
    ensures PointsTo(r, [], r.replacement)
  {
  }

  lemma {:induction false} TargetIs(r: Grant, ps: seq<Pointer>)
    ensures PointsTo(r, ps, Target(r, ps))
  {
    hide PointsTo;
    if ps == [] {
      NoPointers(r);
    } else {
      var n := |ps| - 1;
      var front, p := ps[..n], ps[n];
      assert ps == front + [p];
      if r.title != Some(p.title) { TargetIs(r, front); }
      PointsSnoc(r, front, p, Target(r, ps));
    }
  }

  lemma {:induction false} TerritoryKept(r: Grant, cs: seq<Correction>)
    requires forall c :: c in cs ==> r.title != Some(c.title) || r.territory != Some(c.wrong)
    ensures CorrectedTerritory(r, cs) == r.territory
  {
    if cs != [] {
      assert cs == cs[..|cs| - 1] + [cs[|cs| - 1]];
      TerritoryKept(r, cs[..|cs| - 1]);
    }
  }

  lemma {:induction false} TerritoryCorrected(r: Grant, c: Correction)
    requires r.title == Some(c.title) && r.territory == Some(c.wrong)
    ensures CorrectedTerritory(r, [c]) == Some(c.right)
  {
    assert [c][..0] == [];
  }

  lemma {:induction false} RowUpgraded(t: Table, v: Revision, r: Grant)
    ensures UpgradedRow(t, v, r, RowAfter(t, PreparedRow(r, v), v.steps))
  {
    hide LiveTitle, RetiredBy, PointsTo, Stands;
    var x := RowAfter(t, PreparedRow(r, v), v.steps);
    forall k: nat | RetiringStep(t, r, v.steps, k)
      ensures x.lifecycle == Held && x.paid == Some(false) && x.replacement == Some(v.steps[k].keep) && x.reason == Some(v.steps[k].reason)
    {
      RetiredByAt(t, r, v.steps, k);
    }
    if r.lifecycle == Live && r.title.Some? && RetiredBy(t, r.title.value, v.steps).Some? { var k := SomeRetiringStep(t, r, v.steps); }
    TargetIs(r, v.pointers);
    if forall c :: c in v.corrections ==> r.title != Some(c.title) || r.territory != Some(c.wrong) { TerritoryKept(r, v.corrections); }
    forall c | v.corrections == [c] && r.title == Some(c.title) && r.territory == Some(c.wrong)
      ensures CorrectedTerritory(r, v.corrections) == Some(c.right)
    {
      TerritoryCorrected(r, c);
    }
  }

  /** The first revision, row by row. */
  lemma {:induction false} UpgradeColumns(t: Table, v: Revision, i: nat)
    requires Apart(v.steps) && UpA(t, v).Some? && i < |t|
    ensures |UpA(t, v).value| == |t| && UpgradedRow(t, v, t[i], UpA(t, v).value[i])
  {
    hide LiveTitle, RetiredBy, Prepared, NoOrphans, UpgradedRow, Target, CorrectedTerritory;
    var u := Prepared(t, v);
    RetireAllRows(u, v.steps);
    PreparedRows(t, v);
    forall title ensures RetiredBy(u, title, v.steps) == RetiredBy(t, title, v.steps) { PreparedRetiredBy(t, v, title, v.steps); }
    RowUpgraded(t, v, t[i]);
  }

  /** The second revision: one step and nothing else. */
  lemma {:induction false} SecondUpgradeColumns(t: Table, s: Step, i: nat)
    requires i < |t|
    ensures var u := UpB(t, s);
            && |u| == |t|
            && u[i] == if t[i].lifecycle == Live && t[i].title == Some(s.drop) && Stands(t, s.keep)
                       then Grant(t[i].id, t[i].title, t[i].territory, Held, Some(false), Some(s.keep), Some(s.reason)) else t[i]
  {
    hide LiveTitle, Stands;
    StandsIs(t, s.keep);
  }

  /** The pairs the two revisions name never drop what another keeps. */
  lemma {:induction false} RealStepsApart()
    ensures Apart(REVISION_A.steps + [STEP_B])
  {
    var steps := REVISION_A.steps + [STEP_B];
    forall k | 0 <= k < |steps| ensures Thin(steps[k].drop) && Full(steps[k].keep) { RealStep(k); }
    forall a, b | a in steps && b in steps ensures a.drop != b.keep {
      var i :| 0 <= i < |steps| && steps[i] == a;
      var j :| 0 <= j < |steps| && steps[j] == b;
      assert Thin(a.drop) && Full(b.keep);
    }
  }

  /** Titles dropped and titles kept, told apart by their length and first letter. */
  predicate Thin(s: string) { |s| in {30, 31, 35, 37, 40, 53} || (|s| == 41 && s[0] == 'F') }

  predicate Full(s: string) { |s| in {33, 36, 43, 47, 48, 51, 52} || (|s| == 41 && s[0] == 'I') }

  lemma {:induction false} RealStep(k: nat)
    requires k < |REVISION_A.steps + [STEP_B]|
    ensures var s := (REVISION_A.steps + [STEP_B])[k]; Thin(s.drop) && Full(s.keep)
  {
  }
}
