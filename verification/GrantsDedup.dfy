/** The two grants dedup revisions as transformations of one table.

    SQL is three-valued: `title = :t` selects no row whose title is NULL, which is
    how comparing with `Some(t)` behaves. */
module GrantsDedup {
  import opened Base

  /** `Held` is NEEDS_REVIEW; any other stored text, or NULL, is `Otherwise`. */
  datatype Lifecycle = Live | Held | Otherwise(text: Option<string>)

  datatype Grant = Grant(
    id: int, title: Option<string>, territory: Option<string>, lifecycle: Lifecycle, paid: Option<bool>,
    replacement: Option<string>, reason: Option<string>)

  type Table = seq<Grant>

  /** Point held rows of `title` at `successor`. */
  datatype Pointer = Pointer(title: string, successor: string)

  datatype Correction = Correction(title: string, wrong: string, right: string)

  /** Retire `drop` in favour of `keep`. */
  datatype Step = Step(drop: string, keep: string, reason: string)

  // ---- single statements ------------------------------------------------------------

  predicate LiveTitle(t: Table, title: string) { exists r :: r in t && r.title == Some(title) && r.lifecycle == Live }

  function PointRow(r: Grant, p: Pointer): Grant { if r.title == Some(p.title) then r.(replacement := Some(p.successor)) else r }

  function CorrectRow(r: Grant, c: Correction): Grant {
    if r.title == Some(c.title) && r.territory == Some(c.wrong) then r.(territory := Some(c.right)) else r
  }

  function UncorrectRow(r: Grant, c: Correction): Grant {
    if r.title == Some(c.title) && r.territory == Some(c.right) then r.(territory := Some(c.wrong)) else r
  }

  predicate Selected(r: Grant, s: Step) { r.title == Some(s.drop) && r.lifecycle == Live }

  function RetireRow(r: Grant, s: Step): Grant {
    if Selected(r, s) then r.(lifecycle := Held, paid := Some(false), replacement := Some(s.keep), reason := Some(s.reason)) else r
  }

  function RestoreRow(r: Grant, reason: string): Grant {
    if r.reason == Some(reason) then r.(lifecycle := Live, paid := None, replacement := None, reason := None) else r
  }

  function Point(t: Table, p: Pointer): (u: Table)
    ensures |u| == |t| && forall i :: 0 <= i < |t| ==> u[i] == PointRow(t[i], p)
  { seq(|t|, i requires 0 <= i < |t| => PointRow(t[i], p)) }

  function Correct(t: Table, c: Correction): (u: Table)
    ensures |u| == |t| && forall i :: 0 <= i < |t| ==> u[i] == CorrectRow(t[i], c)
  { seq(|t|, i requires 0 <= i < |t| => CorrectRow(t[i], c)) }

  function Uncorrect(t: Table, c: Correction): (u: Table)
    ensures |u| == |t| && forall i :: 0 <= i < |t| ==> u[i] == UncorrectRow(t[i], c)
  { seq(|t|, i requires 0 <= i < |t| => UncorrectRow(t[i], c)) }

  /** Never retire a row unless its survivor is live. */
  function Retire(t: Table, s: Step): (u: Table)
    ensures |u| == |t| && forall i :: 0 <= i < |t| ==> u[i] == if LiveTitle(t, s.keep) then RetireRow(t[i], s) else t[i]
  { if LiveTitle(t, s.keep) then seq(|t|, i requires 0 <= i < |t| => RetireRow(t[i], s)) else t }

  function Restore(t: Table, reason: string): (u: Table)
    ensures |u| == |t| && forall i :: 0 <= i < |t| ==> u[i] == RestoreRow(t[i], reason)
  { seq(|t|, i requires 0 <= i < |t| => RestoreRow(t[i], reason)) }

  /** The rowcount of an UPDATE. */
  function CountSelected(t: Table, s: Step): nat {
    if t == [] then 0 else CountSelected(t[..|t| - 1], s) + if Selected(t[|t| - 1], s) then 1 else 0
  }

  function CountLive(t: Table): nat {
    if t == [] then 0 else CountLive(t[..|t| - 1]) + if t[|t| - 1].lifecycle == Live then 1 else 0
  }

  // ---- whole revisions -----------------------------------------------------------------

  datatype Revision = Revision(pointers: seq<Pointer>, corrections: seq<Correction>, steps: seq<Step>)

  function PointAll(t: Table, ps: seq<Pointer>): Table {
    if ps == [] then t else Point(PointAll(t, ps[..|ps| - 1]), ps[|ps| - 1])
  }

  function CorrectAll(t: Table, cs: seq<Correction>): Table {
    if cs == [] then t else Correct(CorrectAll(t, cs[..|cs| - 1]), cs[|cs| - 1])
  }

  function UncorrectAll(t: Table, cs: seq<Correction>): Table {
    if cs == [] then t else Uncorrect(UncorrectAll(t, cs[..|cs| - 1]), cs[|cs| - 1])
  }

  function RetireAll(t: Table, steps: seq<Step>): Table {
    if steps == [] then t else Retire(RetireAll(t, steps[..|steps| - 1]), steps[|steps| - 1])
  }

  /** The running `retired` counter. */
  function CountRetired(t: Table, steps: seq<Step>): nat {
    if steps == [] then 0
    else
      var n := |steps| - 1;
      var u := RetireAll(t, steps[..n]);
      CountRetired(t, steps[..n]) + if LiveTitle(u, steps[n].keep) then CountSelected(u, steps[n]) else 0
  }

  predicate Orphan(t: Table, r: Grant) { r.lifecycle == Held && r.replacement.Some? && !LiveTitle(t, r.replacement.value) }

  predicate NoOrphans(t: Table) { forall r :: r in t ==> !Orphan(t, r) }

  function Prepared(t: Table, v: Revision): Table { CorrectAll(PointAll(t, v.pointers), v.corrections) }

  /** Revision a3b4c5d6e7f8 upgrading: None when its closing assertion fires and the
      transaction is rolled back. */
  function UpA(t: Table, v: Revision): Option<Table> {
    var u := RetireAll(Prepared(t, v), v.steps);
    if NoOrphans(u) then Some(u) else None
  }

  /** Revision b4c5d6e7f8a9 upgrading: one more guarded step, no assertion. */
  function UpB(t: Table, s: Step): Table { Retire(t, s) }

  function DownB(t: Table, reason: string): Table { Restore(t, reason) }

  function DownA(t: Table, v: Revision, reason: string): Table { UncorrectAll(Restore(t, reason), v.corrections) }

  // ---- the migrations' own tables --------------------------------------------------------

  const REASON_A := "Semantic duplicate of a fuller record for the same programme, found by similarity review rather than exact-title match. Restore by setting lifecycle_state back to LIVE."
  const REASON_B := "Singular/plural title variant of a fuller record for the same programme. Restore by setting lifecycle_state back to LIVE."

  const REVISION_A := Revision(
    [Pointer("CNC — Aide aux Cinémas du Monde", "CNC / Institut français — Aide aux cinémas du monde")],
    [Correction("Eurimages — Co-production Support", "France", "Eurimages Member States")],
    [Step("Eurimages Co-production Support", "Eurimages — Co-production Support", REASON_A),
     Step("IMDA TAP Film — Asia Co-productions", "IMDA TAP — Asia Co-productions Film Grant", REASON_A),
     Step("IMDA TAP Film — First Features", "IMDA TAP — First Features Film Grant", REASON_A),
     Step("IMDA TAP Film — Global Co-productions", "IMDA TAP — Global Co-productions Film Grant", REASON_A),
     Step("FSA — Brazil–Argentina Co-production 2026", "ANCINE/FSA — Brazil–Argentina Co-production 2026", REASON_A),
     Step("FSA — Brazil–Portugal Co-production 2026", "ANCINE/FSA — Brazil–Portugal Co-production 2026", REASON_A),
     Step("Aide aux cinémas du monde (ACM)", "CNC / Institut français — Aide aux cinémas du monde", REASON_A)])

  const STEP_B := Step("Netherlands Film Fund + HBF — Minority Co-productions", "Netherlands Film Fund + HBF — Minority Co-production", REASON_B)

  // ---- the migrations as methods -----------------------------------------------------------

  class GrantTable {
    var rows: Table

    method UpgradeA(v: Revision) returns (ok: bool, retired: nat)
      modifies this
      ensures ok <==> UpA(old(rows), v).Some?
      ensures rows == if ok then UpA(old(rows), v).value else old(rows)
      ensures retired == CountRetired(Prepared(old(rows), v), v.steps)
    {
      hide LiveTitle, NoOrphans, CountSelected;
      var t := rows;
      for i := 0 to |v.pointers|
        invariant t == PointAll(rows, v.pointers[..i])
      {
        assert v.pointers[..i + 1][..i] == v.pointers[..i];
        t := Point(t, v.pointers[i]);
      }
      assert v.pointers[..|v.pointers|] == v.pointers;
      ghost var pointed := t;
      for i := 0 to |v.corrections|
        invariant t == CorrectAll(pointed, v.corrections[..i])
      {
        assert v.corrections[..i + 1][..i] == v.corrections[..i];
        t := Correct(t, v.corrections[i]);
      }
      assert v.corrections[..|v.corrections|] == v.corrections;
      t, retired := RetireEach(t, v.steps);
      ok := NoOrphans(t);
      if ok { rows := t; }
    }

    method UpgradeB(s: Step) returns (retired: nat)
      modifies this
      ensures rows == UpB(old(rows), s)
      ensures retired == CountRetired(old(rows), [s])
    {
      assert [s][..0] == [];
      retired := 0;
      if !LiveTitle(rows, s.keep) { return; }
      retired := CountSelected(rows, s);
      rows := Retire(rows, s);
    }

    /** Rows with the reason text become live and lose what the upgrade wrote over
        them; every other row stays. */
    method DowngradeB(reason: string)
      modifies this
      ensures rows == DownB(old(rows), reason) && |rows| == |old(rows)|
      ensures forall i :: 0 <= i < |rows| && old(rows)[i].reason != Some(reason) ==> rows[i] == old(rows)[i]
      ensures forall i :: 0 <= i < |rows| && old(rows)[i].reason == Some(reason) ==>
                rows[i].lifecycle == Live && rows[i].paid == None && rows[i].replacement == None && rows[i].reason == None
                && rows[i].id == old(rows)[i].id && rows[i].title == old(rows)[i].title && rows[i].territory == old(rows)[i].territory
    {
      rows := Restore(rows, reason);
    }

    method DowngradeA(v: Revision, reason: string)
      modifies this
      ensures rows == DownA(old(rows), v, reason)
    {
      var t := Restore(rows, reason);
      ghost var restored := t;
      for i := 0 to |v.corrections|
        invariant t == UncorrectAll(restored, v.corrections[..i])
      {
        assert v.corrections[..i + 1][..i] == v.corrections[..i];
        t := Uncorrect(t, v.corrections[i]);
      }
      assert v.corrections[..|v.corrections|] == v.corrections;
      rows := t;
    }
  }

  /** The retiring loop: skip a pair whose survivor is not live. */
  method RetireEach(before: Table, steps: seq<Step>) returns (t: Table, retired: nat)
    ensures t == RetireAll(before, steps) && retired == CountRetired(before, steps)
  {
    hide LiveTitle, CountSelected;
    t, retired := before, 0;
    for i := 0 to |steps|
      invariant t == RetireAll(before, steps[..i]) && retired == CountRetired(before, steps[..i])
    {
      assert steps[..i + 1][..i] == steps[..i];
      if !LiveTitle(t, steps[i].keep) { continue; }
      retired := retired + CountSelected(t, steps[i]);
      t := Retire(t, steps[i]);
    }
    assert steps[..|steps|] == steps;
  }
}
