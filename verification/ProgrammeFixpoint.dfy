/** Planning again after applying the plan finds nothing left to do. */
module ProgrammeFixpoint {
  import opened Base
  import opened Text
  import opened Slugs
  import opened Programmes
  import opened ProgrammeSlugs
  import opened ProgrammePlan

  // ---- the rows after an apply -----------------------------------------------------

  predicate NeedsPlace(resolve: Resolver, r: Programme) { Known(resolve, r) && Blank(Str(r.country)) }

  function PlaceFor(resolve: Resolver, r: Programme): Programme {
    if NeedsPlace(resolve, r)
    then r.(country := Some(resolve(Str(r.territory)).value.territoryId), subdivision := resolve(Str(r.territory)).value.subdivisionId)
    else r
  }

  function NameFor(p: Plan, r: Programme): Programme {
    match SlugFor(p.slugs, r.id) case None => r case Some(s) => r.(programmeId := Some(s))
  }

  lemma {:induction false} PlacedSnoc(r: Programme, js: seq<Placing>, j: Placing)
    ensures Placed(r, js + [j]) == if j.id == r.id then Placed(r, js).(country := Some(j.country), subdivision := j.subdivision) else Placed(r, js)
  {
  }

  lemma {:induction false} PlanRowPlacing(resolve: Resolver, labels: Labels, inputs: map<string, InputRow>, p: Plan, r: Programme)
    ensures PlanRow(resolve, labels, inputs, p, r).jurisdictions == p.jurisdictions +
            if NeedsPlace(resolve, r)
            then [Placing(r.id, resolve(Str(r.territory)).value.territoryId, resolve(Str(r.territory)).value.subdivisionId)] else []
  {
    hide PlanInputs, Candidate, Active, Blank, Pid;
    if Known(resolve, r) {
      var j := resolve(Str(r.territory)).value;
      var q := if Blank(Str(r.country))
               then p.(jurisdictions := p.jurisdictions + [Placing(r.id, j.territoryId, j.subdivisionId)]) else p;
      var c := Cand(resolve, r);
      PlanInputsFrame(labels, inputs, q, r, Pid(r));
      PlanInputsFrame(labels, inputs, q.(taken := q.taken + {c}, slugs := q.slugs + [Naming(r.id, c)]), r, c);
    }
  }

  /** Each row is placed at most once, by its own entry. */
  lemma {:induction false} PlacedExactly(resolve: Resolver, labels: Labels, inputs: map<string, InputRow>, taken: set<string>,
                                         rows: seq<Programme>, r: Programme)
    requires DistinctRows(rows)
    ensures var js := PlanFrom(resolve, labels, inputs, taken, rows).jurisdictions;
            && (r in rows ==> Placed(r, js) == PlaceFor(resolve, r))
            && ((forall x :: x in rows ==> x.id != r.id) ==> Placed(r, js) == r)
  {
    hide PlanRow, Active, Blank, Placed;
    if rows != [] {
      var n := |rows| - 1;
      var front, last := rows[..n], rows[n];
      assert rows == front + [last];
      PlacedExactly(resolve, labels, inputs, taken, front, r);
      var p := PlanFrom(resolve, labels, inputs, taken, front);
      PlanRowPlacing(resolve, labels, inputs, p, last);
      if NeedsPlace(resolve, last) {
        PlacedSnoc(r, p.jurisdictions,
                   Placing(last.id, resolve(Str(last.territory)).value.territoryId, resolve(Str(last.territory)).value.subdivisionId));
      }
      assert p.jurisdictions + [] == p.jurisdictions;
    } else {
      NothingPlaced(r);
    }
  }

  lemma {:induction false} NothingPlaced(r: Programme)
    ensures Placed(r, []) == r
  {
  }

  lemma {:induction false} NamedIs(r: Programme, ns: seq<Naming>)
    ensures Named(r, ns) == match SlugFor(ns, r.id) case None => r case Some(s) => r.(programmeId := Some(s))
  {
    if ns != [] { NamedIs(r, ns[..|ns| - 1]); }
  }

  // ---- a catalogue the script can settle ----------------------------------------------

  /** Distinct rows, distinct non-blank programme ids, and a resolver that never
      gives a blank code. */
  ghost predicate Orderly(resolve: Resolver, rows: seq<Programme>) {
    && DistinctRows(rows)
    && (forall r, x :: r in rows && x in rows && Pid(r) == Pid(x) != "" ==> r == x)
    && (forall t :: resolve(t).Some? ==> !Blank(resolve(t).value.territoryId))
  }

  /** What applying the plan does to a row. */
  function Settle(resolve: Resolver, p: Plan, r: Programme): Programme { NameFor(p, PlaceFor(resolve, r)) }

  ghost predicate AppliedTo(resolve: Resolver, labels: Labels, c: Catalogue, p: Plan, d: Catalogue) {
    && p == PlanAll(resolve, labels, c.inputs, c.programmes) && ApplyPlan(c, p) == Some(d)
  }

  lemma {:induction false} AppliedRows(resolve: Resolver, labels: Labels, c: Catalogue, p: Plan, d: Catalogue)
    requires DistinctRows(c.programmes) && AppliedTo(resolve, labels, c, p, d)
    ensures forall x :: x in d.programmes <==> exists r :: r in c.programmes && x == Settle(resolve, p, r)
  {
    hide PlanFrom, Named, Placed, SlugFor, NeedsPlace;
    var rows := c.programmes;
    forall i | 0 <= i < |rows| ensures d.programmes[i] == Settle(resolve, p, rows[i]) {
      assert rows[i] in rows;
      PlacedExactly(resolve, labels, c.inputs, Taken(rows), rows, rows[i]);
      NamedIs(PlaceFor(resolve, rows[i]), p.slugs);
    }
    forall x | x in d.programmes ensures exists r :: r in rows && x == Settle(resolve, p, r) {
      var i :| 0 <= i < |d.programmes| && d.programmes[i] == x;
      assert rows[i] in rows;
    }
    forall r | r in rows ensures Settle(resolve, p, r) in d.programmes {
      var i :| 0 <= i < |rows| && rows[i] == r;
      assert d.programmes[i] == Settle(resolve, p, r);
    }
  }

  /** A settled row reads as before, save that it is placed and known by its key. */
  ghost predicate SettledWell(resolve: Resolver, p: Plan, r: Programme) {
    var x := Settle(resolve, p, r);
    && x.id == r.id && Active(x) == Active(r) && Engine(x) == Engine(r) && Where(x) == Where(r)
    && x.territory == r.territory && Known(resolve, x) == Known(resolve, r) && Cand(resolve, x) == Cand(resolve, r)
    && (Known(resolve, r) ==> !Blank(Str(x.country)) && Pid(x) == SlugOf(p, r))
    && (Slugless(resolve, x) <==> Collided(resolve, p, r))
    && (Pid(r) != "" ==> x.programmeId == r.programmeId)
    && (!Blank(Str(r.country)) ==> x.country == r.country && x.subdivision == r.subdivision)
    && (!Known(resolve, r) ==> x == r)
  }

  lemma {:induction false} RowSettles(resolve: Resolver, labels: Labels, inputs: map<string, InputRow>, rows: seq<Programme>, r: Programme)
    requires Orderly(resolve, rows) && r in rows
    ensures SettledWell(resolve, PlanAll(resolve, labels, inputs, rows), r)
  {
    hide PlanFrom, Candidate, Strip, Lower, Upper, SlugFor, IsSlug, SpendBased, Required, Declared;
    var p := PlanAll(resolve, labels, inputs, rows);
    EveryRowPlanned(resolve, labels, inputs, Taken(rows), rows);
    assert RowPlanned(resolve, inputs, Taken(rows), p, r);
    if SlugFor(p.slugs, r.id).Some? {
      var s := SlugFor(p.slugs, r.id).value;
      NamedSlugListed(p.slugs, r.id);
      NewSlugsAreSound(resolve, labels, inputs, rows, s);
    }
  }

  lemma {:induction false} NamedSlugListed(ns: seq<Naming>, id: string)
    requires SlugFor(ns, id).Some?
    ensures SlugFor(ns, id).value in SlugList(ns) && Naming(id, SlugFor(ns, id).value) in ns
  {
    var n := |ns| - 1;
    assert SlugList(ns)[n] == ns[n].slug;
    if ns[n].id != id {
      NamedSlugListed(ns[..n], id);
      var i :| 0 <= i < n && SlugList(ns[..n])[i] == SlugFor(ns, id).value;
      assert SlugList(ns)[i] == SlugFor(ns, id).value;
    }
  }

  /** After an apply a key names one row. */
  lemma {:induction false} KeysNameOneRow(resolve: Resolver, labels: Labels, inputs: map<string, InputRow>, rows: seq<Programme>,
                                          r: Programme, x: Programme)
    requires Orderly(resolve, rows) && r in rows && x in rows && Known(resolve, r) && Known(resolve, x)
    requires var p := PlanAll(resolve, labels, inputs, rows); SlugOf(p, r) == SlugOf(p, x) != ""
    ensures r == x
  {
    hide PlanFrom, Candidate, Active, SlugFor, IsSlug, Strip;
    var p := PlanAll(resolve, labels, inputs, rows);
    EveryRowPlanned(resolve, labels, inputs, Taken(rows), rows);
    assert RowPlanned(resolve, inputs, Taken(rows), p, r) && RowPlanned(resolve, inputs, Taken(rows), p, x);
    if Pid(r) == "" || Pid(x) == "" {
      if Pid(r) == "" { NamedSlugListed(p.slugs, r.id); NewSlugsAreSound(resolve, labels, inputs, rows, SlugOf(p, r)); }
      if Pid(x) == "" { NamedSlugListed(p.slugs, x.id); NewSlugsAreSound(resolve, labels, inputs, rows, SlugOf(p, x)); }
      AllocatedSlugs(resolve, labels, inputs, Taken(rows), rows);
      var s := SlugOf(p, r);
      var i :| 0 <= i < |p.slugs| && p.slugs[i] == Naming(r.id, s);
      var j :| 0 <= j < |p.slugs| && p.slugs[j] == Naming(x.id, s);
      assert SlugList(p.slugs)[i] == SlugList(p.slugs)[j];
      assert i == j;
      var a :| 0 <= a < |rows| && rows[a] == r;
      var b :| 0 <= b < |rows| && rows[b] == x;
      assert a == b;
    }
  }

  // ---- the second plan -----------------------------------------------------------------

  /** A row the planner passes over: placed, known by a key or blocked, and asked. */
  ghost predicate Passed(resolve: Resolver, inputs: map<string, InputRow>, taken: set<string>, r: Programme) {
    Known(resolve, r) ==>
      && !Blank(Str(r.country))
      && (Pid(r) == "" ==> Cand(resolve, r) == "" || Cand(resolve, r) in taken)
      && (Pid(r) != "" && SpendBased(r) ==> forall key :: key in Required(Engine(r)) ==> key in Declared(inputs, Pid(r)))
  }

  lemma {:induction false} NothingNeeded(required: seq<string>, have: set<string>)
    requires forall k :: k in required ==> k in have
    ensures Needed(required, have) == []
  {
    if required != [] {
      var n := |required| - 1;
      assert required == required[..n] + [required[n]];
      NothingNeeded(required[..n], have);
    }
  }

  lemma {:induction false} PassedRow(resolve: Resolver, labels: Labels, inputs: map<string, InputRow>, p: Plan, r: Programme)
    requires Passed(resolve, inputs, p.taken, r)
    ensures var q := PlanRow(resolve, labels, inputs, p, r);
            q.jurisdictions == p.jurisdictions && q.slugs == p.slugs && q.questions == p.questions && q.taken == p.taken
  {
    hide Required, Needed, Engine, Declared, Active, Blank, Candidate;
    PlanRowPlacing(resolve, labels, inputs, p, r);
    PlanRowNaming(resolve, labels, inputs, p, r);
    if Known(resolve, r) && Pid(r) != "" && SpendBased(r) { NothingNeeded(Required(Engine(r)), Declared(inputs, Pid(r))); }
  }

  lemma {:induction false} NothingLeft(resolve: Resolver, labels: Labels, inputs: map<string, InputRow>, taken: set<string>, rows: seq<Programme>)
    requires forall r :: r in rows ==> Passed(resolve, inputs, taken, r)
    ensures var p := PlanFrom(resolve, labels, inputs, taken, rows);
            p.jurisdictions == [] && p.slugs == [] && p.questions == [] && p.taken == taken
  {
    hide PlanRow, Passed;
    if rows != [] {
      var n := |rows| - 1;
      assert rows == rows[..n] + [rows[n]];
      NothingLeft(resolve, labels, inputs, taken, rows[..n]);
      PassedRow(resolve, labels, inputs, PlanFrom(resolve, labels, inputs, taken, rows[..n]), rows[n]);
    }
  }
}
