/** Which keys the planner hands out. */
module ProgrammeSlugs {
  import opened Base
  import opened Text
  import opened Slugs
  import opened Programmes

  /** An active programme in a known place that has no key yet. */
  predicate Slugless(resolve: Resolver, r: Programme) { Active(r) && resolve(Str(r.territory)).Some? && Pid(r) == "" }

  function Cand(resolve: Resolver, r: Programme): string {
    match resolve(Str(r.territory)) case None => "" case Some(j) => Candidate(Place(j), Str(r.program))
  }

  /** The candidates of the slugless programmes. */
  ghost function Candidates(resolve: Resolver, rows: seq<Programme>): set<string> {
    set r | r in rows && Slugless(resolve, r) :: Cand(resolve, r)
  }

  function CountSlugless(resolve: Resolver, rows: seq<Programme>): nat {
    if rows == [] then 0
    else CountSlugless(resolve, rows[..|rows| - 1]) + if Slugless(resolve, rows[|rows| - 1]) then 1 else 0
  }

  function SlugList(ns: seq<Naming>): (s: seq<string>)
    ensures |s| == |ns| && forall i :: 0 <= i < |ns| ==> s[i] == ns[i].slug
  { seq(|ns|, i requires 0 <= i < |ns| => ns[i].slug) }

  /** The key handed to the programme known by `id`. */
  function SlugFor(ns: seq<Naming>, id: string): Option<string> {
    if ns == [] then None
    else
      var n := |ns| - 1;
      if ns[n].id == id then Some(ns[n].slug) else SlugFor(ns[..n], id)
  }

  /** Asking for inputs leaves every other part of the plan alone. */
  lemma {:induction false} PlanInputsFrame(labels: Labels, inputs: map<string, InputRow>, p: Plan, r: Programme, slug: string)
    ensures var q := PlanInputs(labels, inputs, p, r, slug);
            q == p.(questions := q.questions, multiBucket := q.multiBucket, answerable := q.answerable)
  {
  }

  /** One row's effect on the naming part of the plan. */
  lemma {:induction false} PlanRowNaming(resolve: Resolver, labels: Labels, inputs: map<string, InputRow>, p: Plan, r: Programme)
    ensures var q := PlanRow(resolve, labels, inputs, p, r);
            var c := Cand(resolve, r);
            if Slugless(resolve, r) && c != "" && c !in p.taken
            then q.slugs == p.slugs + [Naming(r.id, c)] && q.taken == p.taken + {c} && q.collisions == p.collisions
            else q.slugs == p.slugs && q.taken == p.taken
                 && q.collisions == p.collisions + if Slugless(resolve, r) then [Where(r)] else []
  {
    hide PlanInputs, Candidate;
    match resolve(Str(r.territory))
    case None =>
    case Some(j) =>
      var q := if Blank(Str(r.country))
               then p.(jurisdictions := p.jurisdictions + [Placing(r.id, j.territoryId, j.subdivisionId)]) else p;
      if Pid(r) != "" {
        PlanInputsFrame(labels, inputs, q, r, Pid(r));
      } else {
        var c := Cand(resolve, r);
        PlanInputsFrame(labels, inputs, q.(taken := q.taken + {c}, slugs := q.slugs + [Naming(r.id, c)]), r, c);
      }
  }

  lemma {:induction false} CandidatesSnoc(resolve: Resolver, front: seq<Programme>, r: Programme)
    ensures Candidates(resolve, front + [r]) == Candidates(resolve, front) + if Slugless(resolve, r) then {Cand(resolve, r)} else {}
  {
    hide Slugless, Cand;
    var rows := front + [r];
    assert forall x :: x in rows <==> x in front || x == r;
    forall s | s in Candidates(resolve, front) ensures s in Candidates(resolve, rows) {
      var x :| x in front && Slugless(resolve, x) && Cand(resolve, x) == s;
      assert x in rows;
    }
  }

  /** The keys handed out so far: `p` is the plan of `rows` started from `taken`. */
  ghost predicate SlugsHandedOut(resolve: Resolver, taken: set<string>, rows: seq<Programme>, p: Plan) {
    && (forall s :: s in SlugList(p.slugs) <==> s in Candidates(resolve, rows) - taken - {""})
    && Distinct(SlugList(p.slugs))
    && (forall s :: s in p.taken <==> s in taken || s in SlugList(p.slugs))
    && |p.slugs| + |p.collisions| == CountSlugless(resolve, rows)
  }

  /** The keys handed out are the candidates of the slugless programmes, less
      those in use at the start and the empty one, whatever the order; no key is
      handed out twice; and every slugless programme is either named or reported. */
  lemma {:induction false} AllocatedSlugs(resolve: Resolver, labels: Labels, inputs: map<string, InputRow>, taken: set<string>,
                                          rows: seq<Programme>)
    ensures SlugsHandedOut(resolve, taken, rows, PlanFrom(resolve, labels, inputs, taken, rows))
  {
    hide PlanRow, Slugless, Cand;
    if rows != [] {
      var n := |rows| - 1;
      var front, r := rows[..n], rows[n];
      assert rows == front + [r];
      AllocatedSlugs(resolve, labels, inputs, taken, front);
      var p := PlanFrom(resolve, labels, inputs, taken, front);
      var q := PlanFrom(resolve, labels, inputs, taken, rows);
      PlanRowNaming(resolve, labels, inputs, p, r);
      CandidatesSnoc(resolve, front, r);
      var c := Cand(resolve, r);
      if q.slugs != p.slugs {
        assert SlugList(q.slugs) == SlugList(p.slugs) + [c];
        DistinctSnoc(SlugList(p.slugs), c);
      }
    }
  }

  /** Reading the rows in another order hands out the same keys. */
  lemma {:induction false} AllocationIgnoresOrder(resolve: Resolver, labels: Labels, inputs: map<string, InputRow>,
                                                  rows: seq<Programme>, other: seq<Programme>)
    requires multiset(rows) == multiset(other)
    ensures forall s :: s in SlugList(PlanAll(resolve, labels, inputs, rows).slugs) <==>
                        s in SlugList(PlanAll(resolve, labels, inputs, other).slugs)
  {
    hide PlanFrom;
    assert forall r :: r in rows <==> r in other by {
      assert forall r :: r in rows <==> r in multiset(rows);
      assert forall r :: r in other <==> r in multiset(other);
    }
    assert Taken(rows) == Taken(other);
    assert Candidates(resolve, rows) == Candidates(resolve, other);
    AllocatedSlugs(resolve, labels, inputs, Taken(rows), rows);
    AllocatedSlugs(resolve, labels, inputs, Taken(other), other);
  }

  /** New keys are slugs, short enough, and no programme has them yet. */
  lemma {:induction false} NewSlugsAreSound(resolve: Resolver, labels: Labels, inputs: map<string, InputRow>, rows: seq<Programme>, s: string)
    requires s in SlugList(PlanAll(resolve, labels, inputs, rows).slugs)
    ensures IsSlug(s) && s != "" && |s| <= MAX_SLUG && Strip(s) == s
    ensures forall r :: r in rows ==> Pid(r) != s
  {
    hide PlanFrom, Candidate, IsSlug;
    AllocatedSlugs(resolve, labels, inputs, Taken(rows), rows);
    var r :| r in rows && Slugless(resolve, r) && Cand(resolve, r) == s;
    var j := resolve(Str(r.territory)).value;
    CandidateIsSlug(Place(j), Str(r.program));
    NoBlanksInSlug(s);
    forall x | x in rows ensures Pid(x) != s {
      if Str(x.programmeId) != "" { assert Pid(x) in Taken(rows); } else { assert Strip("") == ""; }
    }
  }
}
