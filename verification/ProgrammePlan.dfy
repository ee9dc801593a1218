/** What the plan says about each programme. */
module ProgrammePlan {
  import opened Base
  import opened Text
  import opened Slugs
  import opened Programmes
  import opened ProgrammeSlugs

  ghost predicate DistinctRows(rows: seq<Programme>) {
    forall i, j :: 0 <= i < j < |rows| ==> rows[i].id != rows[j].id
  }

  predicate Known(resolve: Resolver, r: Programme) { Active(r) && resolve(Str(r.territory)).Some? }

  /** An engine whose statutory inputs can be derived. */
  predicate SpendBased(r: Programme) { Engine(r) !in NON_SPEND && Engine(r) != "" && Engine(r) != MULTI_BUCKET }

  /** The key a programme is known by once the plan is applied, "" if none. */
  function SlugOf(p: Plan, r: Programme): string {
    if Pid(r) != "" then Pid(r) else match SlugFor(p.slugs, r.id) case None => "" case Some(s) => s
  }

  ghost predicate Asked(p: Plan, slug: string, key: string) {
    exists q :: q in p.questions && q.slug == slug && q.key == key
  }

  /** What the plan does for one of its rows. */
  ghost predicate RowPlanned(resolve: Resolver, inputs: map<string, InputRow>, taken: set<string>, p: Plan, r: Programme) {
    && (!Slugless(resolve, r) ==> SlugFor(p.slugs, r.id) == None)
    && (Slugless(resolve, r) ==>
          match SlugFor(p.slugs, r.id)
          case Some(s) => s == Cand(resolve, r) && s != "" && s !in taken && s in p.taken
          case None => (Cand(resolve, r) == "" || Cand(resolve, r) in p.taken) && Where(r) in p.collisions)
    && (Known(resolve, r) && SpendBased(r) && SlugOf(p, r) != "" ==>
          forall key :: key in Required(Engine(r)) ==> key in Declared(inputs, SlugOf(p, r)) || Asked(p, SlugOf(p, r), key))
  }

  /** The plan only ever grows. */
  ghost predicate Grows(p: Plan, q: Plan) {
    && p.slugs <= q.slugs && p.questions <= q.questions && p.taken <= q.taken && p.collisions <= q.collisions
    && p.jurisdictions <= q.jurisdictions
  }

  lemma {:induction false} PlanInputsGrows(labels: Labels, inputs: map<string, InputRow>, p: Plan, r: Programme, slug: string)
    ensures Grows(p, PlanInputs(labels, inputs, p, r, slug))
  {
    hide Required, Needed, Engine, Declared;
  }

  lemma {:induction false} NeededMembers(required: seq<string>, have: set<string>)
    ensures forall k :: k in Needed(required, have) <==> k in required && k !in have
  {
    if required != [] {
      var n := |required| - 1;
      assert required == required[..n] + [required[n]];
      NeededMembers(required[..n], have);
    }
  }

  lemma {:induction false} PlanInputsAsks(labels: Labels, inputs: map<string, InputRow>, p: Plan, r: Programme, slug: string)
    requires SpendBased(r)
    ensures var q := PlanInputs(labels, inputs, p, r, slug);
            && q.questions == p.questions + Ask(labels, slug, Needed(Required(Engine(r)), Declared(inputs, slug)))
            && forall key :: key in Required(Engine(r)) ==> key in Declared(inputs, slug) || Asked(q, slug, key)
  {
    hide Required, Needed, Engine, Declared;
    var needed := Needed(Required(Engine(r)), Declared(inputs, slug));
    var q := PlanInputs(labels, inputs, p, r, slug);
    NeededMembers(Required(Engine(r)), Declared(inputs, slug));
    assert q.questions == p.questions + Ask(labels, slug, needed);
    forall key | key in needed ensures Asked(q, slug, key) {
      var i :| 0 <= i < |needed| && needed[i] == key;
      assert q.questions[|p.questions| + i] == Question(slug, key, labels(key));
    }
  }

  lemma {:induction false} SlugForSnoc(ns: seq<Naming>, n: Naming, id: string)
    ensures SlugFor(ns + [n], id) == if n.id == id then Some(n.slug) else SlugFor(ns, id)
  {
  }

  lemma {:induction false} LastRowPlanned(resolve: Resolver, labels: Labels, inputs: map<string, InputRow>, taken: set<string>,
                                          p: Plan, r: Programme)
    requires SlugFor(p.slugs, r.id) == None && taken <= p.taken
    ensures var q := PlanRow(resolve, labels, inputs, p, r);
            RowPlanned(resolve, inputs, taken, q, r) && Grows(p, q)
  {
    hide PlanInputs, Candidate, SlugFor;
    var q := PlanRow(resolve, labels, inputs, p, r);
    if Known(resolve, r) {
      var j := resolve(Str(r.territory)).value;
      var p1 := if Blank(Str(r.country))
                then p.(jurisdictions := p.jurisdictions + [Placing(r.id, j.territoryId, j.subdivisionId)]) else p;
      if Pid(r) != "" {
        PlanInputsFrame(labels, inputs, p1, r, Pid(r));
        PlanInputsGrows(labels, inputs, p1, r, Pid(r));
        if SpendBased(r) { PlanInputsAsks(labels, inputs, p1, r, Pid(r)); }
      } else {
        var c := Cand(resolve, r);
        if c != "" && c !in p.taken {
          var p2 := p1.(taken := p1.taken + {c}, slugs := p1.slugs + [Naming(r.id, c)]);
          SlugForSnoc(p.slugs, Naming(r.id, c), r.id);
          PlanInputsFrame(labels, inputs, p2, r, c);
          PlanInputsGrows(labels, inputs, p2, r, c);
          if SpendBased(r) { PlanInputsAsks(labels, inputs, p2, r, c); }
        }
      }
    }
  }

  /** A later row, known by another id, changes nothing already decided. */
  lemma {:induction false} RowStaysPlanned(resolve: Resolver, labels: Labels, inputs: map<string, InputRow>, taken: set<string>,
                                           p: Plan, r: Programme, later: Programme)
    requires RowPlanned(resolve, inputs, taken, p, r) && r.id != later.id
    requires Grows(p, PlanRow(resolve, labels, inputs, p, later))
    ensures RowPlanned(resolve, inputs, taken, PlanRow(resolve, labels, inputs, p, later), r)
  {
    hide PlanRow, Cand, Slugless, Known, SpendBased, Declared, SlugFor, Required;
    var q := PlanRow(resolve, labels, inputs, p, later);
    PlanRowNaming(resolve, labels, inputs, p, later);
    SlugForSnoc(p.slugs, Naming(later.id, Cand(resolve, later)), r.id);
    assert forall slug, key :: Asked(p, slug, key) ==> Asked(q, slug, key);
  }

  lemma {:induction false} FreshIdUnnamed(resolve: Resolver, labels: Labels, inputs: map<string, InputRow>, taken: set<string>,
                                          rows: seq<Programme>, id: string)
    requires forall r :: r in rows ==> r.id != id
    ensures SlugFor(PlanFrom(resolve, labels, inputs, taken, rows).slugs, id) == None
    ensures taken <= PlanFrom(resolve, labels, inputs, taken, rows).taken
  {
    hide PlanRow, Cand, Slugless, SlugFor;
    if rows != [] {
      var n := |rows| - 1;
      assert rows == rows[..n] + [rows[n]];
      FreshIdUnnamed(resolve, labels, inputs, taken, rows[..n], id);
      var p := PlanFrom(resolve, labels, inputs, taken, rows[..n]);
      PlanRowNaming(resolve, labels, inputs, p, rows[n]);
      SlugForSnoc(p.slugs, Naming(rows[n].id, Cand(resolve, rows[n])), id);
    } else {
      NothingNamed(id);
    }
  }

  lemma {:induction false} NothingNamed(id: string)
    ensures SlugFor([], id) == None
  {
  }

  /** Every row is planned for. */
  lemma {:induction false} EveryRowPlanned(resolve: Resolver, labels: Labels, inputs: map<string, InputRow>, taken: set<string>,
                                           rows: seq<Programme>)
    requires DistinctRows(rows)
    ensures forall r :: r in rows ==> RowPlanned(resolve, inputs, taken, PlanFrom(resolve, labels, inputs, taken, rows), r)
  {
    hide PlanRow, RowPlanned, Grows;
    if rows != [] {
      var n := |rows| - 1;
      var front, last := rows[..n], rows[n];
      assert rows == front + [last];
      EveryRowPlanned(resolve, labels, inputs, taken, front);
      var p := PlanFrom(resolve, labels, inputs, taken, front);
      assert forall r :: r in front ==> r.id != last.id;
      FreshIdUnnamed(resolve, labels, inputs, taken, front, last.id);
      LastRowPlanned(resolve, labels, inputs, taken, p, last);
      forall r | r in front ensures RowPlanned(resolve, inputs, taken, PlanRow(resolve, labels, inputs, p, last), r) {
        RowStaysPlanned(resolve, labels, inputs, taken, p, r, last);
      }
    }
  }

  // ---- where the entries of the plan come from ------------------------------------------

  ghost predicate Unresolved(resolve: Resolver, r: Programme) { Active(r) && resolve(Str(r.territory)).None? }

  ghost predicate Collided(resolve: Resolver, p: Plan, r: Programme) { Slugless(resolve, r) && SlugFor(p.slugs, r.id) == None }

  ghost predicate LeftToAPerson(resolve: Resolver, inputs: map<string, InputRow>, p: Plan, r: Programme) {
    Known(resolve, r) && Engine(r) == MULTI_BUCKET && SlugOf(p, r) != "" && Declared(inputs, SlugOf(p, r)) == {}
  }

  ghost predicate Asks(resolve: Resolver, inputs: map<string, InputRow>, p: Plan, r: Programme, q: Question) {
    && Known(resolve, r) && SpendBased(r) && SlugOf(p, r) == q.slug != ""
    && q.key in Required(Engine(r)) && q.key !in Declared(inputs, q.slug)
  }

  /** The three reports list exactly the rows they are for. */
  ghost predicate Reported(resolve: Resolver, inputs: map<string, InputRow>, rows: seq<Programme>, p: Plan) {
    && (forall e :: e in p.unresolved <==> exists r :: r in rows && Unresolved(resolve, r) && Where(r) == e)
    && (forall e :: e in p.collisions <==> exists r :: r in rows && Collided(resolve, p, r) && Where(r) == e)
    && (forall e :: e in p.multiBucket <==> exists r :: r in rows && LeftToAPerson(resolve, inputs, p, r) && Where(r) == e)
  }

  /** Every question is one a row's engine needs and nobody declared. */
  ghost predicate Grounded(resolve: Resolver, inputs: map<string, InputRow>, rows: seq<Programme>, p: Plan) {
    forall q :: q in p.questions ==> exists r :: r in rows && Asks(resolve, inputs, p, r, q)
  }

  /** Every new key was handed to a row. */
  ghost predicate Handed(rows: seq<Programme>, p: Plan) {
    forall n :: n in p.slugs ==> exists r :: r in rows && r.id == n.id && SlugFor(p.slugs, r.id) == Some(n.slug)
  }

  ghost predicate Accounted(resolve: Resolver, inputs: map<string, InputRow>, rows: seq<Programme>, p: Plan) {
    Reported(resolve, inputs, rows, p) && Grounded(resolve, inputs, rows, p) && Handed(rows, p)
  }

  /** The plan once a row has been placed and named, before its inputs. */
  function Opened(resolve: Resolver, p: Plan, r: Programme): Plan {
    if !Active(r) then p
    else if resolve(Str(r.territory)).None? then p.(unresolved := p.unresolved + [Where(r)])
    else
      var j := resolve(Str(r.territory)).value;
      var q := if Blank(Str(r.country))
               then p.(jurisdictions := p.jurisdictions + [Placing(r.id, j.territoryId, j.subdivisionId)]) else p;
      var c := Cand(resolve, r);
      if Pid(r) != "" then q
      else if c == "" || c in q.taken then q.(collisions := q.collisions + [Where(r)])
      else q.(taken := q.taken + {c}, slugs := q.slugs + [Naming(r.id, c)])
  }

  lemma {:induction false} PlanRowForm(resolve: Resolver, labels: Labels, inputs: map<string, InputRow>, p: Plan, r: Programme)
    requires SlugFor(p.slugs, r.id) == None
    ensures var o := Opened(resolve, p, r);
            PlanRow(resolve, labels, inputs, p, r) ==
              if Known(resolve, r) && SlugOf(o, r) != "" then PlanInputs(labels, inputs, o, r, SlugOf(o, r)) else o
  {
    hide PlanInputs, Candidate, SlugFor, Active, Blank, Pid;
    SlugForSnoc(p.slugs, Naming(r.id, Cand(resolve, r)), r.id);
    if Known(resolve, r) && Pid(r) == "" {
      var c := Cand(resolve, r);
      if c != "" && c !in p.taken { assert SlugOf(Opened(resolve, p, r), r) == c; }
    }
  }

  lemma {:induction false} PlanInputsReports(labels: Labels, inputs: map<string, InputRow>, p: Plan, r: Programme, slug: string)
    ensures var q := PlanInputs(labels, inputs, p, r, slug);
            && q.multiBucket == p.multiBucket + (if Engine(r) == MULTI_BUCKET && Declared(inputs, slug) == {} then [Where(r)] else [])
            && q.questions == p.questions + (if SpendBased(r) then Ask(labels, slug, Needed(Required(Engine(r)), Declared(inputs, slug))) else [])
  {
    hide Required, Needed, Engine, Declared;
    if SpendBased(r) { PlanInputsAsks(labels, inputs, p, r, slug); }
  }

  /** One row's effect on the reporting part of the plan. */
  lemma {:induction false} PlanRowReports(resolve: Resolver, labels: Labels, inputs: map<string, InputRow>, p: Plan, r: Programme)
    requires SlugFor(p.slugs, r.id) == None
    ensures var q := PlanRow(resolve, labels, inputs, p, r);
            && q.unresolved == p.unresolved + (if Unresolved(resolve, r) then [Where(r)] else [])
            && q.collisions == p.collisions + (if Collided(resolve, q, r) then [Where(r)] else [])
            && q.multiBucket == p.multiBucket + (if LeftToAPerson(resolve, inputs, q, r) then [Where(r)] else [])
            && q.questions == p.questions + (if Known(resolve, r) && SpendBased(r) && SlugOf(q, r) != ""
                                             then Ask(labels, SlugOf(q, r), Needed(Required(Engine(r)), Declared(inputs, SlugOf(q, r)))) else [])
  {
    hide Required, Needed, Engine, Declared, SlugFor, PlanRow, PlanInputs, Cand, Active, Blank, Pid, SpendBased;
    var o := Opened(resolve, p, r);
    PlanRowForm(resolve, labels, inputs, p, r);
    SlugForSnoc(p.slugs, Naming(r.id, Cand(resolve, r)), r.id);
    PlanInputsFrame(labels, inputs, o, r, SlugOf(o, r));
    PlanInputsReports(labels, inputs, o, r, SlugOf(o, r));
  }

  /** Planning one row leaves the standing of the others as it was. */
  lemma {:induction false} OthersStand(resolve: Resolver, labels: Labels, inputs: map<string, InputRow>, p: Plan, last: Programme, r: Programme)
    requires r.id != last.id
    ensures var q := PlanRow(resolve, labels, inputs, p, last);
            && SlugFor(q.slugs, r.id) == SlugFor(p.slugs, r.id) && SlugOf(q, r) == SlugOf(p, r)
  {
    hide PlanRow, Cand, Slugless, SlugFor;
    PlanRowNaming(resolve, labels, inputs, p, last);
    SlugForSnoc(p.slugs, Naming(last.id, Cand(resolve, last)), r.id);
  }

  lemma {:induction false} AccountedStep(resolve: Resolver, labels: Labels, inputs: map<string, InputRow>,
                                         front: seq<Programme>, last: Programme, p: Plan)
    requires Accounted(resolve, inputs, front, p)
    requires SlugFor(p.slugs, last.id) == None && forall r :: r in front ==> r.id != last.id
    ensures Accounted(resolve, inputs, front + [last], PlanRow(resolve, labels, inputs, p, last))
  {
    hide PlanRow, Cand, Slugless, SlugFor, SlugOf, Unresolved, Collided, LeftToAPerson, Reported, Grounded, Handed;
    var q := PlanRow(resolve, labels, inputs, p, last);
    PlanRowReports(resolve, labels, inputs, p, last);
    PlanRowNaming(resolve, labels, inputs, p, last);
    forall r | r in front ensures SlugFor(q.slugs, r.id) == SlugFor(p.slugs, r.id) && SlugOf(q, r) == SlugOf(p, r) {
      OthersStand(resolve, labels, inputs, p, last, r);
    }
    AccountedReports(resolve, inputs, front, last, p, q);
    AccountedQuestions(resolve, labels, inputs, front, last, p, q);
    AccountedNames(front, last, p, q);
  }

  lemma {:induction false} AccountedNames(front: seq<Programme>, last: Programme, p: Plan, q: Plan)
    requires Handed(front, p) && SameStanding(front, p, q)
    requires q.slugs == p.slugs || exists c :: q.slugs == p.slugs + [Naming(last.id, c)]
    ensures Handed(front + [last], q)
  {
  }

  ghost predicate SameStanding(front: seq<Programme>, p: Plan, q: Plan) {
    forall r :: r in front ==> SlugFor(q.slugs, r.id) == SlugFor(p.slugs, r.id) && SlugOf(q, r) == SlugOf(p, r)
  }

  lemma {:induction false} AccountedReports(resolve: Resolver, inputs: map<string, InputRow>, front: seq<Programme>, last: Programme, p: Plan, q: Plan)
    requires Reported(resolve, inputs, front, p) && SameStanding(front, p, q)
    requires q.unresolved == p.unresolved + (if Unresolved(resolve, last) then [Where(last)] else [])
    requires q.collisions == p.collisions + (if Collided(resolve, q, last) then [Where(last)] else [])
    requires q.multiBucket == p.multiBucket + (if LeftToAPerson(resolve, inputs, q, last) then [Where(last)] else [])
    ensures Reported(resolve, inputs, front + [last], q)
  {
    hide Unresolved, Slugless, Known, Declared, SlugFor, SlugOf, Engine;
    var rows := front + [last];
    assert forall r :: r in rows <==> r in front || r == last;
    forall r | r in front
      ensures Collided(resolve, q, r) <==> Collided(resolve, p, r)
      ensures LeftToAPerson(resolve, inputs, q, r) <==> LeftToAPerson(resolve, inputs, p, r)
    {
    }
  }

  lemma {:induction false} AccountedQuestions(resolve: Resolver, labels: Labels, inputs: map<string, InputRow>,
                                              front: seq<Programme>, last: Programme, p: Plan, q: Plan)
    requires Grounded(resolve, inputs, front, p) && SameStanding(front, p, q)
    requires q.questions == p.questions + (if Known(resolve, last) && SpendBased(last) && SlugOf(q, last) != ""
               then Ask(labels, SlugOf(q, last), Needed(Required(Engine(last)), Declared(inputs, SlugOf(q, last)))) else [])
    ensures Grounded(resolve, inputs, front + [last], q)
  {
    hide Known, SpendBased, Declared, SlugFor, SlugOf, Required, Needed, Engine;
    var rows := front + [last];
    assert forall r :: r in rows <==> r in front || r == last;
    forall x | x in q.questions ensures exists r :: r in rows && Asks(resolve, inputs, q, r, x) {
      if x in p.questions {
        var r :| r in front && Asks(resolve, inputs, p, r, x);
        assert Asks(resolve, inputs, q, r, x);
      } else {
        NeededMembers(Required(Engine(last)), Declared(inputs, SlugOf(q, last)));
        assert x in Ask(labels, SlugOf(q, last), Needed(Required(Engine(last)), Declared(inputs, SlugOf(q, last))));
        assert Asks(resolve, inputs, q, last, x);
      }
    }
  }

  lemma {:induction false} EveryEntryAccounted(resolve: Resolver, labels: Labels, inputs: map<string, InputRow>, taken: set<string>,
                                               rows: seq<Programme>)
    requires DistinctRows(rows)
    ensures Accounted(resolve, inputs, rows, PlanFrom(resolve, labels, inputs, taken, rows))
  {
    hide PlanRow;
    if rows != [] {
      hide Accounted;
      var n := |rows| - 1;
      var front, last := rows[..n], rows[n];
      assert rows == front + [last];
      EveryEntryAccounted(resolve, labels, inputs, taken, front);
      assert forall r :: r in front ==> r.id != last.id;
      FreshIdUnnamed(resolve, labels, inputs, taken, front, last.id);
      AccountedStep(resolve, labels, inputs, front, last, PlanFrom(resolve, labels, inputs, taken, front));
    }
  }
}
