/** What planning and applying leave in every column of both tables, and what each
    report lists and counts. */
module ProgrammeColumns {
  import opened Base
  import opened Text
  import opened Slugs
  import opened Programmes
  import opened ProgrammeSlugs
  import opened ProgrammePlan
  import opened ProgrammeFixpoint
  import opened ProgrammeSettled

  // ---- reading a row ---------------------------------------------------------------------------

  /** A column that says nothing. */
  ghost predicate Unset(o: Option<string>) { o.None? || Strip(o.value) == "" }

  ghost function Said(o: Option<string>): string { match o case None => "" case Some(s) => s }

  ghost predicate IsActive(r: Programme) { Unset(r.status) || Lower(Strip(r.status.value)) == "active" }

  /** The programme is active and its territory is known. */
  ghost predicate InScope(resolve: Resolver, r: Programme) { IsActive(r) && resolve(Said(r.territory)).Some? }

  ghost function EngineName(r: Programme): string { Upper(Strip(Said(r.engineType))) }

  /** The code a new key starts with: the subdivision's where there is one. */
  ghost function CodeOf(j: Jurisdiction): string {
    if j.subdivisionId.Some? && j.subdivisionId.value != "" then j.subdivisionId.value else j.territoryId
  }

  /** How a report names the row: by its title, or by its id where it has none. */
  ghost function Named(r: Programme): (string, string) { (if Said(r.program) == "" then r.id else Said(r.program), Said(r.territory)) }

  /** What the engine needs by statute. */
  ghost predicate Statutory(engine: string, key: string) {
    || (engine == "CORE_LOWER_OF" && (key == "local_core_expenditure" || key == "global_core_expenditure"))
    || ((engine == "ELIGIBLE_LOCAL_SPEND" || engine == "TIERED_SPEND") && key == "eligible_local_spend")
    || (engine == "QUALIFIED_LABOUR" && key == "qualified_labour")
    || (engine == "QAPE" && key == "qape")
    || (engine == "QNZPE" && key == "qnzpe")
    || (engine == "VFX_ONLY" && key == "vfx_expenditure")
    || (engine == "PDV_ONLY" && key == "pdv_expenditure")
  }

  /** The engine has a spend base whose inputs follow from it. */
  ghost predicate Derivable(engine: string) {
    engine != "" && engine != "INVESTOR_TAX_SHELTER" && engine != "COMPETITIVE_GRANT" && engine != "NO_PROGRAMME" && engine != "MULTI_BUCKET"
  }

  ghost predicate HasInput(inputs: map<string, InputRow>, slug: string, key: string) {
    exists i :: i in inputs && inputs[i].programmeId == slug && inputs[i].inputKey == key
  }

  lemma {:induction false} ActiveWord()
    ensures Lower(Strip("active")) == "active" && Strip("") == ""
  {
    StripKeeps("active");
    LowerKept("active");
  }

  lemma {:induction false} ActiveIs(r: Programme)
    ensures Active(r) <==> IsActive(r)
  {
    ActiveWord();
    LowerEmpty(Str(r.status));
    hide Strip, Lower;
  }

  lemma {:induction false} LowerEmpty(s: string)
    ensures Lower(Strip(s)) == "" <==> Strip(s) == ""
  {
    hide Strip;
  }

  lemma {:induction false} ScopeIs(resolve: Resolver, r: Programme)
    ensures Known(resolve, r) <==> InScope(resolve, r)
    ensures Said(r.territory) == Str(r.territory) && (Blank(Str(r.country)) <==> Unset(r.country)) && (Pid(r) == "" <==> Unset(r.programmeId))
    ensures EngineName(r) == Engine(r) && Named(r) == Where(r) && Said(r.program) == Str(r.program)
  {
    hide Active, IsActive;
    ActiveIs(r);
    ActiveWord();
  }

  lemma {:induction false} SluglessIs(resolve: Resolver, r: Programme)
    ensures Slugless(resolve, r) <==> InScope(resolve, r) && Unset(r.programmeId)
  {
    hide Active, IsActive, Unset;
    ActiveIs(r);
    ScopeIs(resolve, r);
  }

  lemma {:induction false} SpendIs(r: Programme)
    ensures SpendBased(r) <==> Derivable(Engine(r))
  {
    hide Engine;
  }

  lemma {:induction false} StatutoryIs(engine: string, key: string)
    ensures key in Required(engine) <==> Statutory(engine, key)
  {
  }

  lemma {:induction false} StatutoryDerivable(engine: string, key: string)
    requires Statutory(engine, key)
    ensures Derivable(engine)
  {
  }

  lemma {:induction false} InputIs(inputs: map<string, InputRow>, slug: string, key: string)
    ensures key in Declared(inputs, slug) <==> HasInput(inputs, slug, key)
  {
  }

  // ---- the programmes after an apply ---------------------------------------------------------------

  /** The row is placed by this run. */
  ghost predicate Places(resolve: Resolver, r: Programme) { InScope(resolve, r) && Unset(r.country) }

  /** A settled row: nothing but its place and its key can have changed. */
  ghost predicate RowSays(resolve: Resolver, r: Programme, x: Programme) {
    && x.id == r.id && x.program == r.program && x.territory == r.territory && x.status == r.status && x.engineType == r.engineType
    && x.country == (if Places(resolve, r) then Some(resolve(Said(r.territory)).value.territoryId) else r.country)
    && x.subdivision == (if Places(resolve, r) then resolve(Said(r.territory)).value.subdivisionId else r.subdivision)
    && (!InScope(resolve, r) || !Unset(r.programmeId) ==> x.programmeId == r.programmeId)
    && (InScope(resolve, r) && Unset(r.programmeId) ==>
          x.programmeId == r.programmeId || x.programmeId == Some(Candidate(CodeOf(resolve(Said(r.territory)).value), Said(r.program))))
  }

  lemma {:induction false} CandIs(resolve: Resolver, r: Programme)
    requires resolve(Str(r.territory)).Some?
    ensures Cand(resolve, r) == Candidate(CodeOf(resolve(Str(r.territory)).value), Str(r.program))
  {
    hide Candidate;
  }

  lemma {:induction false} SettledAt(resolve: Resolver, labels: Labels, c: Catalogue, p: Plan, d: Catalogue, i: nat)
    requires DistinctRows(c.programmes) && AppliedTo(resolve, labels, c, p, d) && i < |c.programmes|
    ensures |d.programmes| == |c.programmes| && d.programmes[i] == Settle(resolve, p, c.programmes[i])
  {
    hide PlanFrom, Programmes.Named, Placed, SlugFor, NeedsPlace;
    var rows := c.programmes;
    assert rows[i] in rows;
    PlacedExactly(resolve, labels, c.inputs, Taken(rows), rows, rows[i]);
    NamedIs(PlaceFor(resolve, rows[i]), p.slugs);
  }

  /** What the plan gives a row: nothing, or the key built for it, which no row had. */
  lemma {:induction false} KeyGiven(resolve: Resolver, labels: Labels, c: Catalogue, p: Plan, r: Programme)
    requires DistinctRows(c.programmes) && p == PlanAll(resolve, labels, c.inputs, c.programmes) && r in c.programmes
    ensures !Slugless(resolve, r) ==> SlugFor(p.slugs, r.id) == None
    ensures Slugless(resolve, r) && SlugFor(p.slugs, r.id) == None ==> Cand(resolve, r) == "" || Cand(resolve, r) in p.taken
    ensures Slugless(resolve, r) && SlugFor(p.slugs, r.id).Some? ==>
              SlugFor(p.slugs, r.id) == Some(Cand(resolve, r)) && Cand(resolve, r) != "" && forall y :: y in c.programmes ==> Pid(y) != Cand(resolve, r)
  {
    hide PlanFrom, Cand, Slugless, SlugFor, Pid;
    EveryRowPlanned(resolve, labels, c.inputs, Taken(c.programmes), c.programmes);
    assert RowPlanned(resolve, c.inputs, Taken(c.programmes), p, r);
    if SlugFor(p.slugs, r.id).Some? {
      NamedSlugListed(p.slugs, r.id);
      NewSlugsAreSound(resolve, labels, c.inputs, c.programmes, SlugFor(p.slugs, r.id).value);
    }
  }

  lemma {:induction false} KeyIsTaken(resolve: Resolver, labels: Labels, c: Catalogue, p: Plan, d: Catalogue, key: string)
    requires Orderly(resolve, c.programmes) && AppliedTo(resolve, labels, c, p, d) && key in p.taken && key != ""
    ensures exists y :: y in d.programmes && Pid(y) == key
  {
    hide PlanFrom, ApplyPlan, Pid;
    TakenAfter(resolve, labels, c, p, d, key);
  }

  lemma {:induction false} SettledColumns(resolve: Resolver, p: Plan, r: Programme)
    ensures var x := Settle(resolve, p, r);
            && x.id == r.id && x.program == r.program && x.territory == r.territory && x.status == r.status && x.engineType == r.engineType
            && x.country == (if Places(resolve, r) then Some(resolve(Said(r.territory)).value.territoryId) else r.country)
            && x.subdivision == (if Places(resolve, r) then resolve(Said(r.territory)).value.subdivisionId else r.subdivision)
            && x.programmeId == match SlugFor(p.slugs, r.id) case None => r.programmeId case Some(s) => Some(s)
  {
    hide SlugFor, Active, IsActive, Blank, Unset, Known, InScope;
    ScopeIs(resolve, r);
    KnownResolves(resolve, r);
  }

  lemma {:induction false} KnownResolves(resolve: Resolver, r: Programme)
    ensures Known(resolve, r) ==> resolve(Str(r.territory)).Some?
    ensures InScope(resolve, r) ==> resolve(Said(r.territory)).Some?
  {
    hide Active, IsActive;
  }

  /** Applying the plan keeps every programme in its place and writes three columns at
      most: country and subdivision where the country was unset, and the key where
      there was none. A row in scope is left without a key only when there is nothing
      to build one from or another programme has it. */
  lemma {:induction false} ProgrammesApplied(resolve: Resolver, labels: Labels, c: Catalogue, p: Plan, d: Catalogue, i: nat)
    requires Orderly(resolve, c.programmes) && AppliedTo(resolve, labels, c, p, d) && i < |c.programmes|
    ensures |d.programmes| == |c.programmes|
    ensures var r, x := c.programmes[i], d.programmes[i];
            && RowSays(resolve, r, x)
            && (InScope(resolve, r) && Unset(r.programmeId) ==>
                  var key := Candidate(CodeOf(resolve(Said(r.territory)).value), Said(r.program));
                  if x.programmeId == Some(key) && key != ""
                  then forall y :: y in c.programmes ==> Strip(Said(y.programmeId)) != key
                  else key == "" || exists y :: y in d.programmes && Strip(Said(y.programmeId)) == key)
  {
    hide PlanFrom, ApplyPlan, Candidate, Settle, Strip, Engine, SpendBased, Required, Declared, SlugFor, Active, IsActive, Orderly, Unset, Slugless,
         Cand, Places;
    var r := c.programmes[i];
    assert DistinctRows(c.programmes) && r in c.programmes by { OrderlyRows(resolve, c.programmes); }
    SettledAt(resolve, labels, c, p, d, i);
    SluglessIs(resolve, r);
    KeyGiven(resolve, labels, c, p, r);
    SettledColumns(resolve, p, r);
    if Slugless(resolve, r) {
      CandIs(resolve, r);
      if SlugFor(p.slugs, r.id) == None && Cand(resolve, r) != "" { KeyIsTaken(resolve, labels, c, p, d, Cand(resolve, r)); }
      var j := resolve(Said(r.territory)).value;
      if r.programmeId == Some(Candidate(CodeOf(j), Said(r.program))) { KeyNotBlank(r, CodeOf(j), Said(r.program)); }
    }
  }

  /** A key built for a row is not blank text stored before. */
  lemma {:induction false} KeyNotBlank(r: Programme, place: string, program: string)
    requires Unset(r.programmeId) && r.programmeId == Some(Candidate(place, program))
    ensures Candidate(place, program) == ""
  {
    hide Candidate, Strip, IsSlug;
    CandidateIsSlug(place, program);
    NoBlanksInSlug(Candidate(place, program));
  }

  lemma {:induction false} OrderlyRows(resolve: Resolver, rows: seq<Programme>)
    requires Orderly(resolve, rows)
    ensures DistinctRows(rows)
  {
  }

  // ---- the inputs after an apply ---------------------------------------------------------------------

  /** The programme, known by `slug` after the apply, needs this input and nobody had
      declared it. */
  ghost predicate Due(resolve: Resolver, inputs: map<string, InputRow>, x: Programme, slug: string, key: string) {
    && InScope(resolve, x) && slug == Strip(Said(x.programmeId)) && slug != ""
    && Statutory(EngineName(x), key) && !HasInput(inputs, slug, key)
  }

  /** The row a question becomes. */
  ghost predicate InputSays(labels: Labels, slug: string, key: string, x: InputRow) {
    x.id == slug + ":" + key && x.programmeId == slug && x.inputKey == key && x.wording == labels(key) && x.helpText == ""
  }

  /** Every question is worded by the labels. */
  lemma {:induction false} QuestionsWorded(resolve: Resolver, labels: Labels, inputs: map<string, InputRow>, taken: set<string>, rows: seq<Programme>)
    requires DistinctRows(rows)
    ensures forall q :: q in PlanFrom(resolve, labels, inputs, taken, rows).questions ==> q.wording == labels(q.key)
  {
    hide PlanRow, Required, Needed, Declared, Engine, SpendBased, Known, SlugFor;
    if rows != [] {
      var n := |rows| - 1;
      var front, last := rows[..n], rows[n];
      var p := PlanFrom(resolve, labels, inputs, taken, front);
      QuestionsWorded(resolve, labels, inputs, taken, front);
      FreshIdUnnamed(resolve, labels, inputs, taken, front, last.id);
      PlanRowReports(resolve, labels, inputs, p, last);
      AskWorded(labels, SlugOf(PlanRow(resolve, labels, inputs, p, last), last), Needed(Required(Engine(last)), Declared(inputs, SlugOf(PlanRow(resolve, labels, inputs, p, last), last))));
    }
  }

  lemma {:induction false} AskWorded(labels: Labels, slug: string, keys: seq<string>)
    ensures forall q :: q in Ask(labels, slug, keys) ==> q.wording == labels(q.key)
  {
  }

  /** What the row stands for before and after. */
  lemma {:induction false} SettledStands(resolve: Resolver, labels: Labels, c: Catalogue, p: Plan, d: Catalogue, r: Programme)
    requires Orderly(resolve, c.programmes) && AppliedTo(resolve, labels, c, p, d) && r in c.programmes
    ensures var x := Settle(resolve, p, r);
            && x in d.programmes && (Known(resolve, x) <==> Known(resolve, r)) && Engine(x) == Engine(r)
            && (Known(resolve, r) ==> Pid(x) == SlugOf(p, r))
  {
    hide PlanFrom, ApplyPlan, Settle, Active, Engine, SlugFor, Pid, Cand, Slugless, Orderly;
    OrderlyRows(resolve, c.programmes);
    AppliedRows(resolve, labels, c, p, d);
    RowSettles(resolve, labels, c.inputs, c.programmes, r);
  }

  /** Which row and key a question is for. */
  lemma {:induction false} AskedIsDue(resolve: Resolver, labels: Labels, c: Catalogue, p: Plan, d: Catalogue, q: Question) returns (x: Programme)
    requires Orderly(resolve, c.programmes) && AppliedTo(resolve, labels, c, p, d) && q in p.questions
    ensures x in d.programmes && Due(resolve, c.inputs, x, q.slug, q.key)
  {
    hide PlanFrom, ApplyPlan, Settle, Known, InScope, Engine, EngineName, Required, Statutory, Declared, HasInput, SlugFor, Reported, Handed, Orderly;
    OrderlyRows(resolve, c.programmes);
    EveryEntryAccounted(resolve, labels, c.inputs, Taken(c.programmes), c.programmes);
    assert Grounded(resolve, c.inputs, c.programmes, p);
    var r :| r in c.programmes && Asks(resolve, c.inputs, p, r, q);
    SettledStands(resolve, labels, c, p, d, r);
    x := Settle(resolve, p, r);
    ScopeIs(resolve, x);
    StatutoryIs(Engine(r), q.key);
    InputIs(c.inputs, q.slug, q.key);
  }

  /** Which question a due input has. */
  lemma {:induction false} DueIsAsked(resolve: Resolver, labels: Labels, c: Catalogue, p: Plan, d: Catalogue, x: Programme, slug: string, key: string)
    requires Orderly(resolve, c.programmes) && AppliedTo(resolve, labels, c, p, d) && x in d.programmes && Due(resolve, c.inputs, x, slug, key)
    ensures exists q :: q in p.questions && q.slug == slug && q.key == key
  {
    hide PlanFrom, ApplyPlan, Settle, Known, InScope, Engine, EngineName, Required, Statutory, Derivable, SpendBased, Declared, HasInput, SlugFor,
         Orderly, SlugOf, Slugless;
    OrderlyRows(resolve, c.programmes);
    AppliedRows(resolve, labels, c, p, d);
    var r :| r in c.programmes && x == Settle(resolve, p, r);
    SettledStands(resolve, labels, c, p, d, r);
    ScopeIs(resolve, x);
    StatutoryIs(Engine(r), key);
    StatutoryDerivable(Engine(r), key);
    SpendIs(r);
    InputIs(c.inputs, slug, key);
    EveryRowPlanned(resolve, labels, c.inputs, Taken(c.programmes), c.programmes);
    assert RowPlanned(resolve, c.inputs, Taken(c.programmes), p, r);
  }

  /** Applying the plan declares exactly the inputs that were due, each under slug:key
      and worded by its label, and leaves every input that was declared as it was. */
  lemma {:induction false} InputsApplied(resolve: Resolver, labels: Labels, c: Catalogue, p: Plan, d: Catalogue)
    requires Orderly(resolve, c.programmes) && AppliedTo(resolve, labels, c, p, d)
    ensures forall i :: i in c.inputs ==> i in d.inputs && d.inputs[i] == c.inputs[i]
    ensures forall x, slug, key :: x in d.programmes && Due(resolve, c.inputs, x, slug, key) ==>
              slug + ":" + key in d.inputs && InputSays(labels, slug, key, d.inputs[slug + ":" + key])
    ensures forall i :: i in d.inputs && i !in c.inputs ==>
              exists x, slug, key :: x in d.programmes && Due(resolve, c.inputs, x, slug, key) && InputSays(labels, slug, key, d.inputs[i])
  {
    hide PlanFrom, ApplyPlan, Due, Orderly;
    InputsKept(c, p, d);
    OrderlyRows(resolve, c.programmes);
    QuestionsWorded(resolve, labels, c.inputs, Taken(c.programmes), c.programmes);
    forall x, slug, key | x in d.programmes && Due(resolve, c.inputs, x, slug, key)
      ensures slug + ":" + key in d.inputs && InputSays(labels, slug, key, d.inputs[slug + ":" + key])
    {
      DueIsAsked(resolve, labels, c, p, d, x, slug, key);
      var q :| q in p.questions && q.slug == slug && q.key == key;
      assert d.inputs[q.slug + ":" + q.key] == QuestionRow(q);
    }
    forall i | i in d.inputs && i !in c.inputs
      ensures exists x, slug, key :: x in d.programmes && Due(resolve, c.inputs, x, slug, key) && InputSays(labels, slug, key, d.inputs[i])
    {
      var q :| q in p.questions && d.inputs[i] == QuestionRow(q);
      var x := AskedIsDue(resolve, labels, c, p, d, q);
      assert InputSays(labels, q.slug, q.key, d.inputs[i]);
    }
  }

  // ---- the reports -----------------------------------------------------------------------------------

  /** The plan lists as unresolved the active rows whose territory is unknown, as
      colliding those it could give no key, and as left to a person the bucket
      programmes nobody declared an input of, each by its name and territory. */
  lemma {:induction false} ReportsNameRows(resolve: Resolver, labels: Labels, c: Catalogue, e: (string, string))
    requires DistinctRows(c.programmes)
    ensures var p := PlanAll(resolve, labels, c.inputs, c.programmes);
            && (e in p.unresolved <==>
                exists r :: r in c.programmes && IsActive(r) && resolve(Said(r.territory)).None? && Named(r) == e)
            && (e in p.collisions <==>
                exists r :: r in c.programmes && InScope(resolve, r) && Unset(r.programmeId) && SlugFor(p.slugs, r.id) == None && Named(r) == e)
            && (e in p.multiBucket <==>
                exists r :: r in c.programmes && InScope(resolve, r) && EngineName(r) == "MULTI_BUCKET" && SlugOf(p, r) != ""
                            && (forall key :: !HasInput(c.inputs, SlugOf(p, r), key)) && Named(r) == e)
  {
    hide PlanFrom, Active, IsActive, Unset, Engine, EngineName, Declared, HasInput, SlugFor, SlugOf, Grounded, Handed, Where, Named, Known, InScope, Slugless;
    EveryEntryAccounted(resolve, labels, c.inputs, Taken(c.programmes), c.programmes);
    var p := PlanAll(resolve, labels, c.inputs, c.programmes);
    assert Reported(resolve, c.inputs, c.programmes, p);
    forall r
      ensures Named(r) == Where(r)
      ensures Unresolved(resolve, r) <==> IsActive(r) && resolve(Said(r.territory)).None?
      ensures Collided(resolve, p, r) <==> InScope(resolve, r) && Unset(r.programmeId) && SlugFor(p.slugs, r.id) == None
      ensures LeftToAPerson(resolve, c.inputs, p, r) <==>
              InScope(resolve, r) && EngineName(r) == "MULTI_BUCKET" && SlugOf(p, r) != "" && forall key :: !HasInput(c.inputs, SlugOf(p, r), key)
    {
      ScopeIs(resolve, r);
      ActiveIs(r);
      SluglessIs(resolve, r);
      NoInputs(c.inputs, SlugOf(p, r));
    }
  }

  lemma {:induction false} NoInputs(inputs: map<string, InputRow>, slug: string)
    ensures Declared(inputs, slug) == {} <==> forall key :: !HasInput(inputs, slug, key)
  {
    hide Declared, HasInput;
    forall key ensures key in Declared(inputs, slug) <==> HasInput(inputs, slug, key) { InputIs(inputs, slug, key); }
  }

  // ---- who gets a key two rows could have -----------------------------------------------------------

  /** No earlier row asks for the key. */
  ghost predicate AsksFirst(resolve: Resolver, rows: seq<Programme>, i: nat) {
    i < |rows| && forall j :: 0 <= j < i && Slugless(resolve, rows[j]) ==> Cand(resolve, rows[j]) != Cand(resolve, rows[i])
  }

  /** Of the rows that could have one key the first gets it, if nobody had it at the
      start; the others get none. */
  lemma {:induction false} FirstRowGetsKey(resolve: Resolver, labels: Labels, inputs: map<string, InputRow>, taken: set<string>, rows: seq<Programme>,
                                           i: nat)
    requires DistinctRows(rows) && i < |rows| && Slugless(resolve, rows[i])
    ensures var key := Cand(resolve, rows[i]);
            SlugFor(PlanFrom(resolve, labels, inputs, taken, rows).slugs, rows[i].id) ==
            if key != "" && key !in taken && AsksFirst(resolve, rows, i) then Some(key) else None
  {
    hide PlanRow, Slugless, Cand, SlugFor;
    var n := |rows| - 1;
    var front, last := rows[..n], rows[n];
    var p := PlanFrom(resolve, labels, inputs, taken, front);
    assert forall j :: 0 <= j < n ==> front[j] == rows[j];
    if i < n {
      FirstRowGetsKey(resolve, labels, inputs, taken, front, i);
      OthersStand(resolve, labels, inputs, p, last, rows[i]);
    } else {
      FreshIdUnnamed(resolve, labels, inputs, taken, front, last.id);
      PlanRowNaming(resolve, labels, inputs, p, last);
      AllocatedSlugs(resolve, labels, inputs, taken, front);
      SlugForSnoc(p.slugs, Naming(last.id, Cand(resolve, last)), last.id);
      AskedEarlier(resolve, rows, Cand(resolve, last));
    }
  }

  lemma {:induction false} AskedEarlier(resolve: Resolver, rows: seq<Programme>, key: string)
    requires rows != []
    ensures key in Candidates(resolve, rows[..|rows| - 1]) <==>
            exists j :: 0 <= j < |rows| - 1 && Slugless(resolve, rows[j]) && Cand(resolve, rows[j]) == key
  {
    hide Slugless, Cand;
    var front := rows[..|rows| - 1];
    assert forall j :: 0 <= j < |front| ==> front[j] == rows[j] && front[j] in front;
    if key in Candidates(resolve, front) {
      var r :| r in front && Slugless(resolve, r) && Cand(resolve, r) == key;
      var j :| 0 <= j < |front| && front[j] == r;
    }
  }

  // ---- how many could be answered already --------------------------------------------------------------

  /** The programme has a spend base, a key and every input its engine needs. */
  ghost predicate Answered(resolve: Resolver, inputs: map<string, InputRow>, p: Plan, r: Programme) {
    && InScope(resolve, r) && Derivable(EngineName(r)) && SlugOf(p, r) != ""
    && forall key :: Statutory(EngineName(r), key) ==> HasInput(inputs, SlugOf(p, r), key)
  }

  ghost function CountAnswered(resolve: Resolver, inputs: map<string, InputRow>, p: Plan, rows: seq<Programme>): nat {
    if rows == [] then 0
    else CountAnswered(resolve, inputs, p, rows[..|rows| - 1]) + if Answered(resolve, inputs, p, rows[|rows| - 1]) then 1 else 0
  }

  lemma {:induction false} NeededNone(required: seq<string>, have: set<string>)
    ensures Needed(required, have) == [] <==> forall k :: k in required ==> k in have
  {
    NeededMembers(required, have);
    if Needed(required, have) != [] { assert Needed(required, have)[0] in Needed(required, have); }
  }

  lemma {:induction false} PlanInputsAnswers(labels: Labels, inputs: map<string, InputRow>, p: Plan, r: Programme, slug: string)
    ensures PlanInputs(labels, inputs, p, r, slug).answerable ==
            p.answerable + if SpendBased(r) && Needed(Required(Engine(r)), Declared(inputs, slug)) == [] then 1 else 0
  {
    hide Needed, Required, Declared, Engine;
  }

  lemma {:induction false} PlanRowAnswers(resolve: Resolver, labels: Labels, inputs: map<string, InputRow>, p: Plan, r: Programme)
    requires SlugFor(p.slugs, r.id) == None
    ensures var q := PlanRow(resolve, labels, inputs, p, r);
            q.answerable == p.answerable + if Answered(resolve, inputs, q, r) then 1 else 0
  {
    hide Required, Needed, Engine, EngineName, Declared, HasInput, Statutory, Derivable, SlugFor, PlanRow, PlanInputs, Cand, Active, Blank, Pid,
         SpendBased, InScope, Known, Answered;
    var o, q := Opened(resolve, p, r), PlanRow(resolve, labels, inputs, p, r);
    PlanRowForm(resolve, labels, inputs, p, r);
    PlanInputsFrame(labels, inputs, o, r, SlugOf(o, r));
    PlanInputsAnswers(labels, inputs, o, r, SlugOf(o, r));
    assert SlugOf(q, r) == SlugOf(o, r);
    AnsweredIs(resolve, inputs, q, r);
    assert o.answerable == p.answerable;
  }

  lemma {:induction false} AnsweredIs(resolve: Resolver, inputs: map<string, InputRow>, p: Plan, r: Programme)
    ensures Answered(resolve, inputs, p, r) <==>
            Known(resolve, r) && SpendBased(r) && SlugOf(p, r) != "" && Needed(Required(Engine(r)), Declared(inputs, SlugOf(p, r))) == []
  {
    hide Required, Needed, Engine, EngineName, Declared, HasInput, Statutory, Derivable, SlugOf, SpendBased, InScope, Known;
    ScopeIs(resolve, r);
    SpendIs(r);
    var slug := SlugOf(p, r);
    NeededNone(Required(Engine(r)), Declared(inputs, slug));
    forall key ensures (key in Required(Engine(r)) <==> Statutory(EngineName(r), key)) && (key in Declared(inputs, slug) <==> HasInput(inputs, slug, key)) {
      StatutoryIs(Engine(r), key);
      InputIs(inputs, slug, key);
    }
  }

  lemma {:induction false} AnswersStand(resolve: Resolver, inputs: map<string, InputRow>, p: Plan, q: Plan, rows: seq<Programme>)
    requires forall r :: r in rows ==> SlugOf(q, r) == SlugOf(p, r)
    ensures CountAnswered(resolve, inputs, q, rows) == CountAnswered(resolve, inputs, p, rows)
  {
    hide SlugOf, InScope, Derivable, Statutory, HasInput;
    if rows != [] {
      var n := |rows| - 1;
      assert rows == rows[..n] + [rows[n]];
      AnswersStand(resolve, inputs, p, q, rows[..n]);
      assert rows[n] in rows;
      assert Answered(resolve, inputs, q, rows[n]) <==> Answered(resolve, inputs, p, rows[n]);
    }
  }

  /** The programmes counted as answerable already are those with a spend base, a key,
      old or new, and every input their engine needs. */
  lemma {:induction false} AnswerableCounted(resolve: Resolver, labels: Labels, inputs: map<string, InputRow>, taken: set<string>, rows: seq<Programme>)
    requires DistinctRows(rows)
    ensures var p := PlanFrom(resolve, labels, inputs, taken, rows); p.answerable == CountAnswered(resolve, inputs, p, rows)
  {
    hide PlanRow, Answered, SlugOf;
    if rows != [] {
      var n := |rows| - 1;
      var front, last := rows[..n], rows[n];
      var p := PlanFrom(resolve, labels, inputs, taken, front);
      var q := PlanRow(resolve, labels, inputs, p, last);
      AnswerableCounted(resolve, labels, inputs, taken, front);
      FreshIdUnnamed(resolve, labels, inputs, taken, front, last.id);
      PlanRowAnswers(resolve, labels, inputs, p, last);
      forall r | r in front ensures SlugOf(q, r) == SlugOf(p, r) { OthersStand(resolve, labels, inputs, p, last, r); }
      AnswersStand(resolve, inputs, p, q, front);
    }
  }
}
