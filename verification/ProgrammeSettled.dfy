/** The promises of enable_programme_questions over a plan, its apply and a re-plan. */
module ProgrammeSettled {
  import opened Base
  import opened Text
  import opened Slugs
  import opened Programmes
  import opened ProgrammeSlugs
  import opened ProgrammePlan
  import opened ProgrammeFixpoint

  // ---- inputs after an apply ---------------------------------------------------------

  /** No declared input is lost or reworded; the new ones are the questions. */
  lemma {:induction false} InputsKept(c: Catalogue, p: Plan, d: Catalogue)
    requires ApplyPlan(c, p) == Some(d)
    ensures forall i :: i in c.inputs ==> i in d.inputs && d.inputs[i] == c.inputs[i]
    ensures forall i :: i in d.inputs && i !in c.inputs ==> exists q :: q in p.questions && d.inputs[i] == QuestionRow(q)
    ensures forall q :: q in p.questions ==> q.slug + ":" + q.key in d.inputs && d.inputs[q.slug + ":" + q.key] == QuestionRow(q)
    ensures |d.inputs| == |c.inputs| + |p.questions|
  {
    hide Placed, Named;
    var ids, rows := QuestionIds(p.questions), QuestionRows(p.questions);
    InsertAllEffect(c.inputs, ids, rows);
    forall i | i in d.inputs && i !in c.inputs ensures exists q :: q in p.questions && d.inputs[i] == QuestionRow(q) {
      var k :| 0 <= k < |ids| && ids[k] == i;
      assert p.questions[k] in p.questions && d.inputs[i] == rows[k];
    }
    forall q | q in p.questions ensures q.slug + ":" + q.key in d.inputs && d.inputs[q.slug + ":" + q.key] == QuestionRow(q) {
      var k :| 0 <= k < |p.questions| && p.questions[k] == q;
      assert ids[k] == q.slug + ":" + q.key && rows[k] == QuestionRow(q);
    }
  }

  lemma {:induction false} DeclaredAfter(c: Catalogue, p: Plan, d: Catalogue, slug: string, key: string)
    requires ApplyPlan(c, p) == Some(d)
    ensures key in Declared(d.inputs, slug) <==> key in Declared(c.inputs, slug) || Asked(p, slug, key)
  {
    hide ApplyPlan;
    InputsKept(c, p, d);
    if Asked(p, slug, key) {
      var q :| q in p.questions && q.slug == slug && q.key == key;
      assert d.inputs[slug + ":" + key].inputKey == key;
    }
    if key in Declared(c.inputs, slug) {
      var i :| i in c.inputs && c.inputs[i].programmeId == slug && c.inputs[i].inputKey == key;
      assert i in d.inputs;
    }
    if key in Declared(d.inputs, slug) {
      var i :| i in d.inputs && d.inputs[i].programmeId == slug && d.inputs[i].inputKey == key;
      if i !in c.inputs {
        var q :| q in p.questions && d.inputs[i] == QuestionRow(q);
        assert q.slug == slug && q.key == key;
      }
    }
  }

  // ---- keys in use after an apply -------------------------------------------------------

  lemma {:induction false} BlankPid(r: Programme)
    requires Pid(r) != ""
    ensures Str(r.programmeId) != ""
  {
  }

  /** The row a new key was handed to. */
  lemma {:induction false} RowHandedTo(resolve: Resolver, labels: Labels, inputs: map<string, InputRow>, rows: seq<Programme>, s: string)
    returns (r: Programme)
    requires DistinctRows(rows) && s in SlugList(PlanAll(resolve, labels, inputs, rows).slugs)
    ensures r in rows && SlugFor(PlanAll(resolve, labels, inputs, rows).slugs, r.id) == Some(s) && Slugless(resolve, r)
  {
    hide PlanFrom, SlugFor, Cand, Slugless;
    var p := PlanAll(resolve, labels, inputs, rows);
    EveryEntryAccounted(resolve, labels, inputs, Taken(rows), rows);
    EveryRowPlanned(resolve, labels, inputs, Taken(rows), rows);
    var k :| 0 <= k < |p.slugs| && SlugList(p.slugs)[k] == s;
    assert p.slugs[k] in p.slugs;
    r :| r in rows && r.id == p.slugs[k].id && SlugFor(p.slugs, r.id) == Some(p.slugs[k].slug);
    assert RowPlanned(resolve, inputs, Taken(rows), p, r);
  }

  lemma {:induction false} TakenAfter(resolve: Resolver, labels: Labels, c: Catalogue, p: Plan, d: Catalogue, s: string)
    requires Orderly(resolve, c.programmes) && AppliedTo(resolve, labels, c, p, d)
    requires s in p.taken && s != ""
    ensures s in Taken(d.programmes)
  {
    hide PlanFrom, ApplyPlan, Settle, Strip, Cand, SlugFor, Active;
    var rows := c.programmes;
    AppliedRows(resolve, labels, c, p, d);
    AllocatedSlugs(resolve, labels, c.inputs, Taken(rows), rows);
    var r: Programme;
    if s in Taken(rows) {
      r :| r in rows && Str(r.programmeId) != "" && Pid(r) == s;
      RowSettles(resolve, labels, c.inputs, rows, r);
      assert Settle(resolve, p, r).programmeId == r.programmeId;
    } else {
      r := RowHandedTo(resolve, labels, c.inputs, rows, s);
      RowSettles(resolve, labels, c.inputs, rows, r);
      BlankPid(Settle(resolve, p, r));
    }
    assert Settle(resolve, p, r) in d.programmes;
  }

  // ---- the fixpoint -----------------------------------------------------------------------

  /** Every applied row is one the planner passes over. */
  lemma {:induction false} AppliedRowPassed(resolve: Resolver, labels: Labels, c: Catalogue, p: Plan, d: Catalogue, r: Programme)
    requires Orderly(resolve, c.programmes) && AppliedTo(resolve, labels, c, p, d) && r in c.programmes
    ensures Passed(resolve, d.inputs, Taken(d.programmes), Settle(resolve, p, r))
  {
    hide PlanFrom, ApplyPlan, Settle, Cand, SlugFor, Active, Blank, Strip, Required, Declared, Engine;
    var x := Settle(resolve, p, r);
    var rows := c.programmes;
    RowSettles(resolve, labels, c.inputs, rows, r);
    EveryRowPlanned(resolve, labels, c.inputs, Taken(rows), rows);
    assert RowPlanned(resolve, c.inputs, Taken(rows), p, r);
    if Known(resolve, x) && Pid(x) == "" && Cand(resolve, x) != "" {
      TakenAfter(resolve, labels, c, p, d, Cand(resolve, x));
    }
    if Known(resolve, x) && Pid(x) != "" && SpendBased(x) {
      forall key | key in Required(Engine(x)) ensures key in Declared(d.inputs, Pid(x)) {
        DeclaredAfter(c, p, d, Pid(x), key);
      }
    }
  }

  /** The buckets left to a person are the same before and after: no question is
      ever put under the key of a MULTI_BUCKET programme. */
  lemma {:induction false} BucketsUntouched(resolve: Resolver, labels: Labels, c: Catalogue, p: Plan, d: Catalogue, r: Programme)
    requires Orderly(resolve, c.programmes) && AppliedTo(resolve, labels, c, p, d) && r in c.programmes
    requires Known(resolve, r) && Engine(r) == MULTI_BUCKET && SlugOf(p, r) != ""
    ensures Declared(d.inputs, SlugOf(p, r)) == Declared(c.inputs, SlugOf(p, r))
  {
    hide PlanFrom, ApplyPlan, SlugFor, SlugOf, Active, Strip, Required, Declared, Slugless;
    var s, rows := SlugOf(p, r), c.programmes;
    EveryEntryAccounted(resolve, labels, c.inputs, Taken(rows), rows);
    forall key ensures key in Declared(d.inputs, s) <==> key in Declared(c.inputs, s) {
      DeclaredAfter(c, p, d, s, key);
      if Asked(p, s, key) {
        var q :| q in p.questions && q.slug == s && q.key == key;
        var x :| x in rows && Asks(resolve, c.inputs, p, x, q);
        KeysNameOneRow(resolve, labels, c.inputs, rows, r, x);
      }
    }
  }

  ghost predicate SameReports(p: Plan, q: Plan) {
    && (forall e :: e in p.unresolved <==> e in q.unresolved)
    && (forall e :: e in p.collisions <==> e in q.collisions)
    && (forall e :: e in p.multiBucket <==> e in q.multiBucket)
  }

  /** How a row stands in the second plan. */
  lemma {:induction false} StandsAsBefore(resolve: Resolver, labels: Labels, c: Catalogue, p: Plan, d: Catalogue, q: Plan, r: Programme)
    requires Orderly(resolve, c.programmes) && AppliedTo(resolve, labels, c, p, d) && r in c.programmes && q.slugs == []
    ensures var x := Settle(resolve, p, r);
            && Where(x) == Where(r)
            && (Unresolved(resolve, x) <==> Unresolved(resolve, r))
            && (Collided(resolve, q, x) <==> Collided(resolve, p, r))
            && (LeftToAPerson(resolve, d.inputs, q, x) <==> LeftToAPerson(resolve, c.inputs, p, r))
  {
    hide PlanFrom, ApplyPlan, Settle, Cand, Active, Blank, Strip, Declared, Engine;
    RowSettles(resolve, labels, c.inputs, c.programmes, r);
    if Known(resolve, r) && Engine(r) == MULTI_BUCKET && SlugOf(p, r) != "" { BucketsUntouched(resolve, labels, c, p, d, r); }
  }

  lemma {:induction false} ReportsUnchanged(resolve: Resolver, labels: Labels, c: Catalogue, p: Plan, d: Catalogue, rows: seq<Programme>, q: Plan)
    requires Orderly(resolve, c.programmes) && AppliedTo(resolve, labels, c, p, d)
    requires forall x :: x in rows <==> x in d.programmes
    requires q.slugs == [] && Reported(resolve, c.inputs, c.programmes, p) && Reported(resolve, d.inputs, rows, q)
    ensures SameReports(p, q)
  {
    hide PlanFrom, ApplyPlan, Settle, Unresolved, Collided, LeftToAPerson;
    AppliedRows(resolve, labels, c, p, d);
    forall r | r in c.programmes
      ensures var x := Settle(resolve, p, r);
              && x in rows && Where(x) == Where(r)
              && (Unresolved(resolve, x) <==> Unresolved(resolve, r))
              && (Collided(resolve, q, x) <==> Collided(resolve, p, r))
              && (LeftToAPerson(resolve, d.inputs, q, x) <==> LeftToAPerson(resolve, c.inputs, p, r))
    {
      StandsAsBefore(resolve, labels, c, p, d, q, r);
    }
    forall x | x in rows
      ensures exists r :: r in c.programmes && x == Settle(resolve, p, r)
    {
    }
  }

  /** Planning after applying, whatever the row order, finds no jurisdiction, key
      or question left, and the same rows unresolved, colliding or left to a person. */
  lemma {:induction false} PlanFixpoint(resolve: Resolver, labels: Labels, c: Catalogue, p: Plan, d: Catalogue, rows: seq<Programme>)
    requires Orderly(resolve, c.programmes) && AppliedTo(resolve, labels, c, p, d)
    requires multiset(rows) == multiset(d.programmes)
    ensures var q := PlanAll(resolve, labels, d.inputs, rows);
            q.jurisdictions == [] && q.slugs == [] && q.questions == [] && SameReports(p, q)
  {
    hide PlanFrom, ApplyPlan, Settle, Passed, SameReports, Reported, Pid;
    var q := PlanAll(resolve, labels, d.inputs, rows);
    assert forall x :: x in rows <==> x in d.programmes by {
      assert forall x :: x in rows <==> x in multiset(rows);
      assert forall x :: x in d.programmes <==> x in multiset(d.programmes);
    }
    assert Taken(rows) == Taken(d.programmes);
    AppliedRows(resolve, labels, c, p, d);
    forall x | x in rows ensures Passed(resolve, d.inputs, Taken(rows), x) {
      var r :| r in c.programmes && x == Settle(resolve, p, r);
      AppliedRowPassed(resolve, labels, c, p, d, r);
    }
    NothingLeft(resolve, labels, d.inputs, Taken(rows), rows);
    EveryEntryAccounted(resolve, labels, c.inputs, Taken(c.programmes), c.programmes);
    ShuffledRowsDistinct(c, p, d, rows);
    EveryEntryAccounted(resolve, labels, d.inputs, Taken(rows), rows);
    ReportsUnchanged(resolve, labels, c, p, d, rows, q);
  }

  /** Applying keeps primary keys, and so does any other order. */
  lemma {:induction false} ShuffledRowsDistinct(c: Catalogue, p: Plan, d: Catalogue, rows: seq<Programme>)
    requires DistinctRows(c.programmes) && ApplyPlan(c, p) == Some(d) && multiset(rows) == multiset(d.programmes)
    ensures DistinctRows(rows)
  {
    PlacedKeepsId(c.programmes, p.jurisdictions);
    NamedKeepsId(PlacedRows(c.programmes, p.jurisdictions), p.slugs);
    assert DistinctRows(d.programmes);
    DistinctByMultiset(d.programmes, rows);
  }

  lemma {:induction false} DistinctByMultiset(a: seq<Programme>, b: seq<Programme>)
    requires DistinctRows(a) && multiset(a) == multiset(b)
    ensures DistinctRows(b)
  {
    forall i, j | 0 <= i < j < |b| ensures b[i].id != b[j].id {
      if b[i] == b[j] {
        assert b == b[..i] + [b[i]] + b[i + 1..j] + [b[j]] + b[j + 1..];
        assert multiset(a)[b[i]] >= 2;
        OnceInDistinct(a, b[i]);
        assert false;
      }
      assert b[i] in multiset(a) && b[j] in multiset(a);
      var x :| 0 <= x < |a| && a[x] == b[i];
      var y :| 0 <= y < |a| && a[y] == b[j];
    }
  }

  lemma {:induction false} OnceInDistinct(a: seq<Programme>, r: Programme)
    requires DistinctRows(a)
    ensures multiset(a)[r] <= 1
  {
    if a != [] {
      var n := |a| - 1;
      assert a == a[..n] + [a[n]];
      OnceInDistinct(a[..n], r);
      forall i | 0 <= i < n ensures a[..n][i] != a[n] { assert a[i].id != a[n].id; }
      assert a[n] !in multiset(a[..n]);
    }
  }

  /** After an apply every active, placed, spend-based programme that has a key
      has every input its engine needs. */
  lemma {:induction false} EveryInputDeclared(resolve: Resolver, labels: Labels, c: Catalogue, p: Plan, d: Catalogue, x: Programme)
    requires Orderly(resolve, c.programmes) && AppliedTo(resolve, labels, c, p, d) && x in d.programmes
    requires Known(resolve, x) && SpendBased(x) && Pid(x) != ""
    ensures !Blank(Str(x.country)) && forall key :: key in Required(Engine(x)) ==> key in Declared(d.inputs, Pid(x))
  {
    hide PlanFrom, ApplyPlan, Settle, Required, Declared, Active, Blank, Strip;
    AppliedRows(resolve, labels, c, p, d);
    var r :| r in c.programmes && x == Settle(resolve, p, r);
    AppliedRowPassed(resolve, labels, c, p, d, r);
  }

  /** A key, a country or a declared input already set is never overwritten, and a
      row out of scope is not touched. The subdivision is another matter: it is
      written with the country, and kept exactly when the row is out of scope, or
      has a country, or has the resolved subdivision already. */
  lemma {:induction false} SetValuesKept(resolve: Resolver, labels: Labels, c: Catalogue, p: Plan, d: Catalogue, r: Programme)
    requires Orderly(resolve, c.programmes) && AppliedTo(resolve, labels, c, p, d) && r in c.programmes
    ensures var x := Settle(resolve, p, r);
            && x in d.programmes && x.id == r.id
            && (Pid(r) != "" ==> x.programmeId == r.programmeId)
            && (!Blank(Str(r.country)) ==> x.country == r.country)
            && (!Known(resolve, r) ==> x == r)
            && (x.subdivision == r.subdivision <==>
                !Known(resolve, r) || !Blank(Str(r.country)) || resolve(Str(r.territory)).value.subdivisionId == r.subdivision)
    ensures forall i :: i in c.inputs ==> i in d.inputs && d.inputs[i] == c.inputs[i]
  {
    hide PlanFrom, ApplyPlan, Settle, Active, Blank, Strip, Declared, SlugFor;
    AppliedRows(resolve, labels, c, p, d);
    RowSettles(resolve, labels, c.inputs, c.programmes, r);
    SubdivisionSettles(resolve, p, r);
    InputsKept(c, p, d);
  }

  lemma {:induction false} SubdivisionSettles(resolve: Resolver, p: Plan, r: Programme)
    ensures Settle(resolve, p, r).subdivision == PlaceFor(resolve, r).subdivision
  {
    hide SlugFor, NeedsPlace;
  }

  /** A row with a subdivision and no country loses its subdivision when its
      territory resolves to the country alone. */
  lemma {:induction false} SubdivisionIsLost(resolve: Resolver, labels: Labels)
    requires resolve("Canada") == Some(Jurisdiction("CA", None))
    requires forall t :: resolve(t).Some? ==> !Blank(resolve(t).value.territoryId)
    ensures var r := Programme("1", None, Some("Film Incentive"), Some("Canada"), None, None, None, Some("CA-BC"));
            var c := Catalogue([r], map[]);
            var d := ApplyPlan(c, PlanAll(resolve, labels, c.inputs, c.programmes));
            d.Some? && |d.value.programmes| == 1 && d.value.programmes[0].id == "1" && d.value.programmes[0].subdivision == None
  {
    hide PlanFrom, Settle, Placed, Named, ApplyPlan, Blank, SpendBased, Active, Pid, Strip, Required, Declared, StoredKeysFit;
    var r := Programme("1", None, Some("Film Incentive"), Some("Canada"), None, None, None, Some("CA-BC"));
    var c := Catalogue([r], map[]);
    var p := PlanAll(resolve, labels, c.inputs, c.programmes);
    NoEngineRow(resolve, r);
    NothingToAsk(resolve, c, r);
    ApplyGoesThroughIff(resolve, labels, c);
    var d := ApplyPlan(c, p).value;
    OneRowKept(c, p, d);
    SetValuesKept(resolve, labels, c, p, d, r);
    SubdivisionSettles(resolve, p, r);
  }

  lemma {:induction false} NothingToAsk(resolve: Resolver, c: Catalogue, r: Programme)
    requires c.programmes == [r] && !SpendBased(r)
    ensures StoredKeysFit(resolve, c)
  {
    hide SpendBased, Required, Declared, Pid;
  }

  lemma {:induction false} OneRowKept(c: Catalogue, p: Plan, d: Catalogue)
    requires |c.programmes| == 1 && ApplyPlan(c, p) == Some(d)
    ensures |d.programmes| == 1
  {
  }

  lemma {:induction false} ActiveByDefault(r: Programme)
    requires r.status == None
    ensures Active(r)
  {
    hide Strip, Lower;
    StripKeeps("active");
    LowerKept("active");
  }

  lemma {:induction false} LowerKept(s: string)
    requires forall i :: 0 <= i < |s| ==> !IsUpper(s[i])
    ensures Lower(s) == s
  {
  }

  lemma {:induction false} UpperKept(s: string)
    requires forall i :: 0 <= i < |s| ==> !IsLower(s[i])
    ensures Upper(s) == s
  {
  }

  lemma {:induction false} NoEngineRow(resolve: Resolver, r: Programme)
    requires r.engineType == None && r.status == None && r.territory == Some("Canada") && resolve("Canada").Some?
    requires r.country == None && r.programmeId == None
    ensures Known(resolve, r) && Blank(Str(r.country)) && !SpendBased(r) && Pid(r) == ""
  {
    hide Active, Upper;
    ActiveByDefault(r);
    assert Strip("") == "";
  }

  // ---- the apply goes through ------------------------------------------------------------

  lemma {:induction false} CoreKeys()
    ensures Free(':', "local_core_expenditure") && |"local_core_expenditure"| == 22
    ensures Free(':', "global_core_expenditure") && |"global_core_expenditure"| == 23
  {
  }

  lemma {:induction false} SpendKeys()
    ensures Free(':', "eligible_local_spend") && |"eligible_local_spend"| == 20
    ensures Free(':', "qualified_labour") && |"qualified_labour"| == 16
    ensures Free(':', "qape") && |"qape"| == 4 && Free(':', "qnzpe") && |"qnzpe"| == 5
  {
  }

  lemma {:induction false} PostKeys()
    ensures Free(':', "vfx_expenditure") && |"vfx_expenditure"| == 15
    ensures Free(':', "pdv_expenditure") && |"pdv_expenditure"| == 15
  {
  }

  /** No engine asks for one input twice, and keys hold no colon and fit their column. */
  lemma {:induction false} RequiredKeys(engine: string)
    ensures Distinct(Required(engine)) && forall k :: k in Required(engine) ==> Free(':', k) && |k| <= 32
  {
    hide Free, Distinct;
    RequiredDistinct(engine);
    if engine == "CORE_LOWER_OF" { CoreKeys(); }
    else if engine == "VFX_ONLY" || engine == "PDV_ONLY" { PostKeys(); }
    else { SpendKeys(); }
  }

  lemma {:induction false} RequiredDistinct(engine: string)
    ensures Distinct(Required(engine))
  {
  }

  /** Input rows are stored under slug:key, as every migration writes them. */
  ghost predicate KeyedInputs(inputs: map<string, InputRow>) {
    forall i :: i in inputs ==> i == inputs[i].programmeId + ":" + inputs[i].inputKey && Free(':', inputs[i].inputKey)
  }

  lemma {:induction false} UndeclaredIsNew(inputs: map<string, InputRow>, slug: string, key: string)
    requires KeyedInputs(inputs) && Free(':', key) && key !in Declared(inputs, slug)
    ensures slug + ":" + key !in inputs
  {
    var id := slug + ":" + key;
    if id in inputs { LastSeparator(':', inputs[id].programmeId, inputs[id].inputKey, slug, key); }
  }

  lemma {:induction false} QuestionsAreNew(resolve: Resolver, labels: Labels, c: Catalogue)
    requires DistinctRows(c.programmes) && KeyedInputs(c.inputs)
    ensures Fresh(c.inputs, QuestionIds(PlanAll(resolve, labels, c.inputs, c.programmes).questions))
  {
    hide PlanFrom, Required, SlugOf, Active;
    var p := PlanAll(resolve, labels, c.inputs, c.programmes);
    var ids := QuestionIds(p.questions);
    EveryEntryAccounted(resolve, labels, c.inputs, Taken(c.programmes), c.programmes);
    forall id | id in ids ensures id !in c.inputs {
      var k :| 0 <= k < |ids| && ids[k] == id;
      var q := p.questions[k];
      assert q in p.questions;
      var r :| r in c.programmes && Asks(resolve, c.inputs, p, r, q);
      RequiredKeys(Engine(r));
      UndeclaredIsNew(c.inputs, q.slug, q.key);
    }
  }

  lemma {:induction false} NeededDistinct(required: seq<string>, have: set<string>)
    requires Distinct(required)
    ensures Distinct(Needed(required, have))
  {
    if required != [] {
      var n := |required| - 1;
      assert required == required[..n] + [required[n]];
      DistinctSnoc(required[..n], required[n]);
      NeededDistinct(required[..n], have);
      NeededMembers(required[..n], have);
      DistinctSnoc(Needed(required[..n], have), required[n]);
    }
  }

  /** Questions asked for one key never share an id. */
  lemma {:induction false} AskDistinct(labels: Labels, slug: string, keys: seq<string>)
    requires Distinct(keys)
    ensures Distinct(QuestionIds(Ask(labels, slug, keys)))
  {
    var ids := QuestionIds(Ask(labels, slug, keys));
    forall i, j | 0 <= i < j < |ids| ensures ids[i] != ids[j] {
      assert ids[i][|slug| + 1..] == keys[i] && ids[j][|slug| + 1..] == keys[j];
    }
  }

  /** No question is planned twice, so long as no two rows share a key. */
  lemma {:induction false} QuestionsDistinct(resolve: Resolver, labels: Labels, inputs: map<string, InputRow>, taken: set<string>,
                                             rows: seq<Programme>)
    requires DistinctRows(rows)
    requires forall r, x :: r in rows && x in rows && Pid(r) == Pid(x) != "" ==> r == x
    requires forall r :: r in rows && Pid(r) != "" ==> Pid(r) in taken
    ensures Distinct(QuestionIds(PlanFrom(resolve, labels, inputs, taken, rows).questions))
  {
    hide PlanRow, Pid;
    if rows != [] {
      var n := |rows| - 1;
      var front, last := rows[..n], rows[n];
      assert rows == front + [last];
      assert forall r :: r in front ==> r in rows && r.id != last.id;
      QuestionsDistinct(resolve, labels, inputs, taken, front);
      LastQuestionsDistinct(resolve, labels, inputs, taken, front, last);
    }
  }

  lemma {:induction false} LastQuestionsDistinct(resolve: Resolver, labels: Labels, inputs: map<string, InputRow>, taken: set<string>,
                                                 front: seq<Programme>, last: Programme)
    requires DistinctRows(front) && forall r :: r in front ==> r.id != last.id
    requires forall r :: r in front && Pid(r) != "" ==> Pid(r) in taken && Pid(r) != Pid(last)
    requires Pid(last) != "" ==> Pid(last) in taken
    requires Distinct(QuestionIds(PlanFrom(resolve, labels, inputs, taken, front).questions))
    ensures Distinct(QuestionIds(PlanRow(resolve, labels, inputs, PlanFrom(resolve, labels, inputs, taken, front), last).questions))
  {
    hide PlanRow, PlanFrom, Required, Active, Pid, SlugOf, SpendBased, Declared, Engine, Distinct, Needed, Free, SlugFor, Ask;
    var p := PlanFrom(resolve, labels, inputs, taken, front);
    var q := PlanRow(resolve, labels, inputs, p, last);
    FreshIdUnnamed(resolve, labels, inputs, taken, front, last.id);
    PlanRowReports(resolve, labels, inputs, p, last);
    if Known(resolve, last) && SpendBased(last) && SlugOf(q, last) != "" {
      var s := SlugOf(q, last);
      NeededAskable(labels, s, Required(Engine(last)), Declared(inputs, s), Engine(last));
      var needed := Needed(Required(Engine(last)), Declared(inputs, s));
      LastKeyUnasked(resolve, labels, inputs, taken, front, last, needed);
      MoreQuestions(p.questions, Ask(labels, s, needed));
    } else {
      assert q.questions == p.questions;
    }
  }

  lemma {:induction false} NeededAskable(labels: Labels, slug: string, required: seq<string>, have: set<string>, engine: string)
    requires required == Required(engine)
    ensures Distinct(QuestionIds(Ask(labels, slug, Needed(required, have))))
    ensures forall k :: k in Needed(required, have) ==> Free(':', k)
  {
    hide Required, Free, Distinct, Needed, Ask;
    RequiredKeys(engine);
    NeededDistinct(required, have);
    NeededMembers(required, have);
    AskDistinct(labels, slug, Needed(required, have));
  }

  lemma {:induction false} MoreQuestions(xs: seq<Question>, ys: seq<Question>)
    requires Distinct(QuestionIds(xs)) && Distinct(QuestionIds(ys))
    requires forall y :: y in QuestionIds(ys) ==> y !in QuestionIds(xs)
    ensures Distinct(QuestionIds(xs + ys))
  {
    hide Distinct;
    DistinctAppend(QuestionIds(xs), QuestionIds(ys));
    assert QuestionIds(xs + ys) == QuestionIds(xs) + QuestionIds(ys);
  }

  /** The key of a new row is not the key of a row planned before it. */
  lemma {:induction false} KeysApart(resolve: Resolver, labels: Labels, inputs: map<string, InputRow>, taken: set<string>, p: Plan,
                                     r: Programme, last: Programme)
    requires RowPlanned(resolve, inputs, taken, p, r) && SlugFor(p.slugs, last.id) == None && taken <= p.taken
    requires Pid(r) != "" ==> Pid(r) in taken && Pid(r) != Pid(last)
    requires Pid(last) != "" ==> Pid(last) in taken
    requires SlugOf(p, r) != "" && SlugOf(PlanRow(resolve, labels, inputs, p, last), last) != ""
    ensures SlugOf(p, r) != SlugOf(PlanRow(resolve, labels, inputs, p, last), last)
  {
    hide PlanRow, Required, SlugFor, Declared, Cand, SpendBased, Pid, Active;
    PlanRowNaming(resolve, labels, inputs, p, last);
    SlugForSnoc(p.slugs, Naming(last.id, Cand(resolve, last)), last.id);
  }

  /** The key of a row has not been asked about for an earlier row. */
  lemma {:induction false} LastKeyUnasked(resolve: Resolver, labels: Labels, inputs: map<string, InputRow>, taken: set<string>,
                                          front: seq<Programme>, last: Programme, needed: seq<string>)
    requires DistinctRows(front) && forall r :: r in front ==> r.id != last.id
    requires forall r :: r in front && Pid(r) != "" ==> Pid(r) in taken && Pid(r) != Pid(last)
    requires Pid(last) != "" ==> Pid(last) in taken
    requires forall k :: k in needed ==> Free(':', k)
    requires SlugOf(PlanRow(resolve, labels, inputs, PlanFrom(resolve, labels, inputs, taken, front), last), last) != ""
    ensures var p := PlanFrom(resolve, labels, inputs, taken, front);
            var s := SlugOf(PlanRow(resolve, labels, inputs, p, last), last);
            forall y :: y in QuestionIds(Ask(labels, s, needed)) ==> y !in QuestionIds(p.questions)
  {
    hide PlanRow, PlanFrom, Required, Active, SlugFor, Engine, Declared, Cand, RowPlanned, Pid, SlugOf, SpendBased;
    var p := PlanFrom(resolve, labels, inputs, taken, front);
    var s := SlugOf(PlanRow(resolve, labels, inputs, p, last), last);
    EveryEntryAccounted(resolve, labels, inputs, taken, front);
    EveryRowPlanned(resolve, labels, inputs, taken, front);
    FreshIdUnnamed(resolve, labels, inputs, taken, front, last.id);
    var ids, asked := QuestionIds(p.questions), QuestionIds(Ask(labels, s, needed));
    forall i, k | 0 <= i < |asked| && 0 <= k < |ids| ensures ids[k] != asked[i] {
      var x := p.questions[k];
      assert x in p.questions && needed[i] in needed;
      var r :| r in front && Asks(resolve, inputs, p, r, x);
      RequiredKeys(Engine(r));
      KeysApart(resolve, labels, inputs, taken, p, r, last);
      if ids[k] == asked[i] { LastSeparator(':', x.slug, x.key, s, needed[i]); }
    }
  }

  // ---- the width of the id column -------------------------------------------------------

  /** Every input a programme already known by a key still has to be asked for makes
      an id that fits. */
  ghost predicate StoredKeysFit(resolve: Resolver, c: Catalogue) {
    forall r, key ::
      (r in c.programmes && Known(resolve, r) && SpendBased(r) && Pid(r) != "" && key in Required(Engine(r))
       && key !in Declared(c.inputs, Pid(r))) ==> Fits(Pid(r), key)
  }

  /** Keys the planner builds always fit; only keys already stored can be too long. */
  lemma {:induction false} FitsIffStoredKeysFit(resolve: Resolver, labels: Labels, c: Catalogue)
    requires DistinctRows(c.programmes)
    ensures AllFit(PlanAll(resolve, labels, c.inputs, c.programmes).questions) <==> StoredKeysFit(resolve, c)
  {
    hide PlanFrom, Required, SlugOf, Active, Declared, Fits, Slugless, SpendBased, Pid, SlugFor;
    var p, rows := PlanAll(resolve, labels, c.inputs, c.programmes), c.programmes;
    EveryEntryAccounted(resolve, labels, c.inputs, Taken(rows), rows);
    EveryRowPlanned(resolve, labels, c.inputs, Taken(rows), rows);
    if StoredKeysFit(resolve, c) {
      forall q | q in p.questions ensures Fits(q.slug, q.key) {
        var r :| r in rows && Asks(resolve, c.inputs, p, r, q);
        if Pid(r) == "" {
          NewKeyFits(resolve, labels, c, r, q.key);
        } else {
          StoredKeyIsSlug(p, r);
        }
      }
    }
    if AllFit(p.questions) {
      forall r, key | r in rows && Known(resolve, r) && SpendBased(r) && Pid(r) != "" && key in Required(Engine(r))
        && key !in Declared(c.inputs, Pid(r))
        ensures Fits(Pid(r), key)
      {
        StoredKeyIsSlug(p, r);
        assert RowPlanned(resolve, c.inputs, Taken(rows), p, r);
        assert Asked(p, Pid(r), key);
      }
    }
  }

  lemma {:induction false} StoredKeyIsSlug(p: Plan, r: Programme)
    requires Pid(r) != ""
    ensures SlugOf(p, r) == Pid(r)
  {
    hide Pid, SlugFor;
  }

  lemma {:induction false} NewKeyFits(resolve: Resolver, labels: Labels, c: Catalogue, r: Programme, key: string)
    requires DistinctRows(c.programmes) && r in c.programmes && Pid(r) == "" && key in Required(Engine(r))
    requires SlugOf(PlanAll(resolve, labels, c.inputs, c.programmes), r) != ""
    ensures Fits(SlugOf(PlanAll(resolve, labels, c.inputs, c.programmes), r), key)
  {
    hide PlanFrom, Required, Pid, SlugFor, Active, IsSlug, Free;
    var p := PlanAll(resolve, labels, c.inputs, c.programmes);
    NamedSlugListed(p.slugs, r.id);
    NewSlugsAreSound(resolve, labels, c.inputs, c.programmes, SlugOf(p, r));
    RequiredKeys(Engine(r));
  }

  /** On an orderly catalogue whose inputs are stored under slug:key the plan is
      applied exactly when every stored key that still needs an input is short
      enough for the id of its question. */
  lemma {:induction false} ApplyGoesThroughIff(resolve: Resolver, labels: Labels, c: Catalogue)
    requires Orderly(resolve, c.programmes) && KeyedInputs(c.inputs)
    ensures ApplyPlan(c, PlanAll(resolve, labels, c.inputs, c.programmes)).Some? <==> StoredKeysFit(resolve, c)
  {
    hide PlanFrom, Placed, Named, AllFit, StoredKeysFit, InsertAll;
    var p := PlanAll(resolve, labels, c.inputs, c.programmes);
    QuestionsAreNew(resolve, labels, c);
    forall r | r in c.programmes && Pid(r) != "" ensures Pid(r) in Taken(c.programmes) { BlankPid(r); }
    QuestionsDistinct(resolve, labels, c.inputs, Taken(c.programmes), c.programmes);
    InsertAllSucceeds(c.inputs, QuestionIds(p.questions), QuestionRows(p.questions));
    FitsIffStoredKeysFit(resolve, labels, c);
  }

  /** A stored key may be 96 characters long: one of 44 that still has to be asked
      its eligible local spend makes the apply fail. */
  lemma {:induction false} LongStoredKeyIsRefused(resolve: Resolver, labels: Labels, key: string)
    requires |key| == 44 && Strip(key) == key && resolve("Canada").Some? && !Blank(resolve("Canada").value.territoryId)
    ensures var r := Programme("1", Some(key), None, Some("Canada"), None, Some("ELIGIBLE_LOCAL_SPEND"), Some("CA"), None);
            var c := Catalogue([r], map[]);
            ApplyPlan(c, PlanAll(resolve, labels, c.inputs, c.programmes)) == None
  {
    hide PlanFrom, AllFit, InsertAll, Placed, Named, Required, SpendBased, Engine, Active, Strip;
    var r := Programme("1", Some(key), None, Some("Canada"), None, Some("ELIGIBLE_LOCAL_SPEND"), Some("CA"), None);
    var c := Catalogue([r], map[]);
    LocalSpendRow(resolve, r);
    LocalSpendNeeds();
    assert r in c.programmes && "eligible_local_spend" in Required(Engine(r)) && !Fits(Pid(r), "eligible_local_spend");
    FitsIffStoredKeysFit(resolve, labels, c);
  }

  lemma {:induction false} LocalSpendRow(resolve: Resolver, r: Programme)
    requires r.engineType == Some("ELIGIBLE_LOCAL_SPEND") && r.status == None && r.territory == Some("Canada") && resolve("Canada").Some?
    ensures Known(resolve, r) && Engine(r) == "ELIGIBLE_LOCAL_SPEND" && SpendBased(r)
  {
    hide Active, Strip, Upper;
    ActiveByDefault(r);
    StripKeeps("ELIGIBLE_LOCAL_SPEND");
    UpperKept("ELIGIBLE_LOCAL_SPEND");
    LocalSpendWord();
  }

  lemma {:induction false} LocalSpendNeeds()
    ensures "eligible_local_spend" in Required("ELIGIBLE_LOCAL_SPEND") && |"eligible_local_spend"| == 20
  {
    assert "ELIGIBLE_LOCAL_SPEND" != "CORE_LOWER_OF" by { assert |"CORE_LOWER_OF"| == 13; }
  }

  lemma {:induction false} LocalSpendWord()
    ensures "ELIGIBLE_LOCAL_SPEND" !in NON_SPEND && "ELIGIBLE_LOCAL_SPEND" != MULTI_BUCKET
  {
    assert forall e :: e in NON_SPEND ==> e[0] != 'E';
    assert MULTI_BUCKET[0] == 'M';
  }
}
