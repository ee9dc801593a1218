/** The three staging scripts run in any order, any number of times. */
module StagingInterleaving {
  import opened Base
  import opened Text
  import opened Dates
  import opened Identity
  import opened Staging
  import opened StagingFacts
  import opened StagingInvariant
  import opened StagingTheorems
  import opened StagingVerified

  datatype Step =
    | Handoff(festivals: seq<SourceRow>, markets: seq<SourceRow>, live: set<string>, now: int, apply: bool)
    | Curate(cs: seq<CuratedCycle>, apply: bool)
    | Verify(items: seq<ParsedCycle>, apply: bool)

  /** The tables after one script has run, in preflight or applied, refused or not. */
  function After(h: Hash, sha: Digest, t: Tables, s: Step): Tables {
    match s
    case Handoff(festivals, markets, live, now, apply) => HandoffRun(sha, t, festivals, markets, live, now, apply).tables
    case Curate(cs, apply) => CuratedRun(h, t, cs, apply).tables
    case Verify(items, apply) => VerifiedRun(h, t, items, apply).tables
  }

  function Play(h: Hash, sha: Digest, t: Tables, steps: seq<Step>): Tables {
    if steps == [] then t else After(h, sha, Play(h, sha, t, steps[..|steps| - 1]), steps[|steps| - 1])
  }

  ghost predicate Typed(s: Step) {
    match s
    case Handoff(_, _, _, _, _) => true
    case Curate(cs, _) => CuratedFields(cs)
    case Verify(items, _) => ParsedFields(items)
  }

  lemma {:induction false} StepKeeps(h: Hash, sha: Digest, t: Tables, s: Step)
    requires Sound(h, sha, t) && Typed(s)
    ensures Sound(h, sha, After(h, sha, t, s)) && Keeps(t, After(h, sha, t, s))
  {
    match s
    case Handoff(festivals, markets, live, now, apply) => HandoffKeeps(h, sha, t, festivals, markets, live, now, apply);
    case Curate(cs, apply) => CuratedKeeps(h, sha, t, cs, apply);
    case Verify(items, apply) => VerifiedKeeps(h, sha, t, items, apply);
  }

  /** Safety over every run: rules have cycles, cycles have staged records, rows
      sit under their own identity, and records, tracks and cycles are never lost. */
  lemma {:induction false} EveryInterleaving(h: Hash, sha: Digest, t: Tables, steps: seq<Step>)
    requires Sound(h, sha, t) && forall s :: s in steps ==> Typed(s)
    ensures Sound(h, sha, Play(h, sha, t, steps)) && Keeps(t, Play(h, sha, t, steps))
  {
    if steps != [] {
      var n := |steps| - 1;
      assert steps == steps[..n] + [steps[n]];
      EveryInterleaving(h, sha, t, steps[..n]);
      StepKeeps(h, sha, Play(h, sha, t, steps[..n]), steps[n]);
    }
  }

  lemma {:induction false} EmptyIsSound(h: Hash, sha: Digest)
    ensures Sound(h, sha, Tables(map[], map[], map[], map[]))
  {
  }

  /** So whatever the scripts leave of an empty database is sound. */
  lemma {:induction false} EveryRunFromEmpty(h: Hash, sha: Digest, steps: seq<Step>)
    requires forall s :: s in steps ==> Typed(s)
    ensures Sound(h, sha, Play(h, sha, Tables(map[], map[], map[], map[]), steps))
  {
    hide Sound;
    EmptyIsSound(h, sha);
    EveryInterleaving(h, sha, Tables(map[], map[], map[], map[]), steps);
  }

  /** The two declared constraints the scripts never check hold of sound tables:
      the foreign key of a rule, and one row per section and deadline. */
  lemma {:induction false} DeclaredConstraintsHold(h: Hash, sha: Digest, t: Tables)
    requires Sound(h, sha, t)
    ensures forall r :: r in t.rules ==> t.rules[r].cycleId in t.cycles
    ensures forall a, b :: a in t.cycles && b in t.cycles && a != b ==>
              (t.cycles[a].kind, t.cycles[a].recordId, t.cycles[a].sectionName, t.cycles[a].cycleDeadline)
              != (t.cycles[b].kind, t.cycles[b].recordId, t.cycles[b].sectionName, t.cycles[b].cycleDeadline)
  {
  }

  // ---- only a claim about a cycle may move it -----------------------------------------

  /** An applied verified run that describes the cycle `c`. */
  ghost predicate Describes(h: Hash, s: Step, c: string) {
    s.Verify? && s.apply && exists p :: p in s.items && ParsedId(h, p) == c
  }

  /** A stored cycle and its stored rules, unchanged. */
  ghost predicate CycleKept(t: Tables, u: Tables, c: string)
    requires c in t.cycles
  {
    && c in u.cycles && u.cycles[c] == t.cycles[c]
    && forall k :: k in t.rules && t.rules[k].cycleId == c ==> k in u.rules && u.rules[k] == t.rules[k]
  }

  lemma {:induction false} VerifiedLeavesCycle(h: Hash, t: Tables, items: seq<ParsedCycle>, c: string)
    requires VerifiedRun(h, t, items, true).outcome.Done?
    requires c in t.cycles && forall p :: p in items ==> ParsedId(h, p) != c
    ensures CycleKept(t, VerifiedRun(h, t, items, true).tables, c)
  {
    hide VerifiedRun, Usable, WantedRules, WantedFlat;
    UsableMembers(t.records, items);
    WantedMembers(h, Usable(t.records, items));
    VerifiedCycles(h, t, items);
    VerifiedRules(h, t, items);
  }

  lemma {:induction false} StepLeavesCycle(h: Hash, sha: Digest, t: Tables, s: Step, c: string)
    requires c in t.cycles && !Describes(h, s, c)
    ensures CycleKept(t, After(h, sha, t, s), c)
  {
    hide CuratedRules, CheckCycles, CheckRules, FirstUnstaged, Usable, Unstaged, WantedRules, WantedFlat, NewRules, Inserts, Updates;
    match s
    case Handoff(festivals, markets, live, now, apply) =>
    case Curate(cs, apply) =>
      if apply && CuratedRun(h, t, cs, true).outcome.Done? { CuratedEffect(h, t, cs); }
    case Verify(items, apply) =>
      if apply && VerifiedRun(h, t, items, true).outcome.Done? { VerifiedLeavesCycle(h, t, items, c); }
  }

  /** Whatever runs, a cycle and its rules stay exactly as they are until an
      applied verified run describes that cycle. */
  lemma {:induction false} UndescribedCycleStays(h: Hash, sha: Digest, t: Tables, steps: seq<Step>, c: string)
    requires c in t.cycles && forall s :: s in steps ==> !Describes(h, s, c)
    ensures CycleKept(t, Play(h, sha, t, steps), c)
  {
    if steps != [] {
      var n := |steps| - 1;
      assert steps == steps[..n] + [steps[n]];
      UndescribedCycleStays(h, sha, t, steps[..n], c);
      StepLeavesCycle(h, sha, Play(h, sha, t, steps[..n]), steps[n], c);
    }
  }

  // ---- where the two cycle paths meet ---------------------------------------------------

  /** The reviewed entry says what the claim says: no opening date, verified, rules
      incomplete, and the same observation, source and check date. */
  predicate SaysTheSame(c: CuratedCycle, p: ParsedCycle) {
    && c.cycleOpen == None && c.cycleVerified && !c.rulesComplete
    && c.observedOpenOn == p.observedOpenOn && c.sourceUrl == p.sourceUrl && c.verifiedOn == p.verifiedOn
  }

  lemma {:induction false} AgreesIffSaysTheSame(h: Hash, c: CuratedCycle, p: ParsedCycle)
    requires Ideal(h) && CuratedId(h, c) == ParsedId(h, p)
    requires Free(':', c.kind) && Free(':', c.recordId) && Free(':', p.kind) && Free(':', p.recordId)
    ensures Agrees(CycleRow(h, p), CuratedRow(h, c)) <==> SaysTheSame(c, p)
  {
    hide CycleId, Ideal;
    CycleIdentity(h, c.kind, c.recordId, c.sectionName, Some(c.cycleDeadline), p.kind, p.recordId, p.sectionName, p.cycleDeadline);
  }

  ghost predicate PlainKeys(cs: seq<CuratedCycle>, items: seq<ParsedCycle>) {
    && (forall c :: c in cs ==> Free(':', c.kind) && Free(':', c.recordId))
    && (forall p :: p in items ==> Free(':', p.kind) && Free(':', p.recordId))
  }

  /** After a verified run the curated file goes through exactly when it says the
      same of every cycle a claim describes, and of everything else agrees with
      what is stored; one described cycle on which it says more is enough to have
      the whole file refused. */
  lemma {:induction false} VerifiedBlocksCurated(h: Hash, sha: Digest, t: Tables, items: seq<ParsedCycle>, cs: seq<CuratedCycle>)
    requires Stageable(h, sha, t, items) && PlainKeys(cs, items)
    ensures var u := VerifiedRun(h, t, items, true).tables;
            var usable, rows, rules := Usable(t.records, items), CuratedRows(h, cs), CuratedRules(h, cs);
            CuratedRun(h, u, cs, true).outcome.Done? <==>
            && (forall c :: c in cs ==> CuratedKey(c) in t.records)
            && (forall c :: c in cs ==> SaysTheSameAs(h, usable, c))
            && (forall c :: c in cs && CuratedId(h, c) !in ParsedIds(h, usable) ==> AgreesAt(h, t, c))
            && (forall x :: x in rules && x.id in u.rules ==> u.rules[x.id] == x)
            && NoNewTwice(u.cycles, CycleIds(rows)) && NoNewTwice(u.rules, RuleIds(rules))
  {
    hide VerifiedRun, CuratedRun, CuratedRules, Sound, Ideal, Agrees, Usable, NoNewTwice, SectionTaken, SaysTheSameAs, AgreesAt,
         RuleSetStaged, RuleRowsStaged, OtherRulesKept, ParsedFields, CyclesStaged, PlainKeys, CuratedRow;
    var u := VerifiedRun(h, t, items, true).tables;
    var usable, rows := Usable(t.records, items), CuratedRows(h, cs);
    VerifiedStages(h, sha, t, items);
    VerifiedKeeps(h, sha, t, items, true);
    CuratedAccepted(h, u, cs);
    CuratedRowMembers(h, cs);
    CuratedIdentified(h, cs);
    forall x | x in rows ensures !SectionTaken(u.cycles, x) { SoundSectionsFree(h, sha, u, x); }
    CyclesAgree(h, t, u, items, cs);
  }

  lemma {:induction false} CyclesAgree(h: Hash, t: Tables, u: Tables, items: seq<ParsedCycle>, cs: seq<CuratedCycle>)
    requires Ideal(h) && PlainKeys(cs, items) && CyclesStaged(h, t, u, Usable(t.records, items))
    ensures var usable := Usable(t.records, items);
            (forall x :: x in CuratedRows(h, cs) && x.id in u.cycles ==> Agrees(u.cycles[x.id], x)) <==>
            && (forall c :: c in cs ==> SaysTheSameAs(h, usable, c))
            && (forall c :: c in cs && CuratedId(h, c) !in ParsedIds(h, usable) ==> AgreesAt(h, t, c))
  {
    hide Ideal, Agrees, Usable, SaysTheSameAs, AgreesAt, CyclesStaged, CuratedId, CuratedRow;
    var usable := Usable(t.records, items);
    UsableMembers(t.records, items);
    RowsAgree(h, u, cs);
    forall c | c in cs
      ensures AgreesAt(h, u, c) <==> SaysTheSameAs(h, usable, c) && (CuratedId(h, c) !in ParsedIds(h, usable) ==> AgreesAt(h, t, c))
    {
      CycleAgrees(h, t, u, usable, cs, c);
    }
  }

  ghost predicate AgreesAt(h: Hash, u: Tables, c: CuratedCycle) {
    CuratedId(h, c) in u.cycles ==> Agrees(u.cycles[CuratedId(h, c)], CuratedRow(h, c))
  }

  ghost predicate SaysTheSameAs(h: Hash, usable: seq<ParsedCycle>, c: CuratedCycle) {
    forall p :: p in usable && CuratedId(h, c) == ParsedId(h, p) ==> SaysTheSame(c, p)
  }

  /** One reviewed entry: judged against the claim where there is one, against what
      was stored before where there is none. */
  lemma {:induction false} CycleAgrees(h: Hash, t: Tables, u: Tables, usable: seq<ParsedCycle>, cs: seq<CuratedCycle>, c: CuratedCycle)
    requires Ideal(h) && PlainKeys(cs, usable) && CyclesStaged(h, t, u, usable) && c in cs
    ensures AgreesAt(h, u, c) <==> SaysTheSameAs(h, usable, c) && (CuratedId(h, c) !in ParsedIds(h, usable) ==> AgreesAt(h, t, c))
  {
    hide Ideal, Agrees, SaysTheSame, CuratedId, ParsedId, CycleRow, CuratedRow;
    ParsedIdMembers(h, usable);
    if CuratedId(h, c) in ParsedIds(h, usable) {
      var q :| q in usable && ParsedId(h, q) == CuratedId(h, c);
      forall p | p in usable && CuratedId(h, c) == ParsedId(h, p)
        ensures Agrees(u.cycles[CuratedId(h, c)], CuratedRow(h, c)) <==> SaysTheSame(c, p)
      {
        AgreesIffSaysTheSame(h, c, p);
      }
    }
  }

  lemma {:induction false} RowsAgree(h: Hash, u: Tables, cs: seq<CuratedCycle>)
    ensures (forall x :: x in CuratedRows(h, cs) && x.id in u.cycles ==> Agrees(u.cycles[x.id], x)) <==> forall c :: c in cs ==> AgreesAt(h, u, c)
  {
    hide Agrees, CuratedId;
    CuratedRowMembers(h, cs);
    forall c | c in cs ensures CuratedRow(h, c) in CuratedRows(h, cs) && CuratedRow(h, c).id == CuratedId(h, c) { }
  }

  /** A reviewed rule the claim does not name is removed by every applied verified
      run and put back by every accepted curated run: the two never settle. */
  lemma {:induction false} UnwantedRuleGoes(h: Hash, sha: Digest, t: Tables, items: seq<ParsedCycle>, x: Rule)
    requires Stageable(h, sha, t, items) && Proper(h, x) && Free(':', x.cycleId)
    requires x.cycleId in ParsedIds(h, Usable(t.records, items)) && !Wants(h, Usable(t.records, items), x.id)
    ensures x.id !in VerifiedRun(h, t, items, true).tables.rules
  {
    hide VerifiedRun;
    var v := VerifiedRun(h, t, items, true).tables;
    VerifiedStages(h, sha, t, items);
    VerifiedKeeps(h, sha, t, items, true);
    if x.id in v.rules {
      assert RuleSound(h, v, x.id) && CycleSound(h, v, v.rules[x.id].cycleId);
      SameRuleSameCycle(h, x, v.rules[x.id]);
      assert false;
    }
  }

  lemma {:induction false} CuratedRuleComesAndGoes(h: Hash, sha: Digest, t: Tables, items: seq<ParsedCycle>, cs: seq<CuratedCycle>, x: Rule)
    requires Stageable(h, sha, t, items) && CuratedFields(cs)
    requires x in CuratedRules(h, cs) && x.cycleId in ParsedIds(h, Usable(t.records, items)) && !Wants(h, Usable(t.records, items), x.id)
    requires CuratedRun(h, VerifiedRun(h, t, items, true).tables, cs, true).outcome.Done?
    ensures var v := VerifiedRun(h, t, items, true).tables;
            var w := CuratedRun(h, v, cs, true).tables;
            var again := VerifiedRun(h, w, items, true);
            && x.id !in v.rules && x.id in w.rules
            && again.outcome.Done? && again.outcome.result.removedRules > 0 && x.id !in again.tables.rules
  {
    hide VerifiedRun, CuratedRun;
    hide Sound, Staged, CuratedCyclesIn;
    var v := VerifiedRun(h, t, items, true).tables;
    var w := CuratedRun(h, v, cs, true).tables;
    VerifiedStages(h, sha, t, items);
    VerifiedElsewhere(h, t, items, true);
    UsableMembers(t.records, items);
    VerifiedKeeps(h, sha, t, items, true);
    CuratedKeeps(h, sha, v, cs, true);
    CuratedEffect(h, v, cs);
    CuratedRulesMembers(h, cs);
    var c :| c in cs && x in CuratedRulesOf(h, c);
    CuratedRuleProper(h, c, x);
    assert Free(':', x.cycleId);
    UnwantedRuleGoes(h, sha, t, items, x);
    UnwantedRuleGoes(h, sha, w, items, x);
    VerifiedStages(h, sha, w, items);
    WantedIds(h, Usable(t.records, items));
    RemovedIsCounted(h, w, items, x.id);
  }

  /** The two paths at odds, concretely: one cycle, claimed without rules and
      reviewed with one gate. */
  lemma {:induction false} GateComesAndGoes(h: Hash, sha: Digest)
    requires Ideal(h)
    ensures var t, claim := FestTables(sha), FIRST_CLAIM.(rules := []);
            var gate := CuratedRule(h, GATED, 0);
            var v := VerifiedRun(h, t, [claim], true).tables;
            var curated := CuratedRun(h, v, [GATED], true);
            var again := VerifiedRun(h, curated.tables, [claim], true);
            && gate.id !in v.rules && curated.outcome.Done? && gate.id in curated.tables.rules
            && again.outcome.Done? && again.outcome.result.removedRules > 0 && gate.id !in again.tables.rules
  {
    hide VerifiedRun, CuratedRun, Sound, Ideal, Agrees, SectionTaken;
    var t, claim := FestTables(sha), FIRST_CLAIM.(rules := []);
    var gate := CuratedRule(h, GATED, 0);
    FestIsSound(h, sha);
    FestStageable(h, sha, t, claim);
    OneIsStageable(h, sha, t, claim);
    GateRows(h);
    var v := VerifiedRun(h, t, [claim], true).tables;
    OneCycleStaged(h, sha, t, claim);
    NothingWanted(h, claim, gate.id);
    UnwantedRuleGoes(h, sha, t, [claim], gate);
    GateAccepted(h, sha, t, claim, v);
    CuratedRuleComesAndGoes(h, sha, t, [claim], [GATED], gate);
  }

  const GATED := CuratedCycle(FESTIVAL, "fest", "Competition", None, None, Date(2026, 11, 15), true, false, "https://example.org",
                              Date(2026, 9, 18), [Gate("runtime_minutes", "at_least", "60", "https://example.org", "at least an hour")])

  /** The rows one reviewed entry with one gate makes. */
  lemma {:induction false} GateRows(h: Hash)
    requires Ideal(h)
    ensures CuratedRules(h, [GATED]) == [CuratedRule(h, GATED, 0)] && CuratedRows(h, [GATED]) == [CuratedRow(h, GATED)]
    ensures CuratedFields([GATED]) && Proper(h, CuratedRule(h, GATED, 0)) && Free(':', CuratedId(h, GATED))
    ensures CuratedRule(h, GATED, 0).cycleId == CuratedId(h, GATED) == ParsedId(h, FIRST_CLAIM.(rules := []))
  {
    hide CycleId, RuleId;
    assert [GATED][..0] == [];
    assert CuratedRules(h, []) == [];
    assert CuratedRulesOf(h, GATED) == [CuratedRule(h, GATED, 0)];
    assert CuratedRules(h, [GATED]) == [] + CuratedRulesOf(h, GATED);
    assert CuratedRule(h, GATED, 0) in CuratedRulesOf(h, GATED);
    CuratedRuleProper(h, GATED, CuratedRule(h, GATED, 0));
    HashIsFree(h, GATED);
  }

  lemma {:induction false} HashIsFree(h: Hash, c: CuratedCycle)
    requires Ideal(h)
    ensures Free(':', CuratedId(h, c))
  {
  }

  lemma {:induction false} NothingWanted(h: Hash, claim: ParsedCycle, k: string)
    requires claim.rules == []
    ensures !Wants(h, [claim], k) && ParsedIds(h, [claim]) == [ParsedId(h, claim)]
  {
  }

  lemma {:induction false} GateAccepted(h: Hash, sha: Digest, t: Tables, claim: ParsedCycle, v: Tables)
    requires Ideal(h) && claim == FIRST_CLAIM.(rules := []) && t == FestTables(sha) && v == VerifiedRun(h, t, [claim], true).tables
    requires Sound(h, sha, v) && v.records == t.records
    requires ParsedId(h, claim) in v.cycles && v.cycles[ParsedId(h, claim)] == CycleRow(h, claim)
    requires CuratedRule(h, GATED, 0).id !in v.rules
    ensures CuratedRun(h, v, [GATED], true).outcome.Done?
  {
    hide VerifiedRun, CuratedRun, Sound, Ideal, SectionTaken, CycleId, RuleId;
    GateRows(h);
    CuratedAccepted(h, v, [GATED]);
  }

  lemma {:induction false} RemovedIsCounted(h: Hash, t: Tables, items: seq<ParsedCycle>, k: string)
    requires VerifiedRun(h, t, items, true).outcome.Done?
    requires k in t.rules && t.rules[k].cycleId in ParsedIds(h, Usable(t.records, items))
    requires k !in RuleIds(WantedFlat(h, Usable(t.records, items)))
    ensures VerifiedRun(h, t, items, true).outcome.result.removedRules > 0
    ensures k !in VerifiedRun(h, t, items, true).tables.rules
  {
    hide Usable, WantedRules, WantedFlat, Inserts, Updates, NewRules, Unstaged, InsertAll, UpdateAll;
    var usable := Usable(t.records, items);
    ParsedIdMembers(h, usable);
    var current := CurrentRules(t.rules, WantedRules(h, usable).rules.Keys);
    var stale := set r | r in current && r !in RuleIds(WantedFlat(h, usable));
    assert k in stale;
    VerifiedRules(h, t, items);
    RuleIdMembers(WantedFlat(h, usable));
  }

  // ---- a corrected claim whose rule keeps its text -----------------------------------------

  function StageOne(h: Hash, t: Tables, p: ParsedCycle): Tables { VerifiedRun(h, t, [p], true).tables }

  lemma {:induction false} OneIsStageable(h: Hash, sha: Digest, t: Tables, p: ParsedCycle)
    requires Sound(h, sha, t) && Ideal(h) && ParsedFields([p]) && ParsedKey(p) in t.records
    ensures Usable(t.records, [p]) == [p] && Stageable(h, sha, t, [p])
  {
  }

  /** Staging a single described cycle. */
  lemma {:induction false} OneCycleStaged(h: Hash, sha: Digest, t: Tables, p: ParsedCycle)
    requires Sound(h, sha, t) && Ideal(h) && ParsedFields([p]) && ParsedKey(p) in t.records
    ensures var u := StageOne(h, t, p);
            && Sound(h, sha, u) && u.records == t.records
            && ParsedId(h, p) in u.cycles && u.cycles[ParsedId(h, p)] == CycleRow(h, p)
            && forall i :: 0 <= i < |p.rules| ==>
                 var x := RuleRow(h, p, i); x.id in u.rules && u.rules[x.id] == if x.id in t.rules then t.rules[x.id] else x
  {
    hide VerifiedRun, Sound, Keeps, RuleSetStaged, OtherRulesKept, WantedRules, WantedFlat, Usable, Stageable, Ideal;
    OneIsStageable(h, sha, t, p);
    VerifiedStages(h, sha, t, [p]);
    VerifiedKeeps(h, sha, t, [p], true);
    assert p in [p];
    OneRuleStaged(h, t, StageOne(h, t, p), p);
  }

  lemma {:induction false} OneRuleStaged(h: Hash, t: Tables, u: Tables, p: ParsedCycle)
    requires RuleRowsStaged(h, t, u, [p])
    ensures forall i :: 0 <= i < |p.rules| ==>
              var x := RuleRow(h, p, i); x.id in u.rules && u.rules[x.id] == if x.id in t.rules then t.rules[x.id] else x
  {
    forall i | 0 <= i < |p.rules|
      ensures var x := RuleRow(h, p, i); x.id in u.rules && u.rules[x.id] == if x.id in t.rules then t.rules[x.id] else x
    {
      var x := RuleRows(h, p)[i];
      assert p in [p] && x in RuleRows(h, p);
    }
  }

  /** Claims say the same rule in the same words of the same cycle, with another
      expected value, operator, source or date: after both runs the cycle is as
      the second claim has it and the rule is still the first one. */
  lemma {:induction false} CorrectedRuleKeepsOldContent(h: Hash, sha: Digest, t: Tables, before: ParsedCycle, after: ParsedCycle, i: nat)
    requires Sound(h, sha, t) && Ideal(h) && ParsedFields([before]) && ParsedFields([after]) && ParsedKey(before) in t.records
    requires ParsedKey(before) == ParsedKey(after) && ParsedId(h, before) == ParsedId(h, after)
    requires i < |before.rules| && i < |after.rules| && RuleRow(h, before, i).id == RuleRow(h, after, i).id
    requires RuleRow(h, before, i) != RuleRow(h, after, i) && RuleRow(h, before, i).id !in t.rules
    ensures var u := StageOne(h, StageOne(h, t, before), after);
            var x := RuleRow(h, after, i);
            && Sound(h, sha, u) && ParsedId(h, after) in u.cycles && u.cycles[ParsedId(h, after)] == CycleRow(h, after)
            && x.id in u.rules && u.rules[x.id] == RuleRow(h, before, i) != x
  {
    hide StageOne;
    hide Sound;
    OneCycleStaged(h, sha, t, before);
    OneCycleStaged(h, sha, StageOne(h, t, before), after);
  }

  const FEST_ROW := SourceRow("fest", "Example", None, None, false, map[])
  const WORDING := ParsedRule("runtime_minutes", "at_least", "60", "runtime_minutes at_least 60")
  const FIRST_CLAIM := ParsedCycle(FESTIVAL, "fest", "Competition", Some(Date(2026, 11, 15)), DATED, None, "https://example.org",
                                   Date(2026, 9, 18), None, [WORDING])

  function FestTables(sha: Digest): Tables {
    Tables(map[RecordKey(FESTIVAL, "fest") := RecordRow(sha, FESTIVAL, FEST_ROW, 0)], map[], map[], map[])
  }

  /** A concrete case: from tables holding one record, the claim is staged, then
      verified again two days later and staged again. Both runs go through; the
      cycle takes the new date and its rule does not. */
  lemma {:induction false} ReverifiedRuleKeepsOldDate(h: Hash, sha: Digest)
    requires Ideal(h)
    ensures var t, again := FestTables(sha), FIRST_CLAIM.(verifiedOn := Date(2026, 9, 20));
            var first := VerifiedRun(h, t, [FIRST_CLAIM], true);
            var second := VerifiedRun(h, first.tables, [again], true);
            var cycle, rule := ParsedId(h, again), RuleRow(h, again, 0).id;
            && first.outcome.Done? && second.outcome.Done?
            && cycle in second.tables.cycles && rule in second.tables.rules && second.tables.rules[rule].cycleId == cycle
            && second.tables.cycles[cycle].verifiedOn == Date(2026, 9, 20)
            && second.tables.rules[rule].verifiedOn == Date(2026, 9, 18)
  {
    hide VerifiedRun, Sound, Ideal;
    var t, again := FestTables(sha), FIRST_CLAIM.(verifiedOn := Date(2026, 9, 20));
    FestIsSound(h, sha);
    FestStageable(h, sha, t, FIRST_CLAIM);
    OneCycleStaged(h, sha, t, FIRST_CLAIM);
    FestStageable(h, sha, StageOne(h, t, FIRST_CLAIM), again);
    CorrectedRuleKeepsOldContent(h, sha, t, FIRST_CLAIM, again, 0);
  }

  lemma {:induction false} FestIsSound(h: Hash, sha: Digest)
    ensures Sound(h, sha, FestTables(sha))
  {
  }

  lemma {:induction false} FestStageable(h: Hash, sha: Digest, t: Tables, p: ParsedCycle)
    requires Sound(h, sha, t) && Ideal(h) && RecordKey(FESTIVAL, "fest") in t.records
    requires p.kind == FESTIVAL && p.recordId == "fest" && (p.rules == [WORDING] || p.rules == [])
    ensures ParsedFields([p]) && VerifiedRun(h, t, [p], true).outcome.Done?
  {
    hide VerifiedRun, Sound, Ideal;
    assert ParsedFields([p]);
    OneIsStageable(h, sha, t, p);
    VerifiedStages(h, sha, t, [p]);
  }
}
