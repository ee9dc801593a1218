/** The staging runs in terms of columns: what the reviewed file leaves in every
    column, which offence a refusal names, and what the counters count. */
module StagingColumns {
  import opened Base
  import opened Dates
  import opened Identity
  import opened Staging
  import opened StagingFacts
  import opened StagingInvariant
  import opened StagingTheorems

  // ---- the handoff run: refusal and report -----------------------------------------------

  /** The kind and row at place `i` of the two snapshots, festivals first. */
  function Incoming(festivals: seq<SourceRow>, markets: seq<SourceRow>, i: nat): (string, SourceRow)
    requires i < |festivals| + |markets|
  {
    if i < |festivals| then ("FESTIVAL", festivals[i]) else ("MARKET_LAB_WIP", markets[i - |festivals|])
  }

  /** The row is staged with another payload hash. */
  ghost predicate Moved(sha: Digest, t: Tables, item: (string, SourceRow)) {
    var k := RecordKey(item.0, item.1.id);
    k in t.records && t.records[k].payloadHash != sha(item.1)
  }

  lemma {:induction false} FirstChangedIs(records: map<RecordKey, HandoffRecord>, rows: seq<HandoffRecord>, key: RecordKey)
    ensures FirstChanged(records, rows) == Some(key) <==>
            exists i :: 0 <= i < |rows| && KeyOf(rows[i]) == key && Changed(records, rows[i]) && forall j :: 0 <= j < i ==> !Changed(records, rows[j])
  {
    hide Changed;
    if rows != [] {
      var n := |rows| - 1;
      FirstChangedIs(records, rows[..n], key);
      FirstChangedNone(records, rows[..n]);
      assert forall j :: 0 <= j < n ==> rows[..n][j] == rows[j];
      if FirstChanged(records, rows[..n]).Some? {
        var x :| x in rows[..n] && Changed(records, x);
        var j :| 0 <= j < n && rows[j] == x;
      }
      if FirstChanged(records, rows) == Some(key) && FirstChanged(records, rows[..n]).None? {
        assert forall j :: 0 <= j < n ==> rows[j] in rows[..n];
        assert KeyOf(rows[n]) == key && Changed(records, rows[n]);
      }
    }
  }

  lemma {:induction false} IncomingRow(sha: Digest, festivals: seq<SourceRow>, markets: seq<SourceRow>, now: int, i: nat)
    requires i < |festivals| + |markets|
    ensures var rows, item := SourceRecords(sha, festivals, markets, now), Incoming(festivals, markets, i);
            |rows| == |festivals| + |markets| && KeyOf(rows[i]) == RecordKey(item.0, item.1.id) && rows[i].payloadHash == sha(item.1)
  {
  }

  /** A handoff run is refused for a changed record exactly when one is, and names
      the first of them; refused or previewed, it writes nothing. */
  lemma {:induction false} HandoffRefusal(sha: Digest, t: Tables, festivals: seq<SourceRow>, markets: seq<SourceRow>,
                                          live: set<string>, now: int, apply: bool, key: RecordKey)
    ensures var run := HandoffRun(sha, t, festivals, markets, live, now, apply);
            && (run.outcome == Refused(RecordChanged(key)) <==>
                exists i :: 0 <= i < |festivals| + |markets| && Moved(sha, t, Incoming(festivals, markets, i))
                            && key == RecordKey(Incoming(festivals, markets, i).0, Incoming(festivals, markets, i).1.id)
                            && forall j :: 0 <= j < i ==> !Moved(sha, t, Incoming(festivals, markets, j)))
            && (run.outcome.Refused? ==> run.outcome.reason.RecordChanged? || (apply && run.outcome.reason == DuplicateKey))
            && (!apply || run.outcome.Refused? ==> run.tables == t)
  {
    hide SourceRecords, NewRecords, NewTracks, InsertAll, Incoming;
    var rows := SourceRecords(sha, festivals, markets, now);
    FirstChangedIs(t.records, rows, key);
    assert |rows| == |festivals| + |markets| by { RowCount(sha, festivals, markets, now); }
    forall i | 0 <= i < |rows|
      ensures KeyOf(rows[i]) == RecordKey(Incoming(festivals, markets, i).0, Incoming(festivals, markets, i).1.id)
      ensures Changed(t.records, rows[i]) <==> Moved(sha, t, Incoming(festivals, markets, i))
    {
      IncomingRow(sha, festivals, markets, now, i);
    }
  }

  lemma {:induction false} RowCount(sha: Digest, festivals: seq<SourceRow>, markets: seq<SourceRow>, now: int)
    ensures |SourceRecords(sha, festivals, markets, now)| == |festivals| + |markets|
  {
  }

  /** The live festivals the snapshot has a row of. */
  ghost function Matched(festivals: seq<SourceRow>, live: set<string>): set<string> {
    set id | id in live && exists r :: r in festivals && r.id == id
  }

  lemma {:induction false} SplitCount(live: set<string>, ids: set<string>)
    ensures |live * ids| + |live - ids| == |live|
  {
    assert live == live * ids + (live - ids);
  }

  /** The report of a handoff run that goes through: preflight and applied agree, the
      two lengths are the snapshots', and every live festival is matched by a
      snapshot row or counted as unmatched. */
  lemma {:induction false} HandoffReport(sha: Digest, t: Tables, festivals: seq<SourceRow>, markets: seq<SourceRow>, live: set<string>, now: int)
    requires HandoffRun(sha, t, festivals, markets, live, now, true).outcome.Done?
    ensures var preview, run := HandoffRun(sha, t, festivals, markets, live, now, false), HandoffRun(sha, t, festivals, markets, live, now, true);
            && preview.outcome.Done? && !preview.outcome.result.applied && preview.outcome.result.(applied := true) == run.outcome.result
            && run.outcome.result.festivals == |festivals| && run.outcome.result.markets == |markets|
            && run.outcome.result.matched == |Matched(festivals, live)|
            && run.outcome.result.matched + run.outcome.result.unmatched == |live|
  {
    hide SourceRecords, FirstChanged, NewRecords, NewTracks, InsertAll;
    assert Matched(festivals, live) == live * SnapshotIds(festivals);
    SplitCount(live, SnapshotIds(festivals));
  }

  // ---- the curated run, column by column ----------------------------------------------------

  /** A stored cycle says what the reviewed entry says, in every column it carries. */
  ghost predicate EntrySays(h: Hash, c: CuratedCycle, x: Cycle) {
    && x.id == CycleId(h, c.kind, c.recordId, c.sectionName, Some(c.cycleDeadline))
    && x.kind == c.kind && x.recordId == c.recordId && x.sectionName == c.sectionName
    && x.cycleOpen == c.cycleOpen && x.observedOpenOn == c.observedOpenOn && x.cycleDeadline == Some(c.cycleDeadline)
    && x.cycleVerified == c.cycleVerified && x.rulesComplete == c.rulesComplete
    && x.sourceUrl == c.sourceUrl && x.verifiedOn == c.verifiedOn
  }

  function EntryId(h: Hash, c: CuratedCycle): string { CycleId(h, c.kind, c.recordId, c.sectionName, Some(c.cycleDeadline)) }

  function GateId(h: Hash, c: CuratedCycle, i: nat): string
    requires i < |c.gates|
  {
    RuleId(h, EntryId(h, c), i, c.gates[i].field, c.gates[i].condition)
  }

  /** A stored rule says what the entry's `i`th gate says, checked when the entry was. */
  ghost predicate GateSays(h: Hash, c: CuratedCycle, i: nat, x: Rule)
    requires i < |c.gates|
  {
    && x.id == GateId(h, c, i) && x.cycleId == EntryId(h, c)
    && x.projectField == c.gates[i].field && x.operator == c.gates[i].operator && x.expected == c.gates[i].expected
    && x.condition == c.gates[i].condition && x.sourceUrl == c.gates[i].sourceUrl && x.verifiedOn == c.verifiedOn
  }

  lemma {:induction false} AgreeingIsSaying(h: Hash, c: CuratedCycle, x: Cycle)
    ensures Agrees(x, CuratedRow(h, c)) <==> EntrySays(h, c, x)
  {
    hide CycleId;
  }

  lemma {:induction false} GateRowSays(h: Hash, c: CuratedCycle, i: nat, x: Rule)
    requires i < |c.gates|
    ensures x == CuratedRule(h, c, i) <==> GateSays(h, c, i, x)
  {
    hide CycleId, RuleId;
  }

  /** The rules of the file are its gates. */
  lemma {:induction false} CuratedGates(h: Hash, cs: seq<CuratedCycle>)
    ensures forall x :: x in CuratedRules(h, cs) <==> exists c, i :: c in cs && 0 <= i < |c.gates| && x == CuratedRule(h, c, i)
  {
    hide CuratedRules, CuratedRule;
    CuratedRulesMembers(h, cs);
    forall x ensures x in CuratedRules(h, cs) <==> exists c, i :: c in cs && 0 <= i < |c.gates| && x == CuratedRule(h, c, i) {
      if c, i :| c in cs && 0 <= i < |c.gates| && x == CuratedRule(h, c, i) {
        assert CuratedRulesOf(h, c)[i] in CuratedRulesOf(h, c);
      }
    }
  }

  /** One reviewed entry after the run. */
  ghost predicate EntryStaged(h: Hash, t: Tables, u: Tables, c: CuratedCycle) {
    && EntryId(h, c) in u.cycles && EntrySays(h, c, u.cycles[EntryId(h, c)])
    && (EntryId(h, c) !in t.cycles ==> u.cycles[EntryId(h, c)].cycleState == "DATED" && u.cycles[EntryId(h, c)].premiere == None)
    && forall i :: 0 <= i < |c.gates| ==> GateId(h, c, i) in u.rules && GateSays(h, c, i, u.rules[GateId(h, c, i)])
  }

  lemma {:induction false} EntryIsStaged(h: Hash, t: Tables, u: Tables, cs: seq<CuratedCycle>, c: CuratedCycle)
    requires c in cs && CuratedCyclesIn(h, t, u, cs) && CuratedRulesIn(h, t, u, cs)
    ensures EntryStaged(h, t, u, c)
  {
    hide CycleId, RuleId, CuratedRules, Agrees, EntrySays;
    CuratedGates(h, cs);
    AgreeingIsSaying(h, c, u.cycles[EntryId(h, c)]);
    if EntryId(h, c) !in t.cycles {
      var b :| b in cs && u.cycles[EntryId(h, c)] == CuratedRow(h, b);
    }
    forall i | 0 <= i < |c.gates| ensures GateId(h, c, i) in u.rules && GateSays(h, c, i, u.rules[GateId(h, c, i)]) {
      assert CuratedRule(h, c, i) in CuratedRules(h, cs);
      GateRowSays(h, c, i, CuratedRule(h, c, i));
    }
  }

  /** An applied curated run that goes through stores every reviewed entry and gate
      in every column, adds nothing else, and leaves what was stored as it was. */
  lemma {:induction false} CuratedColumns(h: Hash, t: Tables, cs: seq<CuratedCycle>)
    requires CuratedRun(h, t, cs, true).outcome.Done?
    ensures var u := CuratedRun(h, t, cs, true).tables;
            && (forall c :: c in cs ==> EntryStaged(h, t, u, c))
            && (forall k :: k in t.cycles ==> k in u.cycles && u.cycles[k] == t.cycles[k])
            && (forall k :: k in u.cycles && k !in t.cycles ==> exists c :: c in cs && k == EntryId(h, c))
            && (forall k :: k in t.rules ==> k in u.rules && u.rules[k] == t.rules[k])
            && (forall k :: k in u.rules && k !in t.rules ==> exists c, i :: c in cs && 0 <= i < |c.gates| && k == GateId(h, c, i))
  {
    hide CuratedRun, CuratedRules, CuratedRule, EntryStaged, Agrees, CycleId, RuleId;
    var u := CuratedRun(h, t, cs, true).tables;
    CuratedEffect(h, t, cs);
    forall c | c in cs ensures EntryStaged(h, t, u, c) { EntryIsStaged(h, t, u, cs, c); }
    CuratedGates(h, cs);
    forall k | k in u.rules && k !in t.rules ensures exists c, i :: c in cs && 0 <= i < |c.gates| && k == GateId(h, c, i) {
      var c, i :| c in cs && 0 <= i < |c.gates| && u.rules[k] == CuratedRule(h, c, i);
      GateRowSays(h, c, i, u.rules[k]);
    }
  }

  // ---- when it goes through ---------------------------------------------------------------

  /** Another stored cycle is this section of this record with this deadline. */
  ghost predicate SectionHeld(h: Hash, t: Tables, c: CuratedCycle) {
    exists k :: k in t.cycles && k != EntryId(h, c) && t.cycles[k].kind == c.kind && t.cycles[k].recordId == c.recordId
                && t.cycles[k].sectionName == c.sectionName && t.cycles[k].cycleDeadline == Some(c.cycleDeadline)
  }

  ghost predicate EntryAgrees(h: Hash, t: Tables, c: CuratedCycle) {
    EntryId(h, c) in t.cycles ==> EntrySays(h, c, t.cycles[EntryId(h, c)])
  }

  ghost predicate GateAgrees(h: Hash, t: Tables, c: CuratedCycle, i: nat)
    requires i < |c.gates|
  {
    GateId(h, c, i) in t.rules ==> GateSays(h, c, i, t.rules[GateId(h, c, i)])
  }

  /** The reviewed file goes through exactly when every record is staged, every
      stored cycle and rule says in each column what its entry says, no new id comes
      twice, and no other stored cycle holds the section and deadline of a new one. */
  lemma {:induction false} CuratedGoesThrough(h: Hash, t: Tables, cs: seq<CuratedCycle>)
    ensures CuratedRun(h, t, cs, true).outcome.Done? <==>
            && (forall c :: c in cs ==> RecordKey(c.kind, c.recordId) in t.records && EntryAgrees(h, t, c))
            && (forall c, i :: c in cs && 0 <= i < |c.gates| ==> GateAgrees(h, t, c, i))
            && NoNewTwice(t.cycles, CycleIds(CuratedRows(h, cs))) && NoNewTwice(t.rules, RuleIds(CuratedRules(h, cs)))
            && (forall c :: c in cs && EntryId(h, c) !in t.cycles ==> !SectionHeld(h, t, c))
  {
    hide CuratedRun, CuratedRules, CuratedRule, CuratedRow, Agrees, EntrySays, GateSays, SectionTaken, SectionHeld, NoNewTwice, CycleIds, RuleIds,
         CycleId, RuleId;
    CuratedAccepted(h, t, cs);
    CuratedRowMembers(h, cs);
    CuratedGates(h, cs);
    forall c | c in cs
      ensures CuratedRow(h, c) in CuratedRows(h, cs) && CuratedRow(h, c).id == EntryId(h, c)
      ensures SectionTaken(t.cycles, CuratedRow(h, c)) <==> SectionHeld(h, t, c)
      ensures EntryId(h, c) in t.cycles ==> (Agrees(t.cycles[EntryId(h, c)], CuratedRow(h, c)) <==> EntrySays(h, c, t.cycles[EntryId(h, c)]))
    {
      EntryRow(h, t, c);
      if EntryId(h, c) in t.cycles { AgreeingIsSaying(h, c, t.cycles[EntryId(h, c)]); }
    }
    forall c, i | c in cs && 0 <= i < |c.gates|
      ensures CuratedRule(h, c, i) in CuratedRules(h, cs) && CuratedRule(h, c, i).id == GateId(h, c, i)
      ensures GateId(h, c, i) in t.rules ==> (t.rules[GateId(h, c, i)] == CuratedRule(h, c, i) <==> GateSays(h, c, i, t.rules[GateId(h, c, i)]))
    {
      GateRowId(h, c, i);
      if GateId(h, c, i) in t.rules { GateRowSays(h, c, i, t.rules[GateId(h, c, i)]); }
    }
    RulesAgree(h, t, cs);
  }

  lemma {:induction false} RulesAgree(h: Hash, t: Tables, cs: seq<CuratedCycle>)
    ensures (forall x :: x in CuratedRules(h, cs) && x.id in t.rules ==> t.rules[x.id] == x) <==>
            forall c, i :: c in cs && 0 <= i < |c.gates| ==> GateAgrees(h, t, c, i)
  {
    hide CuratedRules, CuratedRule, GateSays, GateId;
    CuratedGates(h, cs);
    forall c, i | c in cs && 0 <= i < |c.gates|
      ensures CuratedRule(h, c, i) in CuratedRules(h, cs) && CuratedRule(h, c, i).id == GateId(h, c, i)
      ensures GateAgrees(h, t, c, i) <==> (GateId(h, c, i) in t.rules ==> t.rules[GateId(h, c, i)] == CuratedRule(h, c, i))
    {
      GateRowId(h, c, i);
      if GateId(h, c, i) in t.rules { GateRowSays(h, c, i, t.rules[GateId(h, c, i)]); }
    }
  }

  lemma {:induction false} GateRowId(h: Hash, c: CuratedCycle, i: nat)
    requires i < |c.gates|
    ensures CuratedRule(h, c, i).id == GateId(h, c, i)
  {
  }

  lemma {:induction false} EntryRow(h: Hash, t: Tables, c: CuratedCycle)
    ensures CuratedRow(h, c).id == EntryId(h, c)
    ensures SectionTaken(t.cycles, CuratedRow(h, c)) <==> SectionHeld(h, t, c)
  {
    hide CycleId;
  }

  // ---- which offence a curated refusal names -----------------------------------------------

  lemma {:induction false} FirstUnstagedIs(records: map<RecordKey, HandoffRecord>, cs: seq<CuratedCycle>, key: RecordKey)
    ensures FirstUnstaged(records, cs) == Some(key) <==>
            exists i :: 0 <= i < |cs| && CuratedKey(cs[i]) == key && key !in records && forall j :: 0 <= j < i ==> CuratedKey(cs[j]) in records
  {
    hide CuratedKey;
    if cs != [] {
      var n := |cs| - 1;
      FirstUnstagedIs(records, cs[..n], key);
      FirstUnstagedNone(records, cs[..n]);
      assert forall j :: 0 <= j < n ==> cs[..n][j] == cs[j] && cs[j] in cs[..n];
      if FirstUnstaged(records, cs[..n]).Some? {
        var x :| x in cs[..n] && CuratedKey(x) !in records;
        var j :| 0 <= j < n && cs[j] == x;
      }
    }
  }

  ghost predicate CycleOffends(existing: map<string, Cycle>, x: Cycle) { x.id in existing && !Agrees(existing[x.id], x) }

  ghost predicate RuleOffends(existing: map<string, Rule>, x: Rule) { x.id in existing && existing[x.id] != x }

  lemma {:induction false} FirstCycleIs(existing: map<string, Cycle>, rows: seq<Cycle>, id: string)
    ensures CheckCycles(existing, rows) == Differs(id) <==>
            exists i :: 0 <= i < |rows| && rows[i].id == id && CycleOffends(existing, rows[i]) && forall j :: 0 <= j < i ==> !CycleOffends(existing, rows[j])
  {
    hide Agrees;
    if rows != [] {
      var n := |rows| - 1;
      FirstCycleIs(existing, rows[..n], id);
      CheckCyclesMembers(existing, rows[..n]);
      assert forall j :: 0 <= j < n ==> rows[..n][j] == rows[j] && rows[j] in rows[..n];
      if CheckCycles(existing, rows[..n]).Differs? {
        var x :| x in rows[..n] && CycleOffends(existing, x);
        var j :| 0 <= j < n && rows[j] == x;
      }
    }
  }

  lemma {:induction false} CheckRulesStep(existing: map<string, Rule>, rows: seq<Rule>)
    requires rows != []
    ensures var n, front := |rows| - 1, CheckRules(existing, rows[..|rows| - 1]);
            && (front.Differs? ==> CheckRules(existing, rows) == front)
            && (front.New? && RuleOffends(existing, rows[n]) ==> CheckRules(existing, rows) == Differs(rows[n].id))
            && (front.New? && !RuleOffends(existing, rows[n]) ==> CheckRules(existing, rows).New?)
    ensures CheckRules(existing, rows[..|rows| - 1]).New? <==> forall j :: 0 <= j < |rows| - 1 ==> !RuleOffends(existing, rows[j])
  {
    var front := rows[..|rows| - 1];
    CheckRulesMembers(existing, front);
    assert forall j :: 0 <= j < |front| ==> front[j] == rows[j] && front[j] in front;
    if x :| x in front && RuleOffends(existing, x) { var j :| 0 <= j < |front| && front[j] == x; }
  }

  lemma {:induction false} FirstRuleIs(existing: map<string, Rule>, rows: seq<Rule>, id: string)
    ensures CheckRules(existing, rows) == Differs(id) <==>
            exists i :: 0 <= i < |rows| && rows[i].id == id && RuleOffends(existing, rows[i]) && forall j :: 0 <= j < i ==> !RuleOffends(existing, rows[j])
  {
    hide RuleOffends;
    if rows != [] {
      hide CheckRules;
      var n := |rows| - 1;
      FirstRuleIs(existing, rows[..n], id);
      CheckRulesStep(existing, rows);
      assert forall j :: 0 <= j < n ==> rows[..n][j] == rows[j];
    }
  }

  /** How many gates come before those of entry `k`. */
  function GatesBefore(cs: seq<CuratedCycle>, k: nat): nat
    requires k <= |cs|
  {
    if k == 0 then 0 else GatesBefore(cs, k - 1) + |cs[k - 1].gates|
  }

  lemma {:induction false} GatesBeforeFront(cs: seq<CuratedCycle>, n: nat, k: nat)
    requires k <= n <= |cs|
    ensures GatesBefore(cs[..n], k) == GatesBefore(cs, k)
  {
    if k > 0 { GatesBeforeFront(cs, n, k - 1); }
  }

  /** The rules come entry by entry and gate by gate. */
  lemma {:induction false} RulesInOrder(h: Hash, cs: seq<CuratedCycle>)
    ensures |CuratedRules(h, cs)| == GatesBefore(cs, |cs|)
  {
    hide CuratedRule;
    if cs != [] {
      RulesInOrder(h, cs[..|cs| - 1]);
      GatesBeforeFront(cs, |cs| - 1, |cs| - 1);
    }
  }

  lemma {:induction false} RuleAt(h: Hash, cs: seq<CuratedCycle>, k: nat, i: nat)
    requires k < |cs| && i < |cs[k].gates|
    ensures GatesBefore(cs, k) + i < |CuratedRules(h, cs)| && CuratedRules(h, cs)[GatesBefore(cs, k) + i] == CuratedRule(h, cs[k], i)
  {
    hide CuratedRule;
    var n := |cs| - 1;
    GatesBeforeFront(cs, n, k);
    RulesInOrder(h, cs[..n]);
    if k < n {
      RuleAt(h, cs[..n], k, i);
    } else {
      GatesBeforeFront(cs, n, n);
    }
  }

  ghost predicate RecordStaged(t: Tables, c: CuratedCycle) { RecordKey(c.kind, c.recordId) in t.records }

  /** A refusal over an unstaged record names the first of them; over a cycle, once
      all records are staged, the first stored one that says something else; over a
      rule, once all cycles agree, the first of those. Refused or previewed, a run
      writes nothing. */
  lemma {:induction false} CuratedRefusal(h: Hash, t: Tables, cs: seq<CuratedCycle>, apply: bool, key: RecordKey, id: string)
    ensures var run := CuratedRun(h, t, cs, apply);
            && (run.outcome == Refused(RecordNotStaged(key)) <==>
                exists i :: 0 <= i < |cs| && key == RecordKey(cs[i].kind, cs[i].recordId) && !RecordStaged(t, cs[i])
                            && forall j :: 0 <= j < i ==> RecordStaged(t, cs[j]))
            && (run.outcome == Refused(CycleDiffers(id)) <==>
                (forall c :: c in cs ==> RecordStaged(t, c)) &&
                exists i :: 0 <= i < |cs| && id == EntryId(h, cs[i]) && !EntryAgrees(h, t, cs[i]) && forall j :: 0 <= j < i ==> EntryAgrees(h, t, cs[j]))
            && (run.outcome == Refused(RuleDiffers(id)) <==>
                (forall c :: c in cs ==> RecordStaged(t, c) && EntryAgrees(h, t, c)) &&
                exists k: nat, i: nat :: FirstOffence(h, t, cs, k, i) && id == GateId(h, cs[k], i))
            && (run.outcome.Refused? ==>
                  run.outcome.reason.RecordNotStaged? || run.outcome.reason.CycleDiffers? || run.outcome.reason.RuleDiffers?
                  || (apply && run.outcome.reason == DuplicateKey))
            && (!apply || run.outcome.Refused? ==> run.tables == t)
  {
    hide CuratedRules, CuratedRows, InsertAll, AnySectionTaken, FirstUnstaged, CheckCycles, CheckRules, GateAgrees, EntryAgrees, GateId, EntryId,
         RecordStaged, FirstOffence;
    FirstRecordIs(t, cs, key);
    FirstEntryIs(h, t, cs, id);
    OffendingGate(h, t, cs, id);
    EntriesAgree(h, t, cs);
  }

  lemma {:induction false} FirstRecordIs(t: Tables, cs: seq<CuratedCycle>, key: RecordKey)
    ensures FirstUnstaged(t.records, cs).None? <==> forall c :: c in cs ==> RecordStaged(t, c)
    ensures FirstUnstaged(t.records, cs) == Some(key) <==>
            exists i :: 0 <= i < |cs| && key == RecordKey(cs[i].kind, cs[i].recordId) && !RecordStaged(t, cs[i])
                        && forall j :: 0 <= j < i ==> RecordStaged(t, cs[j])
  {
    hide FirstUnstaged;
    FirstUnstagedNone(t.records, cs);
    FirstUnstagedIs(t.records, cs, key);
  }

  lemma {:induction false} EntriesAgree(h: Hash, t: Tables, cs: seq<CuratedCycle>)
    ensures CheckCycles(t.cycles, CuratedRows(h, cs)).New? <==> forall c :: c in cs ==> EntryAgrees(h, t, c)
  {
    hide CheckCycles, Agrees, EntrySays, CuratedRow;
    var rows := CuratedRows(h, cs);
    CheckCyclesMembers(t.cycles, rows);
    CuratedRowMembers(h, cs);
    forall c | c in cs
      ensures CuratedRow(h, c) in rows
      ensures EntryAgrees(h, t, c) <==> (CuratedRow(h, c).id in t.cycles ==> Agrees(t.cycles[CuratedRow(h, c).id], CuratedRow(h, c)))
    {
      EntryRow(h, t, c);
      if EntryId(h, c) in t.cycles { AgreeingIsSaying(h, c, t.cycles[EntryId(h, c)]); }
    }
  }

  lemma {:induction false} FirstEntryIs(h: Hash, t: Tables, cs: seq<CuratedCycle>, id: string)
    ensures CheckCycles(t.cycles, CuratedRows(h, cs)) == Differs(id) <==>
            exists i :: 0 <= i < |cs| && id == EntryId(h, cs[i]) && !EntryAgrees(h, t, cs[i]) && forall j :: 0 <= j < i ==> EntryAgrees(h, t, cs[j])
  {
    hide CheckCycles, Agrees, EntrySays, CycleId;
    var rows := CuratedRows(h, cs);
    FirstCycleIs(t.cycles, rows, id);
    forall i | 0 <= i < |cs| ensures rows[i].id == EntryId(h, cs[i]) && (CycleOffends(t.cycles, rows[i]) <==> !EntryAgrees(h, t, cs[i])) {
      if EntryId(h, cs[i]) in t.cycles { AgreeingIsSaying(h, cs[i], t.cycles[EntryId(h, cs[i])]); }
    }
  }

  /** Gate `j` of entry `l` comes before gate `i` of entry `k`. */
  predicate Earlier(l: nat, j: nat, k: nat, i: nat) { l < k || (l == k && j < i) }

  lemma {:induction false} GatesGrow(cs: seq<CuratedCycle>, l: nat, k: nat)
    requires l < k <= |cs|
    ensures GatesBefore(cs, l) + |cs[l].gates| <= GatesBefore(cs, k)
  {
    if l < k - 1 { GatesGrow(cs, l, k - 1); }
  }

  lemma {:induction false} GateAt(cs: seq<CuratedCycle>, m: nat, n: nat) returns (k: nat, i: nat)
    requires m <= |cs| && n < GatesBefore(cs, m)
    ensures k < m && i < |cs[k].gates| && n == GatesBefore(cs, k) + i
  {
    if n < GatesBefore(cs, m - 1) { k, i := GateAt(cs, m - 1, n); } else { k, i := m - 1, n - GatesBefore(cs, m - 1); }
  }

  /** Gate `i` of entry `k` is the first that a stored rule of its id contradicts. */
  ghost predicate FirstOffence(h: Hash, t: Tables, cs: seq<CuratedCycle>, k: nat, i: nat) {
    && k < |cs| && i < |cs[k].gates| && !GateAgrees(h, t, cs[k], i)
    && forall l, j :: 0 <= l < |cs| && 0 <= j < |cs[l].gates| && Earlier(l, j, k, i) ==> GateAgrees(h, t, cs[l], j)
  }

  lemma {:induction false} OffendsAt(h: Hash, t: Tables, cs: seq<CuratedCycle>, k: nat, i: nat)
    requires k < |cs| && i < |cs[k].gates|
    ensures var n, rows := GatesBefore(cs, k) + i, CuratedRules(h, cs);
            n < |rows| && rows[n].id == GateId(h, cs[k], i) && (RuleOffends(t.rules, rows[n]) <==> !GateAgrees(h, t, cs[k], i))
  {
    hide CuratedRules, CuratedRule, GateId, GateSays;
    RuleAt(h, cs, k, i);
    GateRowId(h, cs[k], i);
    if GateId(h, cs[k], i) in t.rules { GateRowSays(h, cs[k], i, t.rules[GateId(h, cs[k], i)]); }
  }

  lemma {:induction false} OffendingGate(h: Hash, t: Tables, cs: seq<CuratedCycle>, id: string)
    ensures CheckRules(t.rules, CuratedRules(h, cs)) == Differs(id) <==> exists k: nat, i: nat :: FirstOffence(h, t, cs, k, i) && id == GateId(h, cs[k], i)
  {
    hide CheckRules, CuratedRules, GateId, GateAgrees, RuleOffends;
    var rows := CuratedRules(h, cs);
    RulesInOrder(h, cs);
    FirstRuleIs(t.rules, rows, id);
    if n :| 0 <= n < |rows| && rows[n].id == id && RuleOffends(t.rules, rows[n]) && forall m :: 0 <= m < n ==> !RuleOffends(t.rules, rows[m]) {
      var k, i := GateAt(cs, |cs|, n);
      OffendsAt(h, t, cs, k, i);
      forall l, j | 0 <= l < |cs| && 0 <= j < |cs[l].gates| && Earlier(l, j, k, i) ensures GateAgrees(h, t, cs[l], j) {
        OffendsAt(h, t, cs, l, j);
        if l < k { GatesGrow(cs, l, k); }
      }
      assert FirstOffence(h, t, cs, k, i);
    }
    if k: nat, i: nat :| FirstOffence(h, t, cs, k, i) && id == GateId(h, cs[k], i) {
      FirstOffenceFound(h, t, cs, k, i);
    }
  }

  lemma {:induction false} FirstOffenceFound(h: Hash, t: Tables, cs: seq<CuratedCycle>, k: nat, i: nat)
    requires FirstOffence(h, t, cs, k, i)
    ensures CheckRules(t.rules, CuratedRules(h, cs)) == Differs(GateId(h, cs[k], i))
  {
    hide CheckRules, CuratedRules, GateId, GateAgrees, RuleOffends;
    var rows, n := CuratedRules(h, cs), GatesBefore(cs, k) + i;
    RulesInOrder(h, cs);
    OffendsAt(h, t, cs, k, i);
    forall m | 0 <= m < n ensures !RuleOffends(t.rules, rows[m]) {
      var l, j := GateAt(cs, |cs|, m);
      OffendsAt(h, t, cs, l, j);
      if k < l { GatesGrow(cs, k, l); }
      assert Earlier(l, j, k, i);
    }
    FirstRuleIs(t.rules, rows, GateId(h, cs[k], i));
  }

  /** The report of a curated run that goes through: preflight and applied agree, the
      checked are the file's entries and gates, the new are what the tables gain. */
  lemma {:induction false} CuratedReport(h: Hash, t: Tables, cs: seq<CuratedCycle>)
    requires CuratedRun(h, t, cs, true).outcome.Done?
    ensures var preview, run := CuratedRun(h, t, cs, false), CuratedRun(h, t, cs, true);
            && preview.outcome.Done? && !preview.outcome.result.applied && preview.outcome.result.(applied := true) == run.outcome.result
            && run.outcome.result.checkedCycles == |cs| && run.outcome.result.checkedRules == GatesBefore(cs, |cs|)
            && |run.tables.cycles| == |t.cycles| + run.outcome.result.newCycles
            && |run.tables.rules| == |t.rules| + run.outcome.result.newRules
  {
    hide CuratedRules, CuratedRows, FirstUnstaged, CheckCycles, CheckRules, InsertAll, AnySectionTaken;
    RulesInOrder(h, cs);
    var u := CuratedRun(h, t, cs, true).tables;
    InsertCyclesEffect(t.cycles, CheckCycles(t.cycles, CuratedRows(h, cs)).rows, u.cycles);
    InsertRulesEffect(t.rules, CheckRules(t.rules, CuratedRules(h, cs)).rows, u.rules);
  }

  // ---- the verified run: report ---------------------------------------------------------------

  /** The records reported unstaged are those of the items set aside, in order. */
  lemma {:induction false} UnstagedInOrder(records: map<RecordKey, HandoffRecord>, items: seq<ParsedCycle>, p: ParsedCycle)
    ensures Unstaged(records, []) == []
    ensures Unstaged(records, items + [p]) ==
            Unstaged(records, items) + if RecordKey(p.kind, p.recordId) in records then [] else [RecordKey(p.kind, p.recordId)]
  {
    assert (items + [p])[..|items|] == items;
  }

  /** The report of a verified run, previewed or applied: how many items were parsed,
      which records were not staged, and whether it was applied. */
  lemma {:induction false} VerifiedReport(h: Hash, t: Tables, items: seq<ParsedCycle>, apply: bool)
    requires VerifiedRun(h, t, items, apply).outcome.Done?
    ensures var result := VerifiedRun(h, t, items, apply).outcome.result;
            result.parsed == |items| && result.unstaged == Unstaged(t.records, items) && result.applied == apply
  {
    hide Usable, Unstaged, Inserts, Updates, UpdateAll, UpdatesClash, AnySectionTaken, InsertAll, WantedRules, WantedFlat, NewRules;
  }

  /** Another stored cycle has the section and deadline the item describes. */
  ghost predicate ItemSectionHeld(h: Hash, t: Tables, p: ParsedCycle) {
    p.cycleDeadline.Some? && exists k ::
      k in t.cycles && k != ParsedId(h, p) && t.cycles[k].kind == p.kind && t.cycles[k].recordId == p.recordId
      && t.cycles[k].sectionName == p.sectionName && t.cycles[k].cycleDeadline == p.cycleDeadline
  }

  /** A verified run is refused for want of any staged record exactly when there is none,
      and otherwise only, when applied, for a key that is taken; a new cycle whose
      section and deadline another stored cycle holds is such a case. Refused or
      previewed it writes nothing. */
  lemma {:induction false} VerifiedRefusal(h: Hash, t: Tables, items: seq<ParsedCycle>, apply: bool)
    ensures var run := VerifiedRun(h, t, items, apply);
            && (run.outcome == Refused(NothingStaged) <==> t.records == map[])
            && (run.outcome.Refused? ==> run.outcome.reason == NothingStaged || (apply && run.outcome.reason == DuplicateKey))
            && (!apply || run.outcome.Refused? ==> run.tables == t)
            && (apply && t.records != map[]
                && (exists p :: p in items && RecordKey(p.kind, p.recordId) in t.records && ParsedId(h, p) !in t.cycles && ItemSectionHeld(h, t, p)) ==>
                  run.outcome == Refused(DuplicateKey))
  {
    hide Usable, Unstaged, Inserts, Updates, UpdateAll, UpdatesClash, AnySectionTaken, InsertAll, WantedRules, WantedFlat, NewRules, ItemSectionHeld;
    if p :| p in items && RecordKey(p.kind, p.recordId) in t.records && ParsedId(h, p) !in t.cycles && ItemSectionHeld(h, t, p) {
      UsableMembers(t.records, items);
      HeldSectionClashes(h, t, Usable(t.records, items), p);
    }
  }

  lemma {:induction false} HeldSectionClashes(h: Hash, t: Tables, items: seq<ParsedCycle>, p: ParsedCycle)
    requires p in items && ParsedId(h, p) !in t.cycles && ItemSectionHeld(h, t, p)
    ensures var inserts := Inserts(h, t.cycles, items);
            var c := InsertAll(t.cycles, CycleIds(inserts), inserts);
            c.Some? ==> AnySectionTaken(c.value, inserts)
  {
    hide Inserts, InsertAll, CycleId;
    var inserts := Inserts(h, t.cycles, items);
    InsertsMembers(h, t.cycles, items);
    var c := InsertAll(t.cycles, CycleIds(inserts), inserts);
    if c.Some? {
      InsertCyclesEffect(t.cycles, inserts, c.value);
      assert CycleRow(h, p) in inserts;
      var k :| k in t.cycles && k != ParsedId(h, p) && t.cycles[k].kind == p.kind && t.cycles[k].recordId == p.recordId
               && t.cycles[k].sectionName == p.sectionName && t.cycles[k].cycleDeadline == p.cycleDeadline;
      assert c.value[k] == t.cycles[k];
      assert SectionTaken(c.value, CycleRow(h, p));
    }
  }
}
