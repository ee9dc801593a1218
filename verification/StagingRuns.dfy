/** Repeating, previewing and interleaving staging runs. */
module StagingRuns {
  import opened Base
  import opened Identity
  import opened Staging
  import opened StagingFacts
  import opened StagingInvariant
  import opened StagingTheorems
  import opened StagingVerified

  // ---- a second run finds nothing to do -------------------------------------------

  lemma {:induction false} NothingToWrite(h: Hash, cycles: map<string, Cycle>, items: seq<ParsedCycle>)
    requires forall p :: p in items ==> ParsedId(h, p) in cycles && cycles[ParsedId(h, p)] == CycleRow(h, p)
    ensures Inserts(h, cycles, items) == [] && Updates(h, cycles, items) == []
  {
    if items != [] {
      var n := |items| - 1;
      assert items == items[..n] + [items[n]];
      NothingToWrite(h, cycles, items[..n]);
    }
  }

  lemma {:induction false} NoNewRules(current: map<string, Rule>, wanted: seq<Rule>)
    requires forall x :: x in wanted ==> x.id in current
    ensures NewRules(current, wanted) == []
  {
    if wanted != [] {
      var n := |wanted| - 1;
      assert wanted == wanted[..n] + [wanted[n]];
      NoNewRules(current, wanted[..n]);
    }
  }

  /** The usable cycles are stored as described and hold the described rules. */
  ghost predicate AtRest(h: Hash, t: Tables, usable: seq<ParsedCycle>) {
    && (forall p :: p in usable ==> ParsedId(h, p) in t.cycles && t.cycles[ParsedId(h, p)] == CycleRow(h, p))
    && (forall k :: k in t.rules && t.rules[k].cycleId in WantedRules(h, usable).rules <==> k in RuleIds(WantedFlat(h, usable)))
  }

  lemma {:induction false} RestingRun(h: Hash, t: Tables, items: seq<ParsedCycle>)
    requires t.records != map[] && AtRest(h, t, Usable(t.records, items))
    ensures var run := VerifiedRun(h, t, items, true);
            && run.tables == t && run.outcome.Done?
            && run.outcome.result.newCycles == 0 && run.outcome.result.updatedCycles == 0
            && run.outcome.result.newRules == 0 && run.outcome.result.removedRules == 0
  {
    hide Usable, Unstaged, Inserts, Updates, WantedRules, WantedFlat, NewRules, SectionTaken, CycleRow, ParsedId;
    var usable := Usable(t.records, items);
    var flat := WantedFlat(h, usable);
    var current := CurrentRules(t.rules, WantedRules(h, usable).rules.Keys);
    RuleIdMembers(flat);
    NothingToWrite(h, t.cycles, usable);
    NoNewRules(current, flat);
    var stale := set r | r in current && r !in RuleIds(flat);
    assert stale == {};
    assert t.rules - stale == t.rules;
  }

  /** Repeating an applied run with the same claims changes nothing and reports
      four zeros. */
  lemma {:induction false} VerifiedIdempotent(h: Hash, sha: Digest, t: Tables, items: seq<ParsedCycle>)
    requires Stageable(h, sha, t, items)
    ensures var u := VerifiedRun(h, t, items, true).tables;
            var again := VerifiedRun(h, u, items, true);
            && VerifiedRun(h, t, items, true).outcome.Done? && again.tables == u && again.outcome.Done?
            && again.outcome.result.newCycles == 0 && again.outcome.result.updatedCycles == 0
            && again.outcome.result.newRules == 0 && again.outcome.result.removedRules == 0
  {
    hide VerifiedRun, RuleRowsStaged, OtherRulesKept, Sound, Ideal, Wants, WantedRules, WantedFlat, Usable, ParsedId, CycleRow;
    var u := VerifiedRun(h, t, items, true).tables;
    var usable := Usable(t.records, items);
    VerifiedStages(h, sha, t, items);
    ParsedIdMembers(h, usable);
    WantedIds(h, usable);
    RestingRun(h, u, items);
  }

  lemma {:induction false} SomeMember<T>(s: seq<T>)
    ensures s == [] || exists x :: x in s
  {
    if s != [] { assert s[0] in s; }
  }

  /** A curated run that went through goes through again, inserting nothing. */
  lemma {:induction false} CuratedIdempotent(h: Hash, t: Tables, cs: seq<CuratedCycle>)
    requires CuratedRun(h, t, cs, true).outcome.Done?
    ensures var u := CuratedRun(h, t, cs, true).tables;
            var again := CuratedRun(h, u, cs, true);
            again.tables == u && again.outcome.Done? && again.outcome.result.newCycles == 0 && again.outcome.result.newRules == 0
  {
    var u := CuratedRun(h, t, cs, true).tables;
    var rows, rules := CuratedRows(h, cs), CuratedRules(h, cs);
    CuratedEffect(h, t, cs);
    CuratedRowMembers(h, cs);
    FirstUnstagedNone(t.records, cs);
    FirstUnstagedNone(u.records, cs);
    CheckCyclesMembers(u.cycles, rows);
    CheckRulesMembers(u.rules, rules);
    SomeMember(CheckCycles(u.cycles, rows).rows);
    SomeMember(CheckRules(u.rules, rules).rows);
  }

  // ---- a preview reports what an apply would do --------------------------------------

  lemma {:induction false} RemoveCount<V>(m: map<string, V>, s: set<string>)
    requires s <= m.Keys
    ensures |m - s| == |m| - |s|
  {
  }

  lemma {:induction false} CyclesGrow(h: Hash, t: Tables, items: seq<ParsedCycle>)
    requires VerifiedRun(h, t, items, true).outcome.Done?
    ensures var run := VerifiedRun(h, t, items, true); |run.tables.cycles| == |t.cycles| + run.outcome.result.newCycles
  {
    var usable := Usable(t.records, items);
    var inserts := Inserts(h, t.cycles, usable);
    var written := InsertAll(t.cycles, CycleIds(inserts), inserts).value;
    InsertCyclesEffect(t.cycles, inserts, written);
    UpdateAllEffect(written, Updates(h, t.cycles, usable));
    assert |UpdateAll(written, Updates(h, t.cycles, usable))| == |written.Keys| == |written|;
  }

  lemma {:induction false} RulesChange(h: Hash, t: Tables, items: seq<ParsedCycle>)
    requires VerifiedRun(h, t, items, true).outcome.Done?
    ensures var run := VerifiedRun(h, t, items, true);
            |run.tables.rules| == |t.rules| + run.outcome.result.newRules - run.outcome.result.removedRules
  {
    var usable := Usable(t.records, items);
    var flat := WantedFlat(h, usable);
    var current := CurrentRules(t.rules, WantedRules(h, usable).rules.Keys);
    var stale := set r | r in current && r !in RuleIds(flat);
    InsertRulesEffect(t.rules - stale, NewRules(current, flat), VerifiedRun(h, t, items, true).tables.rules);
    RemoveCount(t.rules, stale);
  }

  lemma {:induction false} SplitKeys(a: set<string>, b: set<string>)
    ensures |a| == |a * b| + |a - b|
  {
    assert a == a * b + (a - b);
  }

  /** Taking keys out of a table and putting new ones in: both are counted exactly. */
  lemma {:induction false} KeyCounts<V>(before: map<string, V>, after: map<string, V>, stale: set<string>, added: nat)
    requires stale <= before.Keys && after.Keys * before.Keys == before.Keys - stale
    requires |after| == |before| - |stale| + added
    ensures |stale| == |before.Keys - after.Keys| && added == |after.Keys - before.Keys|
  {
    var b, a := before.Keys, after.Keys;
    assert b - a == stale by {
      forall k ensures k in b - a <==> k in stale { assert k in a * b <==> k in a && k in b; assert k in b - stale <==> k in b && k !in stale; }
    }
    SplitKeys(a, b);
    SplitKeys(b, stale);
    assert b * stale == stale;
    SizeOfKeys(before);
    SizeOfKeys(after);
  }

  lemma {:induction false} SizeOfKeys<V>(m: map<string, V>)
    ensures |m| == |m.Keys|
  {
  }

  /** The rules counted as new are those that were not stored before, and the rules
      counted as removed those that no longer are. */
  lemma {:induction false} RuleCountsExact(h: Hash, sha: Digest, t: Tables, items: seq<ParsedCycle>)
    requires Sound(h, sha, t) && Ideal(h) && ParsedFields(items) && VerifiedRun(h, t, items, true).outcome.Done?
    ensures var run := VerifiedRun(h, t, items, true);
            && run.outcome.result.newRules == |run.tables.rules.Keys - t.rules.Keys|
            && run.outcome.result.removedRules == |t.rules.Keys - run.tables.rules.Keys|
  {
    hide VerifiedRun, Usable, WantedRules, WantedFlat, NewRules, InsertAll, CurrentRules, Sound, Ideal, ParsedFields;
    var usable := Usable(t.records, items);
    var flat, current := WantedFlat(h, usable), CurrentRules(t.rules, WantedRules(h, usable).rules.Keys);
    var added, stale := NewRules(current, flat), set r | r in current && r !in RuleIds(flat);
    var u := VerifiedRun(h, t, items, true).tables.rules;
    RulesWritten(h, t, items);
    RulesCounted(h, t, items);
    UsableMembers(t.records, items);
    FewerFields(items, usable);
    CurrentAreStored(t.rules, WantedRules(h, usable).rules.Keys);
    NewRulesMembers(current, flat);
    InsertRulesEffect(t.rules - stale, added, u);
    forall x | x in added ensures x.id !in t.rules { WantedRuleElsewhere(h, sha, t, usable, x); }
    forall k ensures k in u.Keys * t.rules.Keys <==> k in t.rules.Keys - stale { }
    assert u.Keys * t.rules.Keys == t.rules.Keys - stale;
    RemoveCount(t.rules, stale);
    KeyCounts(t.rules, u, stale, |added|);
  }

  lemma {:induction false} CurrentAreStored(rules: map<string, Rule>, touched: set<string>)
    ensures CurrentRules(rules, touched).Keys <= rules.Keys
  {
  }

  lemma {:induction false} RulesCounted(h: Hash, t: Tables, items: seq<ParsedCycle>)
    requires VerifiedRun(h, t, items, true).outcome.Done?
    ensures var usable := Usable(t.records, items);
            var flat, current := WantedFlat(h, usable), CurrentRules(t.rules, WantedRules(h, usable).rules.Keys);
            && VerifiedRun(h, t, items, true).outcome.result.newRules == |NewRules(current, flat)|
            && VerifiedRun(h, t, items, true).outcome.result.removedRules == |set r | r in current && r !in RuleIds(flat)|
  {
    hide Usable, Unstaged, Inserts, Updates, UpdateAll, UpdatesClash, AnySectionTaken, InsertAll, WantedRules, WantedFlat, NewRules;
  }

  /** Preflight writes nothing, and what it counts is what applying does: cycles
      grow by newCycles, rules change by newRules - removedRules, and the
      orphans are the stored cycles no usable item describes, left as they were. */
  lemma {:induction false} PreflightIsApply(h: Hash, t: Tables, items: seq<ParsedCycle>)
    requires VerifiedRun(h, t, items, true).outcome.Done?
    ensures var preview, applied := VerifiedRun(h, t, items, false), VerifiedRun(h, t, items, true);
            && preview.tables == t && preview.outcome.Done?
            && preview.outcome.result.(applied := true) == applied.outcome.result
            && |applied.tables.cycles| == |t.cycles| + preview.outcome.result.newCycles
            && |applied.tables.rules| == |t.rules| + preview.outcome.result.newRules - preview.outcome.result.removedRules
            && forall c :: c in preview.outcome.result.orphaned <==>
                 c in t.cycles && forall p :: p in Usable(t.records, items) ==> ParsedId(h, p) != c
  {
    CyclesGrow(h, t, items);
    RulesChange(h, t, items);
    WantedMembers(h, Usable(t.records, items));
  }

  /** Orphans are left alone, rules and all. */
  lemma {:induction false} OrphansStay(h: Hash, t: Tables, items: seq<ParsedCycle>, c: string)
    requires VerifiedRun(h, t, items, true).outcome.Done?
    requires c in VerifiedRun(h, t, items, true).outcome.result.orphaned
    ensures var u := VerifiedRun(h, t, items, true).tables;
            && c in u.cycles && u.cycles[c] == t.cycles[c]
            && forall k :: k in t.rules && t.rules[k].cycleId == c ==> k in u.rules && u.rules[k] == t.rules[k]
  {
    hide VerifiedRun, Usable, WantedRules, WantedFlat, ParsedId, CycleRow;
    OrphanedAre(h, t, items);
    WantedMembers(h, Usable(t.records, items));
    VerifiedCycles(h, t, items);
    VerifiedRules(h, t, items);
  }

  lemma {:induction false} OrphanedAre(h: Hash, t: Tables, items: seq<ParsedCycle>)
    requires VerifiedRun(h, t, items, true).outcome.Done?
    ensures VerifiedRun(h, t, items, true).outcome.result.orphaned == t.cycles.Keys - WantedRules(h, Usable(t.records, items)).rules.Keys
  {
    hide Usable, Unstaged, WantedRules, WantedFlat, Inserts, Updates, NewRules, InsertAll, UpdateAll, UpdatesClash, AnySectionTaken;
  }

  lemma {:induction false} UpdateIds(h: Hash, cycles: map<string, Cycle>, items: seq<ParsedCycle>)
    ensures forall k :: k in CycleIds(Updates(h, cycles, items)) <==>
              k in cycles && exists p :: p in items && ParsedId(h, p) == k && cycles[k] != CycleRow(h, p)
  {
    var updates := Updates(h, cycles, items);
    UpdatesMembers(h, cycles, items);
    forall k | k in CycleIds(updates)
      ensures k in cycles && exists p :: p in items && ParsedId(h, p) == k && cycles[k] != CycleRow(h, p)
    {
      var i :| 0 <= i < |updates| && CycleIds(updates)[i] == k;
      assert updates[i] in updates;
    }
    forall p | p in items && ParsedId(h, p) in cycles && cycles[ParsedId(h, p)] != CycleRow(h, p)
      ensures ParsedId(h, p) in CycleIds(updates)
    {
      var i :| 0 <= i < |updates| && updates[i] == CycleRow(h, p);
      assert CycleIds(updates)[i] == ParsedId(h, p);
    }
  }

  lemma {:induction false} UpdatedIsCounted(h: Hash, t: Tables, items: seq<ParsedCycle>)
    requires VerifiedRun(h, t, items, true).outcome.Done?
    ensures VerifiedRun(h, t, items, true).outcome.result.updatedCycles == |Updates(h, t.cycles, Usable(t.records, items))|
  {
  }

  /** The updates counted are the stored cycles whose row changes. */
  lemma {:induction false} UpdatedCyclesExact(h: Hash, sha: Digest, t: Tables, items: seq<ParsedCycle>)
    requires Stageable(h, sha, t, items)
    ensures var run := VerifiedRun(h, t, items, true);
            && run.outcome.Done? && (forall c :: c in t.cycles ==> c in run.tables.cycles)
            && run.outcome.result.updatedCycles == |set c | c in t.cycles && run.tables.cycles[c] != t.cycles[c]|
  {
    hide VerifiedRun;
    var u := VerifiedRun(h, t, items, true).tables;
    var usable := Usable(t.records, items);
    VerifiedStages(h, sha, t, items);
    UpdatedIsCounted(h, t, items);
    ParsedIdMembers(h, usable);
    UpdateIds(h, t.cycles, usable);
    UpdatesDistinct(h, t.cycles, usable);
    DistinctCount(CycleIds(Updates(h, t.cycles, usable)), set c | c in t.cycles && u.cycles[c] != t.cycles[c]);
  }

  // ---- rule content ---------------------------------------------------------------------

  /** A rule's id leaves out its operator, expected value, source and date, and a
      rule already stored is not rewritten. So a described rule ends up exactly
      as described if and only if it was not stored, or stored just so. */
  lemma {:induction false} RuleContentExact(h: Hash, sha: Digest, t: Tables, items: seq<ParsedCycle>, p: ParsedCycle, x: Rule)
    requires Stageable(h, sha, t, items)
    requires p in Usable(t.records, items) && x in RuleRows(h, p)
    ensures var u := VerifiedRun(h, t, items, true).tables;
            x.id in u.rules && (u.rules[x.id] == x <==> (x.id in t.rules ==> t.rules[x.id] == x))
  {
    hide VerifiedRun;
    VerifiedStages(h, sha, t, items);
  }

  /** The other way round, when content is a function of the id the described
      rules are stored exactly. */
  lemma {:induction false} RulesExactWhenIdDecides(h: Hash, sha: Digest, t: Tables, items: seq<ParsedCycle>, content: string -> Rule)
    requires Stageable(h, sha, t, items)
    requires forall k :: k in t.rules ==> t.rules[k] == content(k)
    requires forall p :: p in Usable(t.records, items) ==> forall x :: x in RuleRows(h, p) ==> x == content(x.id)
    ensures var u := VerifiedRun(h, t, items, true).tables;
            forall p :: p in Usable(t.records, items) ==> forall x :: x in RuleRows(h, p) ==> x.id in u.rules && u.rules[x.id] == x
  {
    hide VerifiedRun;
    VerifiedStages(h, sha, t, items);
  }
}
