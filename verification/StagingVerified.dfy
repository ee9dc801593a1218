/** What an applied stage_verified_cycles run leaves, row by row. */
module StagingVerified {
  import opened Base
  import opened Identity
  import opened Staging
  import opened StagingFacts
  import opened StagingInvariant
  import opened StagingTheorems

  lemma {:induction false} SameIdSameItem(h: Hash, items: seq<ParsedCycle>, p: ParsedCycle, q: ParsedCycle)
    requires Distinct(ParsedIds(h, items)) && p in items && q in items && ParsedId(h, p) == ParsedId(h, q)
    ensures p == q
  {
  }

  /** The cycles of one claim set, stored exactly; every other cycle untouched. */
  ghost predicate CyclesStaged(h: Hash, t: Tables, u: Tables, usable: seq<ParsedCycle>) {
    && (forall p :: p in usable ==> ParsedId(h, p) in u.cycles && u.cycles[ParsedId(h, p)] == CycleRow(h, p))
    && (forall c :: c in u.cycles && c !in ParsedIds(h, usable) ==> c in t.cycles && u.cycles[c] == t.cycles[c])
    && (forall c :: c in t.cycles ==> c in u.cycles)
  }

  /** Some usable cycle describes a rule known by `k`. */
  ghost predicate Wants(h: Hash, usable: seq<ParsedCycle>, k: string) {
    exists p :: p in usable && k in RuleIds(RuleRows(h, p))
  }

  /** The rules of the described cycles are the wanted ones and no others. */
  ghost predicate RuleSetStaged(h: Hash, u: Tables, usable: seq<ParsedCycle>) {
    forall k :: (k in u.rules && u.rules[k].cycleId in ParsedIds(h, usable)) <==> Wants(h, usable, k)
  }

  /** A wanted rule that was stored keeps its stored content, the others are new. */
  ghost predicate RuleRowsStaged(h: Hash, t: Tables, u: Tables, usable: seq<ParsedCycle>) {
    forall p, x :: p in usable && x in RuleRows(h, p) ==>
      x.id in u.rules && u.rules[x.id] == if x.id in t.rules then t.rules[x.id] else x
  }

  /** The rules of every other cycle are untouched. */
  ghost predicate OtherRulesKept(h: Hash, t: Tables, u: Tables, usable: seq<ParsedCycle>) {
    && (forall k :: k in t.rules && t.rules[k].cycleId !in ParsedIds(h, usable) ==> k in u.rules && u.rules[k] == t.rules[k])
    && (forall k :: k in u.rules && u.rules[k].cycleId !in ParsedIds(h, usable) ==> k in t.rules && u.rules[k] == t.rules[k])
  }

  lemma {:induction false} ParsedIdMembers(h: Hash, items: seq<ParsedCycle>)
    ensures forall k :: k in ParsedIds(h, items) <==> exists p :: p in items && ParsedId(h, p) == k
    ensures forall k :: k in ParsedIds(h, items) <==> k in WantedRules(h, items).rules
  {
    var ids := ParsedIds(h, items);
    WantedMembers(h, items);
    forall k | k in ids ensures exists p :: p in items && ParsedId(h, p) == k {
      var i :| 0 <= i < |ids| && ids[i] == k;
      assert items[i] in items;
    }
    forall p | p in items ensures ParsedId(h, p) in ids {
      var i :| 0 <= i < |items| && items[i] == p;
      assert ids[i] == ParsedId(h, p);
    }
  }

  lemma {:induction false} UpsertWrites(h: Hash, t: Tables, items: seq<ParsedCycle>, p: ParsedCycle)
    requires VerifiedRun(h, t, items, true).outcome.Done?
    requires Distinct(ParsedIds(h, Usable(t.records, items))) && p in Usable(t.records, items)
    ensures var u := VerifiedRun(h, t, items, true).tables;
            ParsedId(h, p) in u.cycles && u.cycles[ParsedId(h, p)] == CycleRow(h, p)
  {
    var usable, row := Usable(t.records, items), CycleRow(h, p);
    var inserts, updates := Inserts(h, t.cycles, usable), Updates(h, t.cycles, usable);
    var written := InsertAll(t.cycles, CycleIds(inserts), inserts).value;
    InsertsMembers(h, t.cycles, usable);
    UpdatesMembers(h, t.cycles, usable);
    InsertCyclesEffect(t.cycles, inserts, written);
    if row.id in t.cycles && t.cycles[row.id] != row {
      UpdatesDistinct(h, t.cycles, usable);
      UpdateAllWrites(written, updates, row);
    } else {
      forall x | x in updates ensures x.id != row.id {
        var q :| q in usable && x == CycleRow(h, q);
        if x.id == row.id { SameIdSameItem(h, usable, p, q); }
      }
      UpdateAllEffect(written, updates);
    }
  }

  lemma {:induction false} CyclesAreStaged(h: Hash, t: Tables, items: seq<ParsedCycle>)
    requires VerifiedRun(h, t, items, true).outcome.Done?
    requires Distinct(ParsedIds(h, Usable(t.records, items)))
    ensures CyclesStaged(h, t, VerifiedRun(h, t, items, true).tables, Usable(t.records, items))
  {
    var usable := Usable(t.records, items);
    VerifiedCycles(h, t, items);
    ParsedIdMembers(h, usable);
    forall p | p in usable
      ensures var u := VerifiedRun(h, t, items, true).tables;
              ParsedId(h, p) in u.cycles && u.cycles[ParsedId(h, p)] == CycleRow(h, p)
    {
      UpsertWrites(h, t, items, p);
    }
  }

  /** Of distinct cycles, every rule is wanted. */
  lemma {:induction false} EveryRuleWanted(h: Hash, items: seq<ParsedCycle>)
    requires Distinct(ParsedIds(h, items))
    ensures forall x :: x in WantedFlat(h, items) <==> exists p :: p in items && x in RuleRows(h, p)
  {
    var w := WantedRules(h, items);
    WantedFlatMembers(h, items);
    WantedMembers(h, items);
    FlattenMembers(w.order, w.rules);
    forall p, x | p in items && x in RuleRows(h, p) ensures x in WantedFlat(h, items) {
      var q :| q in items && ParsedId(h, q) == ParsedId(h, p) && w.rules[ParsedId(h, p)] == RuleRows(h, q);
      SameIdSameItem(h, items, p, q);
    }
  }

  /** Each wanted rule is stored for its cycle, with the content it had if it was
      stored before. */
  lemma {:induction false} WantedRuleStored(h: Hash, sha: Digest, t: Tables, u: Tables, usable: seq<ParsedCycle>, x: Rule)
    requires Sound(h, sha, t) && Ideal(h) && ParsedFields(usable) && x in WantedFlat(h, usable)
    requires RulesFollow(t, u, WantedFlat(h, usable), WantedRules(h, usable).rules.Keys)
    ensures x.id in u.rules && u.rules[x.id] == if x.id in t.rules then t.rules[x.id] else x
    ensures u.rules[x.id].cycleId in ParsedIds(h, usable)
  {
    RuleIdMembers(WantedFlat(h, usable));
    WantedRuleElsewhere(h, sha, t, usable, x);
    ParsedIdMembers(h, usable);
    assert x.id in RuleIds(WantedFlat(h, usable));
  }

  lemma {:induction false} RuleSetIsStaged(h: Hash, sha: Digest, t: Tables, u: Tables, usable: seq<ParsedCycle>)
    requires Sound(h, sha, t) && Ideal(h) && ParsedFields(usable) && Distinct(ParsedIds(h, usable))
    requires RulesFollow(t, u, WantedFlat(h, usable), WantedRules(h, usable).rules.Keys)
    ensures RuleSetStaged(h, u, usable)
  {
    var flat := WantedFlat(h, usable);
    WantedIds(h, usable);
    RuleIdMembers(flat);
    forall k | Wants(h, usable, k) ensures k in u.rules && u.rules[k].cycleId in ParsedIds(h, usable) {
      var x :| x in flat && x.id == k;
      WantedRuleStored(h, sha, t, u, usable, x);
    }
    forall k | k in u.rules && u.rules[k].cycleId in ParsedIds(h, usable) ensures Wants(h, usable, k) {
      ParsedIdMembers(h, usable);
      assert k in RuleIds(flat);
    }
  }

  lemma {:induction false} RuleRowsAreStaged(h: Hash, sha: Digest, t: Tables, u: Tables, usable: seq<ParsedCycle>)
    requires Sound(h, sha, t) && Ideal(h) && ParsedFields(usable) && Distinct(ParsedIds(h, usable))
    requires RulesFollow(t, u, WantedFlat(h, usable), WantedRules(h, usable).rules.Keys)
    ensures RuleRowsStaged(h, t, u, usable)
  {
    EveryRuleWanted(h, usable);
    forall p, x | p in usable && x in RuleRows(h, p)
      ensures x.id in u.rules && u.rules[x.id] == if x.id in t.rules then t.rules[x.id] else x
    {
      WantedRuleStored(h, sha, t, u, usable, x);
    }
  }

  lemma {:induction false} OtherRulesAreKept(h: Hash, sha: Digest, t: Tables, u: Tables, usable: seq<ParsedCycle>)
    requires Sound(h, sha, t) && Ideal(h) && ParsedFields(usable)
    requires RulesFollow(t, u, WantedFlat(h, usable), WantedRules(h, usable).rules.Keys)
    ensures OtherRulesKept(h, t, u, usable)
  {
    ParsedIdMembers(h, usable);
    forall k | k in u.rules && k !in t.rules ensures u.rules[k].cycleId in ParsedIds(h, usable) {
      var x :| x in WantedFlat(h, usable) && x.id == k;
      WantedRuleStored(h, sha, t, u, usable, x);
    }
  }

  lemma {:induction false} WantedIds(h: Hash, items: seq<ParsedCycle>)
    requires Distinct(ParsedIds(h, items))
    ensures forall k :: k in RuleIds(WantedFlat(h, items)) <==> Wants(h, items, k)
  {
    var flat := WantedFlat(h, items);
    EveryRuleWanted(h, items);
    RuleIdMembers(flat);
    forall k | k in RuleIds(flat) ensures Wants(h, items, k) {
      var x :| x in flat && x.id == k;
      var p :| p in items && x in RuleRows(h, p);
      RuleIdMembers(RuleRows(h, p));
    }
    forall k | Wants(h, items, k) ensures k in RuleIds(flat) {
      var p :| p in items && k in RuleIds(RuleRows(h, p));
      RuleIdMembers(RuleRows(h, p));
      var x :| x in RuleRows(h, p) && x.id == k;
      assert x in flat;
    }
  }

  /** What the verified path promises: the usable cycles are stored as described,
      their rules are the described rules by id, and nothing else moved. */
  ghost predicate Staged(h: Hash, t: Tables, u: Tables, usable: seq<ParsedCycle>) {
    && u.records == t.records && u.tracks == t.tracks
    && CyclesStaged(h, t, u, usable)
    && RuleSetStaged(h, u, usable) && RuleRowsStaged(h, t, u, usable) && OtherRulesKept(h, t, u, usable)
  }

  /** Claims that can be staged: from tables the scripts wrote, with some record
      staged and no two usable items for one cycle. */
  ghost predicate Stageable(h: Hash, sha: Digest, t: Tables, items: seq<ParsedCycle>) {
    && Sound(h, sha, t) && Ideal(h) && ParsedFields(items)
    && t.records != map[] && Distinct(ParsedIds(h, Usable(t.records, items)))
  }

  // ---- the same, column by column -------------------------------------------------------

  /** A stored cycle says what the claim says, and nothing the claim does not. */
  ghost predicate CycleSays(p: ParsedCycle, x: Cycle) {
    && x.kind == p.kind && x.recordId == p.recordId && x.sectionName == p.sectionName
    && x.cycleOpen == None && x.observedOpenOn == p.observedOpenOn
    && x.cycleDeadline == p.cycleDeadline && x.cycleState == p.cycleState
    && x.cycleVerified && !x.rulesComplete
    && x.sourceUrl == p.sourceUrl && x.verifiedOn == p.verifiedOn && x.premiere == p.premiere
  }

  /** A stored rule says what the claim's `i`th rule says, on the claim's evidence. */
  ghost predicate RuleSays(p: ParsedCycle, i: nat, cycle: string, x: Rule)
    requires i < |p.rules|
  {
    && x.cycleId == cycle && x.projectField == p.rules[i].projectField && x.operator == p.rules[i].operator
    && x.expected == p.rules[i].expected && x.condition == p.rules[i].condition
    && x.sourceUrl == p.sourceUrl && x.verifiedOn == p.verifiedOn
  }

  /** One claim whose record is staged: its cycle is stored and says so, and so does
      every rule of it that was not stored before. */
  ghost predicate ClaimStaged(h: Hash, t: Tables, u: Tables, p: ParsedCycle) {
    var cycle := CycleId(h, p.kind, p.recordId, p.sectionName, p.cycleDeadline);
    && cycle in u.cycles && u.cycles[cycle].id == cycle && CycleSays(p, u.cycles[cycle])
    && forall i :: 0 <= i < |p.rules| ==>
         var rule := RuleId(h, cycle, i, p.rules[i].projectField, p.rules[i].condition);
         && rule in u.rules && u.rules[rule].id == rule
         && if rule in t.rules then u.rules[rule] == t.rules[rule] else RuleSays(p, i, cycle, u.rules[rule])
  }

  lemma {:induction false} ClaimIsStaged(h: Hash, t: Tables, u: Tables, usable: seq<ParsedCycle>, p: ParsedCycle)
    requires p in usable && CyclesStaged(h, t, u, usable) && RuleRowsStaged(h, t, u, usable)
    requires forall k :: k in t.rules ==> t.rules[k].id == k
    ensures ClaimStaged(h, t, u, p)
  {
    hide CycleId, RuleId;
    assert CycleSays(p, CycleRow(h, p));
    forall i | 0 <= i < |p.rules|
      ensures var rule := RuleId(h, ParsedId(h, p), i, p.rules[i].projectField, p.rules[i].condition);
              && rule in u.rules && u.rules[rule].id == rule
              && if rule in t.rules then u.rules[rule] == t.rules[rule] else RuleSays(p, i, ParsedId(h, p), u.rules[rule])
    {
      assert RuleRows(h, p)[i] == RuleRow(h, p, i);
      assert RuleRow(h, p, i) in RuleRows(h, p);
    }
  }

  lemma {:induction false} VerifiedStages(h: Hash, sha: Digest, t: Tables, items: seq<ParsedCycle>)
    requires Stageable(h, sha, t, items)
    ensures var run := VerifiedRun(h, t, items, true);
            && run.outcome.Done? && Staged(h, t, run.tables, Usable(t.records, items))
            && forall p :: p in items && RecordKey(p.kind, p.recordId) in t.records ==> ClaimStaged(h, t, run.tables, p)
  {
    StagesAsDescribed(h, sha, t, items);
    hide VerifiedRun, CyclesStaged, RuleSetStaged, RuleRowsStaged, OtherRulesKept, ClaimStaged, Usable;
    var u, usable := VerifiedRun(h, t, items, true).tables, Usable(t.records, items);
    UsableMembers(t.records, items);
    forall k | k in t.rules ensures t.rules[k].id == k { assert RuleSound(h, t, k); }
    forall p | p in items && RecordKey(p.kind, p.recordId) in t.records ensures ClaimStaged(h, t, u, p) {
      ClaimIsStaged(h, t, u, usable, p);
    }
  }

  lemma {:induction false} StagesAsDescribed(h: Hash, sha: Digest, t: Tables, items: seq<ParsedCycle>)
    requires Stageable(h, sha, t, items)
    ensures var run := VerifiedRun(h, t, items, true);
            run.outcome.Done? && Staged(h, t, run.tables, Usable(t.records, items))
  {
    hide VerifiedRun;
    hide RulesFollow;
    hide CyclesStaged, RuleSetStaged, RuleRowsStaged, OtherRulesKept;
    var u := VerifiedRun(h, t, items, true).tables;
    var usable := Usable(t.records, items);
    VerifiedAccepted(h, sha, t, items);
    UsableMembers(t.records, items);
    VerifiedElsewhere(h, t, items, true);
    CyclesAreStaged(h, t, items);
    VerifiedRules(h, t, items);
    RuleSetIsStaged(h, sha, t, u, usable);
    RuleRowsAreStaged(h, sha, t, u, usable);
    OtherRulesAreKept(h, sha, t, u, usable);
  }
}
