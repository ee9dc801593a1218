/** When each staging script goes through, and exactly what it then leaves. */
module StagingTheorems {
  import opened Base
  import opened Text
  import opened Identity
  import opened Staging
  import opened StagingFacts
  import opened StagingInvariant

  // ---- acceptance ----------------------------------------------------------------

  /** A handoff run goes through exactly when every record staged before carries
      the very payload that comes in, and no missing row comes twice. */
  lemma {:induction false} HandoffAccepted(h: Hash, sha: Digest, t: Tables, festivals: seq<SourceRow>, markets: seq<SourceRow>,
                                           live: set<string>, now: int)
    requires Sound(h, sha, t) && InjectiveDigest(sha)
    ensures var incoming := SourceRecords(sha, festivals, markets, now);
            HandoffRun(sha, t, festivals, markets, live, now, true).outcome.Done? <==>
            && (forall x :: x in incoming && KeyOf(x) in t.records ==> t.records[KeyOf(x)].payload == x.payload)
            && NoNewTwice(t.records, RecordKeys(incoming)) && NoNewTwice(t.tracks, SourceIds(markets))
  {
    hide FirstChanged, NewRecords, NewTracks, InsertAll, NoNewTwice;
    var incoming := SourceRecords(sha, festivals, markets, now);
    var records, tracks := NewRecords(t.records, incoming), NewTracks(t.tracks, markets, now);
    FirstChangedNone(t.records, incoming);
    forall x | x in incoming && KeyOf(x) in t.records
      ensures Changed(t.records, x) <==> t.records[KeyOf(x)].payload != x.payload
    {
      assert RecordSound(sha, t, KeyOf(x));
      assert x.payloadHash == sha(x.payload);
    }
    NewRecordKeys(t.records, incoming);
    NewTrackKeys(t.tracks, markets, now);
    InsertMissing(t.records, RecordKeys(incoming), records);
    InsertMissing(t.tracks, SourceIds(markets), tracks);
  }

  // ---- the unique section and deadline ---------------------------------------------

  /** The row is known by its identity. */
  ghost predicate Identified(h: Hash, x: Cycle) { x.id == CycleId(h, x.kind, x.recordId, x.sectionName, x.cycleDeadline) }

  /** Rows known by their identity never take each other's section: only a row
      stored before can be in the way. */
  lemma {:induction false} InsertedSections(h: Hash, table: map<string, Cycle>, added: seq<Cycle>, result: map<string, Cycle>)
    requires InsertAll(table, CycleIds(added), added) == Some(result) && forall x :: x in added ==> Identified(h, x)
    ensures AnySectionTaken(result, added) <==> AnySectionTaken(table, added)
  {
    hide InsertAll, CycleId;
    InsertCyclesEffect(table, added, result);
    forall x | x in added ensures SectionTaken(result, x) <==> SectionTaken(table, x) {
      forall k | k in result && k !in table && k != x.id
        ensures !(result[k].kind == x.kind && result[k].recordId == x.recordId && result[k].sectionName == x.sectionName
                  && result[k].cycleDeadline == x.cycleDeadline)
      {
        assert result[k] in added && result[k].id == k;
      }
    }
  }

  /** Every stored row is known by its identity. */
  ghost predicate AllIdentified(h: Hash, cycles: map<string, Cycle>) {
    forall k :: k in cycles ==> cycles[k].id == k && Identified(h, cycles[k])
  }

  lemma {:induction false} IdentifiedFree(h: Hash, cycles: map<string, Cycle>, x: Cycle)
    requires AllIdentified(h, cycles) && Identified(h, x)
    ensures !SectionTaken(cycles, x)
  {
    hide CycleId;
  }

  lemma {:induction false} IdentifiedUpdates(h: Hash, cycles: map<string, Cycle>, rows: seq<Cycle>)
    requires AllIdentified(h, cycles) && forall x :: x in rows ==> Identified(h, x)
    ensures AllIdentified(h, UpdateAll(cycles, rows)) && !UpdatesClash(cycles, rows)
  {
    hide Identified, SectionTaken;
    if rows != [] {
      var n := |rows| - 1;
      assert rows == rows[..n] + [rows[n]];
      IdentifiedUpdates(h, cycles, rows[..n]);
      assert rows[n] in rows;
      IdentifiedFree(h, UpdateAll(cycles, rows), rows[n]);
    }
  }

  // ---- acceptance of a reviewed file -------------------------------------------------

  /** A curated run goes through exactly when every record is staged, every stored
      cycle and rule it names is as reviewed, no missing row comes twice, and no
      stored cycle under another id has the section and deadline of a missing one. */
  lemma {:induction false} CuratedAccepted(h: Hash, t: Tables, cs: seq<CuratedCycle>)
    ensures var rows, rules := CuratedRows(h, cs), CuratedRules(h, cs);
            CuratedRun(h, t, cs, true).outcome.Done? <==>
            && (forall c :: c in cs ==> CuratedKey(c) in t.records)
            && (forall x :: x in rows && x.id in t.cycles ==> Agrees(t.cycles[x.id], x))
            && (forall x :: x in rules && x.id in t.rules ==> t.rules[x.id] == x)
            && NoNewTwice(t.cycles, CycleIds(rows)) && NoNewTwice(t.rules, RuleIds(rules))
            && (forall x :: x in rows && x.id !in t.cycles ==> !SectionTaken(t.cycles, x))
  {
    hide FirstUnstaged, CheckCycles, CheckRules, CuratedRules, InsertAll, Agrees, SectionTaken, NoNewTwice, CuratedRow;
    var rows, rules := CuratedRows(h, cs), CuratedRules(h, cs);
    FirstUnstagedNone(t.records, cs);
    CheckCyclesMembers(t.cycles, rows);
    CheckRulesMembers(t.rules, rules);
    if CheckCycles(t.cycles, rows).New? && CheckRules(t.rules, rules).New? {
      var added := CheckCycles(t.cycles, rows).rows;
      CheckCycleKeys(t.cycles, rows);
      CheckRuleKeys(t.rules, rules);
      InsertMissing(t.cycles, CycleIds(rows), added);
      InsertMissing(t.rules, RuleIds(rules), CheckRules(t.rules, rules).rows);
      CuratedIdentified(h, cs);
      if InsertAll(t.cycles, CycleIds(added), added).Some? {
        InsertedSections(h, t.cycles, added, InsertAll(t.cycles, CycleIds(added), added).value);
      }
    }
  }

  lemma {:induction false} CuratedIdentified(h: Hash, cs: seq<CuratedCycle>)
    ensures forall x :: x in CuratedRows(h, cs) ==> Identified(h, x)
  {
  }

  /** From tables the scripts wrote nothing is ever in the way. */
  lemma {:induction false} SoundSectionsFree(h: Hash, sha: Digest, t: Tables, x: Cycle)
    requires Sound(h, sha, t) && Identified(h, x)
    ensures !SectionTaken(t.cycles, x)
  {
    hide RuleSound, RecordSound;
    SoundIdentified(h, sha, t);
    IdentifiedFree(h, t.cycles, x);
  }

  lemma {:induction false} SoundIdentified(h: Hash, sha: Digest, t: Tables)
    requires Sound(h, sha, t)
    ensures AllIdentified(h, t.cycles)
  {
    forall k | k in t.cycles ensures t.cycles[k].id == k && Identified(h, t.cycles[k]) { assert CycleSound(h, t, k); }
  }

  /** Ids of proper rules decide the cycle the rule belongs to. */
  lemma {:induction false} SameRuleSameCycle(h: Hash, a: Rule, b: Rule)
    requires Ideal(h) && Proper(h, a) && Proper(h, b) && Free(':', a.cycleId) && Free(':', b.cycleId)
    requires a.id == b.id
    ensures a.cycleId == b.cycleId
  {
    var i :| a.id == RuleId(h, a.cycleId, i, a.projectField, a.condition);
    var j :| b.id == RuleId(h, b.cycleId, j, b.projectField, b.condition);
    RuleNameInjective(a.cycleId, i, a.projectField, a.condition, b.cycleId, j, b.projectField, b.condition);
  }

  /** Rules of one cycle never share an id: the place is part of the name. */
  lemma {:induction false} RuleRowsDistinct(h: Hash, p: ParsedCycle)
    requires Ideal(h) && forall x :: x in p.rules ==> Free(':', x.projectField)
    ensures Distinct(RuleIds(RuleRows(h, p)))
  {
    var ids := RuleIds(RuleRows(h, p));
    forall i, j | 0 <= i < j < |ids| ensures ids[i] != ids[j] {
      var a, b := p.rules[i], p.rules[j];
      assert a in p.rules && b in p.rules;
      if ids[i] == ids[j] {
        RuleNameInjective(ParsedId(h, p), i, a.projectField, a.condition, ParsedId(h, p), j, b.projectField, b.condition);
      }
    }
  }

  /** The rules wanted for distinct cycles have distinct ids. */
  lemma {:induction false} FlattenDistinct(h: Hash, order: seq<string>, rules: map<string, seq<Rule>>)
    requires Ideal(h) && Distinct(order) && forall k :: k in order ==> k in rules && Free(':', k)
    requires forall k :: k in order ==> Distinct(RuleIds(rules[k])) && forall r :: r in rules[k] ==> Proper(h, r) && r.cycleId == k
    ensures Distinct(RuleIds(Flatten(order, rules)))
  {
    hide Distinct, Ideal, Proper, Free;
    if order != [] {
      var n := |order| - 1;
      var front, k := order[..n], order[n];
      assert order == front + [k];
      DistinctSnoc(front, k);
      FlattenDistinct(h, front, rules);
      FlattenMembers(front, rules);
      var xs, ys := Flatten(front, rules), rules[k];
      RuleIdMembers(xs);
      RuleIdMembers(ys);
      forall id | id in RuleIds(ys) ensures id !in RuleIds(xs) {
        var y :| y in ys && y.id == id;
        forall x | x in xs ensures x.id != id {
          var q :| q in front && x in rules[q];
          if x.id == id { SameRuleSameCycle(h, x, y); }
        }
      }
      assert RuleIds(xs + ys) == RuleIds(xs) + RuleIds(ys);
      DistinctAppend(RuleIds(xs), RuleIds(ys));
    }
  }

  lemma {:induction false} WantedFlatDistinct(h: Hash, items: seq<ParsedCycle>)
    requires Ideal(h) && ParsedFields(items)
    ensures Distinct(RuleIds(WantedFlat(h, items)))
  {
    var w := WantedRules(h, items);
    WantedMembers(h, items);
    forall k | k in w.order
      ensures Free(':', k) && Distinct(RuleIds(w.rules[k])) && forall r :: r in w.rules[k] ==> Proper(h, r) && r.cycleId == k
    {
      var p :| p in items && ParsedId(h, p) == k && w.rules[k] == RuleRows(h, p);
      RuleRowsDistinct(h, p);
      forall r | r in w.rules[k] ensures Proper(h, r) && r.cycleId == k { RuleRowProper(h, p, r); }
    }
    FlattenDistinct(h, w.order, w.rules);
  }

  /** A wanted rule that the touched cycles do not hold is held by no cycle. */
  lemma {:induction false} WantedRuleElsewhere(h: Hash, sha: Digest, t: Tables, items: seq<ParsedCycle>, x: Rule)
    requires Sound(h, sha, t) && Ideal(h) && ParsedFields(items) && x in WantedFlat(h, items)
    ensures x.cycleId in WantedRules(h, items).rules
    ensures x.id in t.rules <==> x.id in CurrentRules(t.rules, WantedRules(h, items).rules.Keys)
  {
    WantedFlatMembers(h, items);
    WantedMembers(h, items);
    var p :| p in items && x in RuleRows(h, p);
    RuleRowProper(h, p, x);
    if x.id in t.rules {
      assert RuleSound(h, t, x.id);
      assert CycleSound(h, t, t.rules[x.id].cycleId);
      SameRuleSameCycle(h, x, t.rules[x.id]);
    }
  }

  /** Writing the wanted rules of distinct cycles never clashes. */
  lemma {:induction false} WantedRulesInsert(h: Hash, sha: Digest, t: Tables, items: seq<ParsedCycle>, stale: set<string>)
    requires Sound(h, sha, t) && Ideal(h) && ParsedFields(items)
    ensures var added := NewRules(CurrentRules(t.rules, WantedRules(h, items).rules.Keys), WantedFlat(h, items));
            InsertAll(t.rules - stale, RuleIds(added), added).Some?
  {
    var flat := WantedFlat(h, items);
    var current := CurrentRules(t.rules, WantedRules(h, items).rules.Keys);
    var added := NewRules(current, flat);
    WantedFlatDistinct(h, items);
    NewRuleKeys(current, flat);
    MissingDistinct(current, RuleIds(flat));
    assert forall i, j :: 0 <= i < j < |flat| ==> RuleIds(flat)[i] != RuleIds(flat)[j];
    NewRulesMembers(current, flat);
    RuleIdMembers(added);
    forall k | k in RuleIds(added) ensures k !in t.rules - stale {
      var x :| x in added && x.id == k;
      WantedRuleElsewhere(h, sha, t, items, x);
    }
    InsertAllSucceeds(t.rules - stale, RuleIds(added), added);
  }

  /** From tables the scripts wrote, an applied verified run goes through exactly
      when some record is staged and no usable cycle that is not stored yet is
      described twice. */
  lemma {:induction false} VerifiedAccepted(h: Hash, sha: Digest, t: Tables, items: seq<ParsedCycle>)
    requires Sound(h, sha, t) && Ideal(h) && ParsedFields(items)
    ensures VerifiedRun(h, t, items, true).outcome.Done? <==>
            t.records != map[] && NoNewTwice(t.cycles, ParsedIds(h, Usable(t.records, items)))
  {
    hide Usable, Unstaged, WantedRules, WantedFlat, Inserts, Updates, NewRules, InsertAll, UpdateAll, UpdatesClash, AnySectionTaken,
         Sound, Ideal, ParsedFields, NoNewTwice, CurrentRules;
    var usable := Usable(t.records, items);
    UsableMembers(t.records, items);
    FewerFields(items, usable);
    var flat := WantedFlat(h, usable);
    var current := CurrentRules(t.rules, WantedRules(h, usable).rules.Keys);
    WantedRulesInsert(h, sha, t, usable, set r | r in current && r !in RuleIds(flat));
    InsertKeys(h, t.cycles, usable);
    InsertMissing(t.cycles, ParsedIds(h, usable), Inserts(h, t.cycles, usable));
    WritesNeverClash(h, sha, t, usable);
  }

  lemma {:induction false} FewerFields(items: seq<ParsedCycle>, some: seq<ParsedCycle>)
    requires ParsedFields(items) && forall p :: p in some ==> p in items
    ensures ParsedFields(some)
  {
  }

  /** Upserting described cycles never meets the unique constraint. */
  lemma {:induction false} WritesNeverClash(h: Hash, sha: Digest, t: Tables, items: seq<ParsedCycle>)
    requires Sound(h, sha, t)
    ensures var inserts, updates := Inserts(h, t.cycles, items), Updates(h, t.cycles, items);
            InsertAll(t.cycles, CycleIds(inserts), inserts).Some? ==>
              var c := InsertAll(t.cycles, CycleIds(inserts), inserts).value; !AnySectionTaken(c, inserts) && !UpdatesClash(c, updates)
  {
    hide Inserts, Updates, InsertAll, UpdatesClash, Sound, SectionTaken, CycleId;
    var inserts, updates := Inserts(h, t.cycles, items), Updates(h, t.cycles, items);
    InsertsMembers(h, t.cycles, items);
    UpdatesMembers(h, t.cycles, items);
    SoundIdentified(h, sha, t);
    if InsertAll(t.cycles, CycleIds(inserts), inserts).Some? {
      var c := InsertAll(t.cycles, CycleIds(inserts), inserts).value;
      InsertCyclesEffect(t.cycles, inserts, c);
      assert AllIdentified(h, c);
      forall x | x in inserts ensures !SectionTaken(c, x) { IdentifiedFree(h, c, x); }
      IdentifiedUpdates(h, c, updates);
    }
  }
}
