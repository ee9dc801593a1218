/** Claims that describe one cycle more than once in the same verified run. */
module StagingRepeats {
  import opened Base
  import opened Identity
  import opened Staging
  import opened StagingFacts
  import opened StagingInvariant
  import opened StagingTheorems
  import opened StagingVerified

  /** Item `k` is the last that describes its cycle. */
  ghost predicate LastOf(h: Hash, items: seq<ParsedCycle>, k: nat) {
    k < |items| && forall j :: k < j < |items| ==> ParsedId(h, items[j]) != ParsedId(h, items[k])
  }

  /** Item `k` describes the cycle `id` otherwise than it is stored, and no later item does. */
  ghost predicate LastMove(h: Hash, t: Tables, items: seq<ParsedCycle>, id: string, k: nat) {
    && k < |items| && Moves(h, t, items[k], id)
    && forall j :: k < j < |items| ==> !Moves(h, t, items[j], id)
  }

  ghost predicate Moves(h: Hash, t: Tables, p: ParsedCycle, id: string) {
    ParsedId(h, p) == id && id in t.cycles && t.cycles[id] != CycleRow(h, p)
  }

  // ---- the rules ------------------------------------------------------------------------------

  lemma {:induction false} WantedLast(h: Hash, items: seq<ParsedCycle>, k: nat)
    requires LastOf(h, items, k)
    ensures ParsedId(h, items[k]) in WantedRules(h, items).rules && WantedRules(h, items).rules[ParsedId(h, items[k])] == RuleRows(h, items[k])
  {
    hide ParsedId, RuleRows;
    var n := |items| - 1;
    if k < n {
      assert forall j :: 0 <= j < n ==> items[..n][j] == items[j];
      WantedLast(h, items[..n], k);
    }
  }

  /** The wanted rules of one cycle are those of its last description. */
  lemma {:induction false} FlatOfLast(h: Hash, items: seq<ParsedCycle>, k: nat)
    requires LastOf(h, items, k)
    ensures forall x :: x in RuleRows(h, items[k]) <==> x in WantedFlat(h, items) && x.cycleId == ParsedId(h, items[k])
  {
    hide ParsedId, WantedRules;
    var w, id := WantedRules(h, items), ParsedId(h, items[k]);
    WantedLast(h, items, k);
    WantedMembers(h, items);
    FlattenMembers(w.order, w.rules);
    forall x | x in RuleRows(h, items[k]) ensures x in WantedFlat(h, items) && x.cycleId == id {
      assert id in w.order;
    }
    forall x | x in WantedFlat(h, items) && x.cycleId == id ensures x in RuleRows(h, items[k]) {
      var key :| key in w.order && x in w.rules[key];
      var p :| p in items && ParsedId(h, p) == key && w.rules[key] == RuleRows(h, p);
    }
  }

  // ---- the cycle --------------------------------------------------------------------------------

  lemma {:induction false} UpdatesLast(h: Hash, t: Tables, current: map<string, Cycle>, items: seq<ParsedCycle>, id: string, k: nat)
    requires LastMove(h, t, items, id, k) && id in current
    ensures var u := UpdateAll(current, Updates(h, t.cycles, items)); id in u && u[id] == CycleRow(h, items[k])
  {
    hide ParsedId, CycleRow, UpdateAll, Updates;
    var n := |items| - 1;
    var p := items[n];
    assert forall j :: 0 <= j < n ==> items[..n][j] == items[j];
    UpdateSnoc(h, t, current, items, id);
    if k < n { UpdatesLast(h, t, current, items[..n], id, k); }
  }

  /** The effect of the last item on what is written under `id`. */
  lemma {:induction false} UpdateSnoc(h: Hash, t: Tables, current: map<string, Cycle>, items: seq<ParsedCycle>, id: string)
    requires items != [] && id in current
    ensures var n := |items| - 1;
            var before, after := UpdateAll(current, Updates(h, t.cycles, items[..n])), UpdateAll(current, Updates(h, t.cycles, items));
            id in before && id in after && after[id] == if Moves(h, t, items[n], id) then CycleRow(h, items[n]) else before[id]
  {
    hide CycleId;
    var n := |items| - 1;
    var front, row := Updates(h, t.cycles, items[..n]), CycleRow(h, items[n]);
    UpdatedKeys(current, front);
    if row.id in t.cycles && t.cycles[row.id] != row {
      assert (front + [row])[..|front|] == front;
      UpdatedKeys(current, front + [row]);
    } else {
      assert front + [] == front;
    }
  }

  /** The parts of an applied run on the cycles. */
  lemma {:induction false} CyclesWritten(h: Hash, t: Tables, items: seq<ParsedCycle>)
    requires VerifiedRun(h, t, items, true).outcome.Done?
    ensures var usable := Usable(t.records, items); var inserts := Inserts(h, t.cycles, usable);
            var c := InsertAll(t.cycles, CycleIds(inserts), inserts);
            c.Some? && VerifiedRun(h, t, items, true).tables.cycles == UpdateAll(c.value, Updates(h, t.cycles, usable))
  {
    hide Usable, Unstaged, Inserts, Updates, UpdateAll, UpdatesClash, AnySectionTaken, InsertAll, WantedRules, WantedFlat, NewRules;
  }

  /** However often it is described, a stored cycle ends up as the last description that
      says something new has it, while its rules become those of the last description
      of all. The two need not be the same. */
  lemma {:induction false} RepeatedClaims(h: Hash, sha: Digest, t: Tables, items: seq<ParsedCycle>, k: nat)
    requires Sound(h, sha, t) && Ideal(h) && ParsedFields(items) && VerifiedRun(h, t, items, true).outcome.Done?
    requires LastOf(h, Usable(t.records, items), k)
    ensures var u, usable := VerifiedRun(h, t, items, true).tables, Usable(t.records, items);
            var id := ParsedId(h, usable[k]);
            && id in u.cycles
            && (forall m: nat :: LastMove(h, t, usable, id, m) ==> u.cycles[id] == CycleRow(h, usable[m]))
            && (id in t.cycles && (forall m: nat :: !LastMove(h, t, usable, id, m)) ==> u.cycles[id] == t.cycles[id])
            && (id !in t.cycles ==> u.cycles[id] == CycleRow(h, usable[k]))
            && forall r :: (r in u.rules && u.rules[r].cycleId == id) <==> r in RuleIds(RuleRows(h, usable[k]))
  {
    hide VerifiedRun, Usable, ParsedId, CycleRow, RuleRows, WantedRules, WantedFlat, Sound, Ideal, ParsedFields, RulesFollow, LastMove, LastOf;
    var usable := Usable(t.records, items);
    RepeatedCycle(h, sha, t, items, k);
    UsableMembers(t.records, items);
    FewerFields(items, usable);
    VerifiedRules(h, t, items);
    RepeatedRules(h, sha, t, VerifiedRun(h, t, items, true).tables, usable, k);
  }

  lemma {:induction false} RepeatedRules(h: Hash, sha: Digest, t: Tables, u: Tables, usable: seq<ParsedCycle>, k: nat)
    requires Sound(h, sha, t) && Ideal(h) && ParsedFields(usable) && LastOf(h, usable, k)
    requires RulesFollow(t, u, WantedFlat(h, usable), WantedRules(h, usable).rules.Keys)
    ensures forall r :: (r in u.rules && u.rules[r].cycleId == ParsedId(h, usable[k])) <==> r in RuleIds(RuleRows(h, usable[k]))
  {
    hide ParsedId, WantedRules, WantedFlat, Sound, Ideal, ParsedFields, RuleRows, RuleIds, Proper, CurrentRules;
    var flat, id := WantedFlat(h, usable), ParsedId(h, usable[k]);
    FlatOfLast(h, usable, k);
    WantedLast(h, usable, k);
    RuleIdMembers(RuleRows(h, usable[k]));
    RuleIdMembers(flat);
    WantedFlatMembers(h, usable);
    forall x | x in flat ensures x.id in u.rules && u.rules[x.id].cycleId == x.cycleId { FlatRuleStored(h, sha, t, u, usable, x); }
    forall r | r in u.rules && u.rules[r].cycleId == id ensures exists x :: x in flat && x.id == r {
      RuleFromFlat(t, u, flat, WantedRules(h, usable).rules.Keys, r);
    }
  }

  lemma {:induction false} RuleFromFlat(t: Tables, u: Tables, flat: seq<Rule>, touched: set<string>, r: string)
    requires RulesFollow(t, u, flat, touched) && r in u.rules && u.rules[r].cycleId in touched
    ensures exists x :: x in flat && x.id == r
  {
    RuleIdMembers(flat);
    hide RuleIds;
  }

  /** A wanted rule is stored for the cycle it is wanted for. */
  lemma {:induction false} FlatRuleStored(h: Hash, sha: Digest, t: Tables, u: Tables, usable: seq<ParsedCycle>, x: Rule)
    requires Sound(h, sha, t) && Ideal(h) && ParsedFields(usable) && x in WantedFlat(h, usable)
    requires RulesFollow(t, u, WantedFlat(h, usable), WantedRules(h, usable).rules.Keys)
    ensures x.id in u.rules && u.rules[x.id].cycleId == x.cycleId
  {
    hide WantedRules, WantedFlat, RulesFollow;
    WantedRuleStored(h, sha, t, u, usable, x);
    WantedFlatMembers(h, usable);
    var p :| p in usable && x in RuleRows(h, p);
    RuleRowProper(h, p, x);
    if x.id in t.rules {
      assert RuleSound(h, t, x.id);
      assert CycleSound(h, t, t.rules[x.id].cycleId);
      SameRuleSameCycle(h, x, t.rules[x.id]);
    }
  }

  lemma {:induction false} RepeatedCycle(h: Hash, sha: Digest, t: Tables, items: seq<ParsedCycle>, k: nat)
    requires Sound(h, sha, t) && Ideal(h) && ParsedFields(items) && VerifiedRun(h, t, items, true).outcome.Done?
    requires LastOf(h, Usable(t.records, items), k)
    ensures var u, usable := VerifiedRun(h, t, items, true).tables, Usable(t.records, items);
            var id := ParsedId(h, usable[k]);
            && id in u.cycles
            && (forall m: nat :: LastMove(h, t, usable, id, m) ==> u.cycles[id] == CycleRow(h, usable[m]))
            && (id in t.cycles && (forall m: nat :: !LastMove(h, t, usable, id, m)) ==> u.cycles[id] == t.cycles[id])
            && (id !in t.cycles ==> u.cycles[id] == CycleRow(h, usable[k]))
  {
    hide VerifiedRun, Usable, Inserts, Updates, UpdateAll, InsertAll, Sound, Ideal, ParsedFields, CycleId, NoNewTwice;
    var usable := Usable(t.records, items);
    var id, inserts := ParsedId(h, usable[k]), Inserts(h, t.cycles, usable);
    CyclesWritten(h, t, items);
    var c := InsertAll(t.cycles, CycleIds(inserts), inserts).value;
    InsertCyclesEffect(t.cycles, inserts, c);
    InsertsMembers(h, t.cycles, usable);
    assert usable[k] in usable;
    if id !in t.cycles { assert CycleRow(h, usable[k]) in inserts; }
    forall m: nat | LastMove(h, t, usable, id, m) ensures var u := UpdateAll(c, Updates(h, t.cycles, usable)); id in u && u[id] == CycleRow(h, usable[m]) {
      UpdatesLast(h, t, c, usable, id, m);
    }
    NoMove(h, t, c, usable, id);
  }

  lemma {:induction false} NoMove(h: Hash, t: Tables, current: map<string, Cycle>, items: seq<ParsedCycle>, id: string)
    requires id in current
    ensures id in UpdateAll(current, Updates(h, t.cycles, items))
    ensures (forall m: nat :: !LastMove(h, t, items, id, m)) ==> UpdateAll(current, Updates(h, t.cycles, items))[id] == current[id]
  {
    hide UpdateAll, Updates, Moves;
    if items == [] {
      NothingMoved(h, t, current);
    } else {
      var n := |items| - 1;
      assert forall j :: 0 <= j < n ==> items[..n][j] == items[j];
      UpdateSnoc(h, t, current, items, id);
      NoMove(h, t, current, items[..n], id);
      if forall m: nat :: !LastMove(h, t, items, id, m) {
        assert !LastMove(h, t, items, id, n);
        forall m: nat ensures !LastMove(h, t, items[..n], id, m) { assert !LastMove(h, t, items, id, m); }
      }
    }
  }

  lemma {:induction false} NothingMoved(h: Hash, t: Tables, current: map<string, Cycle>)
    ensures UpdateAll(current, Updates(h, t.cycles, [])) == current
  {
  }

  // ---- a cycle from one claim with the rules of another ------------------------------------------

  /** Two usable claims describe one stored cycle; the first has news of it, the second
      says what is stored. The cycle takes the first one's news and loses its rules:
      only the second's are kept. */
  lemma {:induction false} NewsWithoutItsRules(h: Hash, sha: Digest, t: Tables, news: ParsedCycle, known: ParsedCycle)
    requires Sound(h, sha, t) && Ideal(h) && ParsedFields([news, known])
    requires ParsedKey(news) in t.records && ParsedKey(known) == ParsedKey(news) && ParsedId(h, news) == ParsedId(h, known) && ParsedId(h, known) in t.cycles
    requires t.cycles[ParsedId(h, known)] == CycleRow(h, known) && CycleRow(h, known) != CycleRow(h, news)
    ensures var run := VerifiedRun(h, t, [news, known], true);
            var id := ParsedId(h, known);
            && run.outcome.Done? && id in run.tables.cycles && run.tables.cycles[id] == CycleRow(h, news)
            && forall r :: (r in run.tables.rules && run.tables.rules[r].cycleId == id) <==> r in RuleIds(RuleRows(h, known))
  {
    hide VerifiedRun, ParsedId, CycleRow, RuleRows, Sound, Ideal;
    var items := [news, known];
    assert items[..1] == [news] && items[..1][..0] == [];
    assert Usable(t.records, [news]) == [news];
    assert Usable(t.records, items) == items;
    assert NoNewTwice(t.cycles, ParsedIds(h, items));
    VerifiedAccepted(h, sha, t, items);
    assert LastMove(h, t, items, ParsedId(h, known), 0);
    RepeatedClaims(h, sha, t, items, 1);
  }
}
