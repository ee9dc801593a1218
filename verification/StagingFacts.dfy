/** What the selection loops of the staging scripts select. */
module StagingFacts {
  import opened Base
  import opened Identity
  import opened Staging

  lemma {:induction false} NewRecordsMembers(records: map<RecordKey, HandoffRecord>, rows: seq<HandoffRecord>)
    ensures forall x :: x in NewRecords(records, rows) <==> x in rows && KeyOf(x) !in records
  {
    if rows != [] {
      var n := |rows| - 1;
      NewRecordsMembers(records, rows[..n]);
      assert rows == rows[..n] + [rows[n]];
    }
  }

  lemma {:induction false} FirstChangedNone(records: map<RecordKey, HandoffRecord>, rows: seq<HandoffRecord>)
    ensures FirstChanged(records, rows).None? <==> forall x :: x in rows ==> !Changed(records, x)
  {
    if rows != [] {
      var n := |rows| - 1;
      FirstChangedNone(records, rows[..n]);
      assert rows == rows[..n] + [rows[n]];
    }
  }

  lemma {:induction false} NewTracksMembers(tracks: map<string, MarketTrack>, rows: seq<SourceRow>, now: int)
    ensures forall x :: x in NewTracks(tracks, rows, now) ==> x.id !in tracks && exists r :: r in rows && x == TrackRow(r, now)
    ensures forall r :: r in rows && r.id !in tracks ==> TrackRow(r, now) in NewTracks(tracks, rows, now)
  {
    if rows != [] {
      var n := |rows| - 1;
      NewTracksMembers(tracks, rows[..n], now);
      assert rows == rows[..n] + [rows[n]];
    }
  }

  lemma {:induction false} FirstUnstagedNone(records: map<RecordKey, HandoffRecord>, cs: seq<CuratedCycle>)
    ensures FirstUnstaged(records, cs).None? <==> forall c :: c in cs ==> CuratedKey(c) in records
  {
    if cs != [] {
      var n := |cs| - 1;
      FirstUnstagedNone(records, cs[..n]);
      assert cs == cs[..n] + [cs[n]];
    }
  }

  lemma {:induction false} CheckCyclesMembers(existing: map<string, Cycle>, rows: seq<Cycle>)
    ensures CheckCycles(existing, rows).New? <==>
            forall x :: x in rows && x.id in existing ==> Agrees(existing[x.id], x)
    ensures CheckCycles(existing, rows).New? ==>
            forall x :: x in CheckCycles(existing, rows).rows <==> x in rows && x.id !in existing
  {
    if rows != [] {
      var n := |rows| - 1;
      CheckCyclesMembers(existing, rows[..n]);
      assert rows == rows[..n] + [rows[n]];
    }
  }

  lemma {:induction false} CheckRulesMembers(existing: map<string, Rule>, rows: seq<Rule>)
    ensures CheckRules(existing, rows).New? <==>
            forall x :: x in rows && x.id in existing ==> existing[x.id] == x
    ensures CheckRules(existing, rows).New? ==>
            forall x :: x in CheckRules(existing, rows).rows <==> x in rows && x.id !in existing
  {
    if rows != [] {
      var n := |rows| - 1;
      CheckRulesMembers(existing, rows[..n]);
      assert rows == rows[..n] + [rows[n]];
    }
  }

  lemma {:induction false} CuratedRulesMembers(h: Hash, cs: seq<CuratedCycle>)
    ensures forall r :: r in CuratedRules(h, cs) <==> exists c :: c in cs && r in CuratedRulesOf(h, c)
  {
    if cs != [] {
      var n := |cs| - 1;
      CuratedRulesMembers(h, cs[..n]);
      assert cs == cs[..n] + [cs[n]];
    }
  }

  lemma {:induction false} UsableMembers(records: map<RecordKey, HandoffRecord>, items: seq<ParsedCycle>)
    ensures forall p :: p in Usable(records, items) <==> p in items && ParsedKey(p) in records
  {
    if items != [] {
      var n := |items| - 1;
      UsableMembers(records, items[..n]);
      assert items == items[..n] + [items[n]];
    }
  }

  /** No item lost: each is either usable or reported as unstaged. */
  lemma {:induction false} UsableOrUnstaged(records: map<RecordKey, HandoffRecord>, items: seq<ParsedCycle>)
    ensures |Usable(records, items)| + |Unstaged(records, items)| == |items|
    ensures forall p :: p in items ==> p in Usable(records, items) || ParsedKey(p) in Unstaged(records, items)
  {
    if items != [] {
      var n := |items| - 1;
      UsableOrUnstaged(records, items[..n]);
      assert items == items[..n] + [items[n]];
    }
  }

  lemma {:induction false} InsertsMembers(h: Hash, cycles: map<string, Cycle>, items: seq<ParsedCycle>)
    ensures forall x :: x in Inserts(h, cycles, items) ==>
              x.id !in cycles && exists p :: p in items && x == CycleRow(h, p)
    ensures forall p :: p in items && ParsedId(h, p) !in cycles ==> CycleRow(h, p) in Inserts(h, cycles, items)
  {
    if items != [] {
      var n := |items| - 1;
      InsertsMembers(h, cycles, items[..n]);
      assert items == items[..n] + [items[n]];
    }
  }

  lemma {:induction false} UpdatesMembers(h: Hash, cycles: map<string, Cycle>, items: seq<ParsedCycle>)
    ensures forall x :: x in Updates(h, cycles, items) ==>
              x.id in cycles && cycles[x.id] != x && exists p :: p in items && x == CycleRow(h, p)
    ensures forall p :: p in items && ParsedId(h, p) in cycles && cycles[ParsedId(h, p)] != CycleRow(h, p) ==>
              CycleRow(h, p) in Updates(h, cycles, items)
  {
    if items != [] {
      var n := |items| - 1;
      UpdatesMembers(h, cycles, items[..n]);
      assert items == items[..n] + [items[n]];
    }
  }

  lemma {:induction false} WantedMembers(h: Hash, items: seq<ParsedCycle>)
    ensures forall k :: k in WantedRules(h, items).rules <==> exists p :: p in items && ParsedId(h, p) == k
    ensures forall k :: k in WantedRules(h, items).rules ==>
              exists p :: p in items && ParsedId(h, p) == k && WantedRules(h, items).rules[k] == RuleRows(h, p)
    ensures Distinct(WantedRules(h, items).order)
  {
    hide ParsedId, RuleRows, WantedRules, Distinct;
    WantedOrder(h, items);
    forall p | p in items ensures ParsedId(h, p) in WantedRules(h, items).rules { WantedHas(h, items, p); }
    forall k | k in WantedRules(h, items).rules
      ensures exists p :: p in items && ParsedId(h, p) == k && WantedRules(h, items).rules[k] == RuleRows(h, p)
    {
      var p := WantedFrom(h, items, k);
    }
  }

  lemma {:induction false} WantedOrder(h: Hash, items: seq<ParsedCycle>)
    ensures Distinct(WantedRules(h, items).order)
  {
    hide ParsedId, RuleRows;
    if items != [] {
      hide Distinct;
      var n := |items| - 1;
      WantedOrder(h, items[..n]);
      DistinctSnoc(WantedRules(h, items[..n]).order, ParsedId(h, items[n]));
    }
  }

  lemma {:induction false} WantedHas(h: Hash, items: seq<ParsedCycle>, p: ParsedCycle)
    requires p in items
    ensures ParsedId(h, p) in WantedRules(h, items).rules
  {
    hide ParsedId, RuleRows;
    var n := |items| - 1;
    assert items == items[..n] + [items[n]];
    if p in items[..n] { WantedHas(h, items[..n], p); }
  }

  lemma {:induction false} WantedFrom(h: Hash, items: seq<ParsedCycle>, k: string) returns (p: ParsedCycle)
    requires k in WantedRules(h, items).rules
    ensures p in items && ParsedId(h, p) == k && WantedRules(h, items).rules[k] == RuleRows(h, p)
  {
    hide ParsedId, RuleRows;
    var n := |items| - 1;
    assert items == items[..n] + [items[n]];
    if k == ParsedId(h, items[n]) { p := items[n]; } else { p := WantedFrom(h, items[..n], k); }
  }

  lemma {:induction false} FlattenMembers(order: seq<string>, rules: map<string, seq<Rule>>)
    requires forall k :: k in order ==> k in rules
    ensures forall r :: r in Flatten(order, rules) <==> exists k :: k in order && r in rules[k]
  {
    if order != [] {
      var n := |order| - 1;
      FlattenMembers(order[..n], rules);
      assert order == order[..n] + [order[n]];
    }
  }

  lemma {:induction false} NewRulesMembers(current: map<string, Rule>, wanted: seq<Rule>)
    ensures forall r :: r in NewRules(current, wanted) <==> r in wanted && r.id !in current
  {
    if wanted != [] {
      var n := |wanted| - 1;
      NewRulesMembers(current, wanted[..n]);
      assert wanted == wanted[..n] + [wanted[n]];
    }
  }

  lemma {:induction false} UpdateAllEffect(cycles: map<string, Cycle>, rows: seq<Cycle>)
    ensures UpdateAll(cycles, rows).Keys == cycles.Keys
    ensures forall k :: k in cycles ==>
              UpdateAll(cycles, rows)[k] == cycles[k] || exists x :: x in rows && x.id == k && UpdateAll(cycles, rows)[k] == x
    ensures forall k :: k in cycles && (forall x :: x in rows ==> x.id != k) ==> UpdateAll(cycles, rows)[k] == cycles[k]
  {
    if rows != [] {
      var n := |rows| - 1;
      UpdateAllEffect(cycles, rows[..n]);
      assert rows == rows[..n] + [rows[n]];
    }
  }

  lemma {:induction false} UpdateAllWrites(cycles: map<string, Cycle>, rows: seq<Cycle>, x: Cycle)
    requires Distinct(CycleIds(rows)) && x in rows && x.id in cycles
    ensures x.id in UpdateAll(cycles, rows) && UpdateAll(cycles, rows)[x.id] == x
  {
    hide Distinct;
    var n := |rows| - 1;
    var front, last := rows[..n], rows[n];
    assert rows == front + [last];
    assert CycleIds(rows) == CycleIds(front) + [last.id];
    DistinctSnoc(CycleIds(front), last.id);
    UpdatedKeys(cycles, front);
    if x in front {
      var i :| 0 <= i < n && front[i] == x;
      assert CycleIds(front)[i] == x.id;
      UpdateAllWrites(cycles, front, x);
    }
  }

  lemma {:induction false} UpdatedKeys(cycles: map<string, Cycle>, rows: seq<Cycle>)
    ensures UpdateAll(cycles, rows).Keys == cycles.Keys
  {
    if rows != [] { UpdatedKeys(cycles, rows[..|rows| - 1]); }
  }

  // ---- INSERT, in terms of the rows inserted ---------------------------------------

  lemma {:induction false} InsertRecordsEffect(table: map<RecordKey, HandoffRecord>, rows: seq<HandoffRecord>, result: map<RecordKey, HandoffRecord>)
    requires InsertAll(table, RecordKeys(rows), rows) == Some(result)
    ensures forall k :: k in table ==> k in result && result[k] == table[k]
    ensures forall k :: k in result && k !in table ==> result[k] in rows && KeyOf(result[k]) == k
    ensures forall x :: x in rows ==> KeyOf(x) in result && result[KeyOf(x)] == x
    ensures |result| == |table| + |rows|
  {
    var keys := RecordKeys(rows);
    InsertAllEffect(table, keys, rows);
    forall k | k in result && k !in table ensures result[k] in rows && KeyOf(result[k]) == k {
      var i :| 0 <= i < |keys| && keys[i] == k;
    }
    forall x | x in rows ensures KeyOf(x) in result && result[KeyOf(x)] == x {
      var i :| 0 <= i < |rows| && rows[i] == x;
      assert keys[i] == KeyOf(x);
    }
  }

  lemma {:induction false} InsertTracksEffect(table: map<string, MarketTrack>, rows: seq<MarketTrack>, result: map<string, MarketTrack>)
    requires InsertAll(table, TrackIds(rows), rows) == Some(result)
    ensures forall k :: k in table ==> k in result && result[k] == table[k]
    ensures forall k :: k in result && k !in table ==> result[k] in rows && result[k].id == k
    ensures forall x :: x in rows ==> x.id in result
    ensures |result| == |table| + |rows|
  {
    var keys := TrackIds(rows);
    InsertAllEffect(table, keys, rows);
    forall k | k in result && k !in table ensures result[k] in rows && result[k].id == k {
      var i :| 0 <= i < |keys| && keys[i] == k;
    }
    forall x | x in rows ensures x.id in result {
      var i :| 0 <= i < |rows| && rows[i] == x;
      assert keys[i] == x.id;
    }
  }

  lemma {:induction false} InsertCyclesEffect(table: map<string, Cycle>, rows: seq<Cycle>, result: map<string, Cycle>)
    requires InsertAll(table, CycleIds(rows), rows) == Some(result)
    ensures forall k :: k in table ==> k in result && result[k] == table[k]
    ensures forall k :: k in result && k !in table ==> result[k] in rows && result[k].id == k
    ensures forall x :: x in rows ==> x.id in result && result[x.id] == x
    ensures |result| == |table| + |rows|
  {
    var keys := CycleIds(rows);
    InsertAllEffect(table, keys, rows);
    forall k | k in result && k !in table ensures result[k] in rows && result[k].id == k {
      var i :| 0 <= i < |keys| && keys[i] == k;
    }
    forall x | x in rows ensures x.id in result && result[x.id] == x {
      var i :| 0 <= i < |rows| && rows[i] == x;
      assert keys[i] == x.id;
    }
  }

  lemma {:induction false} InsertRulesEffect(table: map<string, Rule>, rows: seq<Rule>, result: map<string, Rule>)
    requires InsertAll(table, RuleIds(rows), rows) == Some(result)
    ensures forall k :: k in table ==> k in result && result[k] == table[k]
    ensures forall k :: k in result && k !in table ==> result[k] in rows && result[k].id == k
    ensures forall x :: x in rows ==> x.id in result && x.id !in table && result[x.id] == x
    ensures |result| == |table| + |rows|
  {
    var keys := RuleIds(rows);
    InsertAllEffect(table, keys, rows);
    InsertAllSucceeds(table, keys, rows);
    forall k | k in result && k !in table ensures result[k] in rows && result[k].id == k {
      var i :| 0 <= i < |keys| && keys[i] == k;
    }
    forall x | x in rows ensures x.id in result && x.id !in table && result[x.id] == x {
      var i :| 0 <= i < |rows| && rows[i] == x;
      assert keys[i] == x.id;
    }
  }

  // ---- the keys a script would insert ----------------------------------------------

  lemma {:induction false} NewRecordKeys(records: map<RecordKey, HandoffRecord>, rows: seq<HandoffRecord>)
    ensures RecordKeys(NewRecords(records, rows)) == Missing(records, RecordKeys(rows))
  {
    if rows != [] {
      var n := |rows| - 1;
      NewRecordKeys(records, rows[..n]);
      assert RecordKeys(rows)[..n] == RecordKeys(rows[..n]);
    }
  }

  function SourceIds(rows: seq<SourceRow>): (ids: seq<string>)
    ensures |ids| == |rows| && forall i :: 0 <= i < |rows| ==> ids[i] == rows[i].id
  { seq(|rows|, i requires 0 <= i < |rows| => rows[i].id) }

  lemma {:induction false} NewTrackKeys(tracks: map<string, MarketTrack>, rows: seq<SourceRow>, now: int)
    ensures TrackIds(NewTracks(tracks, rows, now)) == Missing(tracks, SourceIds(rows))
  {
    if rows != [] {
      var n := |rows| - 1;
      NewTrackKeys(tracks, rows[..n], now);
      assert SourceIds(rows)[..n] == SourceIds(rows[..n]);
    }
  }

  lemma {:induction false} CheckCycleKeys(existing: map<string, Cycle>, rows: seq<Cycle>)
    requires CheckCycles(existing, rows).New?
    ensures CycleIds(CheckCycles(existing, rows).rows) == Missing(existing, CycleIds(rows))
  {
    if rows != [] {
      var n := |rows| - 1;
      CheckCycleKeys(existing, rows[..n]);
      assert CycleIds(rows)[..n] == CycleIds(rows[..n]);
    }
  }

  lemma {:induction false} CheckRuleKeys(existing: map<string, Rule>, rows: seq<Rule>)
    requires CheckRules(existing, rows).New?
    ensures RuleIds(CheckRules(existing, rows).rows) == Missing(existing, RuleIds(rows))
  {
    if rows != [] {
      var n := |rows| - 1;
      CheckRuleKeys(existing, rows[..n]);
      assert RuleIds(rows)[..n] == RuleIds(rows[..n]);
    }
  }

  function ParsedIds(h: Hash, items: seq<ParsedCycle>): (ids: seq<string>)
    ensures |ids| == |items| && forall i :: 0 <= i < |items| ==> ids[i] == ParsedId(h, items[i])
  { seq(|items|, i requires 0 <= i < |items| => ParsedId(h, items[i])) }

  lemma {:induction false} InsertKeys(h: Hash, cycles: map<string, Cycle>, items: seq<ParsedCycle>)
    ensures CycleIds(Inserts(h, cycles, items)) == Missing(cycles, ParsedIds(h, items))
  {
    hide CycleId;
    if items != [] {
      var n := |items| - 1;
      InsertKeys(h, cycles, items[..n]);
      assert ParsedIds(h, items)[..n] == ParsedIds(h, items[..n]);
      var front, row := Inserts(h, cycles, items[..n]), CycleRow(h, items[n]);
      assert CycleIds(front + [row]) == CycleIds(front) + [row.id];
      assert front + [] == front;
    }
  }

  lemma {:induction false} NewRuleKeys(current: map<string, Rule>, wanted: seq<Rule>)
    ensures RuleIds(NewRules(current, wanted)) == Missing(current, RuleIds(wanted))
  {
    if wanted != [] {
      var n := |wanted| - 1;
      NewRuleKeys(current, wanted[..n]);
      assert RuleIds(wanted)[..n] == RuleIds(wanted[..n]);
    }
  }

  /** No update of earlier items is for a cycle they do not describe. */
  lemma {:induction false} UpdateIdsOf(h: Hash, cycles: map<string, Cycle>, items: seq<ParsedCycle>, id: string)
    requires id !in ParsedIds(h, items)
    ensures id !in CycleIds(Updates(h, cycles, items))
  {
    hide Updates, CycleId;
    UpdatesMembers(h, cycles, items);
    var us := Updates(h, cycles, items);
    forall i | 0 <= i < |us| ensures us[i].id != id {
      assert us[i] in us;
      var q :| q in items && us[i] == CycleRow(h, q);
      var j :| 0 <= j < |items| && items[j] == q;
      assert ParsedIds(h, items)[j] == us[i].id;
    }
  }

  lemma {:induction false} UpdatesDistinct(h: Hash, cycles: map<string, Cycle>, items: seq<ParsedCycle>)
    requires Distinct(ParsedIds(h, items))
    ensures Distinct(CycleIds(Updates(h, cycles, items)))
  {
    hide Distinct, CycleId;
    if items == [] {
      NoUpdates(h, cycles);
    } else {
      var n := |items| - 1;
      var front, p := items[..n], items[n];
      assert ParsedIds(h, items) == ParsedIds(h, front) + [ParsedId(h, p)];
      DistinctSnoc(ParsedIds(h, front), ParsedId(h, p));
      UpdatesDistinct(h, cycles, front);
      UpdateIdsOf(h, cycles, front, ParsedId(h, p));
      var us := Updates(h, cycles, front);
      DistinctSnoc(CycleIds(us), ParsedId(h, p));
      assert CycleIds(us + [CycleRow(h, p)]) == CycleIds(us) + [ParsedId(h, p)];
      assert us + [] == us;
    }
  }

  lemma {:induction false} NoUpdates(h: Hash, cycles: map<string, Cycle>)
    ensures Distinct(CycleIds(Updates(h, cycles, [])))
  {
  }
}
