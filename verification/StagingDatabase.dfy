/** The staging tables as one database object, and the scripts as its methods.

    Each method follows its script's loops over local lists and commits at the
    end, as the surrounding transaction does; what a run does to the tables is
    the specification function of the same script. */
module StagingDatabase {
  import opened Base
  import opened Identity
  import opened Staging

  class Database {
    var records: map<RecordKey, HandoffRecord>
    var tracks: map<string, MarketTrack>
    var cycles: map<string, Cycle>
    var rules: map<string, Rule>

    ghost function Contents(): Tables
      reads this
    {
      Tables(records, tracks, cycles, rules)
    }

    constructor ()
      ensures Contents() == Tables(map[], map[], map[], map[])
    {
      records, tracks, cycles, rules := map[], map[], map[], map[];
    }

    /** stage_handoffs: insert what is missing, refuse when a staged record's
        payload hash has changed. */
    method StageHandoffs(sha: Digest, festivals: seq<SourceRow>, markets: seq<SourceRow>, live: set<string>,
                         now: int, apply: bool)
      returns (outcome: Outcome<HandoffResult>)
      modifies this
      ensures Ran(Contents(), outcome) == HandoffRun(sha, old(Contents()), festivals, markets, live, now, apply)
    {
      var incoming := BuildRecords(sha, festivals, markets, now);
      hide FirstChanged, NewRecords, NewTracks;
      var changed := FindChanged(records, incoming);
      if changed.Some? { return Refused(RecordChanged(changed.value)); }

      var newRecords, newTracks := MissingRows(records, tracks, incoming, markets, now);
      var snapshot := SnapshotIds(festivals);
      outcome := Done(HandoffResult(|festivals|, |markets|, |newRecords|, |newTracks|,
                                    |live * snapshot|, |live - snapshot|, apply));
      if apply {
        var r := InsertAll(records, RecordKeys(newRecords), newRecords);
        var m := InsertAll(tracks, TrackIds(newTracks), newTracks);
        if r.None? || m.None? { return Refused(DuplicateKey); }
        records, tracks := r.value, m.value;
      }
    }

    /** stage_curated_cycles: insert what is missing, refuse when a stored cycle
        or rule differs from the reviewed one. */
    method StageCurated(h: Hash, cs: seq<CuratedCycle>, apply: bool) returns (outcome: Outcome<CuratedResult>)
      modifies this
      ensures Ran(Contents(), outcome) == CuratedRun(h, old(Contents()), cs, apply)
    {
      hide FirstUnstaged, CuratedRules, CheckCycles, CheckRules, AnySectionTaken;
      var incoming := ReviewedRules(h, cs);
      var unstaged := FindUnstaged(records, cs);
      if unstaged.Some? { return Refused(RecordNotStaged(unstaged.value)); }

      var newCycles := CompareCycles(cycles, CuratedRows(h, cs));
      if newCycles.Differs? { return Refused(CycleDiffers(newCycles.id)); }
      var newRules := CompareRules(rules, incoming);
      if newRules.Differs? { return Refused(RuleDiffers(newRules.id)); }

      outcome := Done(CuratedResult(|cs|, |incoming|, |newCycles.rows|, |newRules.rows|, apply));
      if apply {
        var c := InsertAll(cycles, CycleIds(newCycles.rows), newCycles.rows);
        var r := InsertAll(rules, RuleIds(newRules.rows), newRules.rows);
        if c.None? || r.None? || AnySectionTaken(c.value, newCycles.rows) { return Refused(DuplicateKey); }
        cycles, rules := c.value, r.value;
      }
    }

    /** stage_verified_cycles: upsert the cycles the claims describe, replace
        their rules, report but never delete the cycles no claim describes. */
    method StageVerified(h: Hash, items: seq<ParsedCycle>, apply: bool) returns (outcome: Outcome<VerifiedResult>)
      modifies this
      ensures Ran(Contents(), outcome) == VerifiedRun(h, old(Contents()), items, apply)
    {
      hide Usable, Unstaged, Inserts, Updates, WantedRules, NewRules, Flatten, UpdateAll, UpdatesClash, AnySectionTaken;
      if records == map[] { return Refused(NothingStaged); }

      var usable, unstaged := SplitByRecord(records, items);
      var wanted, inserts, updates := PlanCycles(h, cycles, usable);
      var current := CurrentRules(rules, wanted.rules.Keys);
      var flat, newRules := PlanRules(current, wanted);
      var stale := set r | r in current && r !in RuleIds(flat);

      outcome := Done(VerifiedResult(|items|, |inserts|, |updates|, |newRules|, |stale|,
                                     cycles.Keys - wanted.rules.Keys, unstaged, apply));
      if apply {
        var c := InsertAll(cycles, CycleIds(inserts), inserts);
        var r := InsertAll(rules - stale, RuleIds(newRules), newRules);
        if c.None? || r.None? || AnySectionTaken(c.value, inserts) { return Refused(DuplicateKey); }
        var written, clash := WriteUpdates(c.value, updates);
        if clash { return Refused(DuplicateKey); }
        cycles, rules := written, r.value;
      }
    }
  }

  /** _source_records: festivals first, then markets. */
  method BuildRecords(sha: Digest, festivals: seq<SourceRow>, markets: seq<SourceRow>, now: int)
    returns (records: seq<HandoffRecord>)
    ensures records == SourceRecords(sha, festivals, markets, now)
  {
    records := [];
    for k := 0 to 2
      invariant k == 0 ==> records == []
      invariant k == 1 ==> records == RecordRows(sha, FESTIVAL, festivals, now)
      invariant k == 2 ==> records == SourceRecords(sha, festivals, markets, now)
    {
      var kind, rows := if k == 0 then FESTIVAL else MARKET, if k == 0 then festivals else markets;
      ghost var before := records;
      for i := 0 to |rows|
        invariant records == before + RecordRows(sha, kind, rows[..i], now)
      {
        records := records + [RecordRow(sha, kind, rows[i], now)];
        assert RecordRows(sha, kind, rows[..i + 1], now)
            == RecordRows(sha, kind, rows[..i], now) + [RecordRow(sha, kind, rows[i], now)];
      }
      assert rows[..|rows|] == rows;
    }
  }

  /** The refusing loop of stage_handoffs. */
  method FindChanged(records: map<RecordKey, HandoffRecord>, incoming: seq<HandoffRecord>) returns (key: Option<RecordKey>)
    ensures key == FirstChanged(records, incoming)
  {
    for i := 0 to |incoming|
      invariant FirstChanged(records, incoming[..i]) == None
    {
      assert incoming[..i + 1][..i] == incoming[..i];
      if Changed(records, incoming[i]) {
        FirstChangedPrefix(records, incoming, i + 1);
        return Some(KeyOf(incoming[i]));
      }
    }
    assert incoming[..|incoming|] == incoming;
    key := None;
  }

  /** The refusing loop of stage_curated_cycles. */
  method FindUnstaged(records: map<RecordKey, HandoffRecord>, cs: seq<CuratedCycle>) returns (key: Option<RecordKey>)
    ensures key == FirstUnstaged(records, cs)
  {
    for i := 0 to |cs|
      invariant FirstUnstaged(records, cs[..i]) == None
    {
      assert cs[..i + 1][..i] == cs[..i];
      if CuratedKey(cs[i]) !in records {
        FirstUnstagedPrefix(records, cs, i + 1);
        return Some(CuratedKey(cs[i]));
      }
    }
    assert cs[..|cs|] == cs;
    key := None;
  }

  /** The rules of the reviewed file, cycle by cycle. */
  method ReviewedRules(h: Hash, cs: seq<CuratedCycle>) returns (rules: seq<Rule>)
    ensures rules == CuratedRules(h, cs)
  {
    rules := [];
    for i := 0 to |cs|
      invariant rules == CuratedRules(h, cs[..i])
    {
      assert cs[..i + 1][..i] == cs[..i];
      rules := rules + CuratedRulesOf(h, cs[i]);
    }
    assert cs[..|cs|] == cs;
  }

  /** The records and tracks a handoff run has to insert. */
  method MissingRows(records: map<RecordKey, HandoffRecord>, tracks: map<string, MarketTrack>,
                     incoming: seq<HandoffRecord>, markets: seq<SourceRow>, now: int)
    returns (newRecords: seq<HandoffRecord>, newTracks: seq<MarketTrack>)
    ensures newRecords == NewRecords(records, incoming) && newTracks == NewTracks(tracks, markets, now)
  {
    newRecords, newTracks := [], [];
    for i := 0 to |incoming|
      invariant newRecords == NewRecords(records, incoming[..i])
    {
      assert incoming[..i + 1][..i] == incoming[..i];
      if KeyOf(incoming[i]) !in records { newRecords := newRecords + [incoming[i]]; }
    }
    for i := 0 to |markets|
      invariant newTracks == NewTracks(tracks, markets[..i], now)
    {
      assert markets[..i + 1][..i] == markets[..i];
      if markets[i].id !in tracks { newTracks := newTracks + [TrackRow(markets[i], now)]; }
    }
    assert incoming[..|incoming|] == incoming && markets[..|markets|] == markets;
  }

  /** First loop of stage_verified_cycles: set aside what points at no record. */
  method SplitByRecord(records: map<RecordKey, HandoffRecord>, items: seq<ParsedCycle>)
    returns (usable: seq<ParsedCycle>, unstaged: seq<RecordKey>)
    ensures usable == Usable(records, items) && unstaged == Unstaged(records, items)
  {
    usable, unstaged := [], [];
    for i := 0 to |items|
      invariant usable == Usable(records, items[..i]) && unstaged == Unstaged(records, items[..i])
    {
      assert items[..i + 1][..i] == items[..i];
      if ParsedKey(items[i]) !in records {
        unstaged := unstaged + [ParsedKey(items[i])];
      } else {
        usable := usable + [items[i]];
      }
    }
    assert items[..|items|] == items;
  }

  /** Second loop: what each usable cycle asks for, and how it meets what is stored. */
  method PlanCycles(h: Hash, cycles: map<string, Cycle>, usable: seq<ParsedCycle>)
    returns (wanted: Wanted, inserts: seq<Cycle>, updates: seq<Cycle>)
    ensures wanted == WantedRules(h, usable)
    ensures inserts == Inserts(h, cycles, usable) && updates == Updates(h, cycles, usable)
  {
    wanted, inserts, updates := Wanted([], map[]), [], [];
    for i := 0 to |usable|
      invariant wanted == WantedRules(h, usable[..i])
      invariant inserts == Inserts(h, cycles, usable[..i])
      invariant updates == Updates(h, cycles, usable[..i])
    {
      assert usable[..i + 1][..i] == usable[..i];
      var row := CycleRow(h, usable[i]);
      wanted := Put(wanted, row.id, RuleRows(h, usable[i]));
      if row.id !in cycles {
        inserts := inserts + [row];
      } else if cycles[row.id] != row {
        updates := updates + [row];
      }
    }
    assert usable[..|usable|] == usable;
  }

  method PlanRules(current: map<string, Rule>, wanted: Wanted) returns (flat: seq<Rule>, added: seq<Rule>)
    requires forall k :: k in wanted.order ==> k in wanted.rules
    ensures flat == Flatten(wanted.order, wanted.rules) && added == NewRules(current, flat)
  {
    flat, added := [], [];
    for i := 0 to |wanted.order|
      invariant flat == Flatten(wanted.order[..i], wanted.rules)
    {
      assert wanted.order[..i + 1][..i] == wanted.order[..i];
      flat := flat + wanted.rules[wanted.order[i]];
    }
    assert wanted.order[..|wanted.order|] == wanted.order;
    for i := 0 to |flat|
      invariant added == NewRules(current, flat[..i])
    {
      assert flat[..i + 1][..i] == flat[..i];
      if flat[i].id !in current { added := added + [flat[i]]; }
    }
    assert flat[..|flat|] == flat;
  }

  /** The UPDATEs, one statement each, and whether one breaks the unique constraint. */
  method WriteUpdates(cycles: map<string, Cycle>, updates: seq<Cycle>) returns (written: map<string, Cycle>, clash: bool)
    ensures written == UpdateAll(cycles, updates) && clash == UpdatesClash(cycles, updates)
  {
    hide SectionTaken;
    written, clash := cycles, false;
    for i := 0 to |updates|
      invariant written == UpdateAll(cycles, updates[..i]) && clash == UpdatesClash(cycles, updates[..i])
    {
      assert updates[..i + 1][..i] == updates[..i];
      if updates[i].id in written { written := written[updates[i].id := updates[i]]; }
      if SectionTaken(written, updates[i]) { clash := true; }
    }
    assert updates[..|updates|] == updates;
  }

  /** _check_existing, for cycles. */
  method CompareCycles(existing: map<string, Cycle>, incoming: seq<Cycle>) returns (check: Check<Cycle>)
    ensures check == CheckCycles(existing, incoming)
  {
    var rows: seq<Cycle> := [];
    for i := 0 to |incoming|
      invariant CheckCycles(existing, incoming[..i]) == New(rows)
    {
      assert incoming[..i + 1][..i] == incoming[..i];
      var row := incoming[i];
      if row.id !in existing {
        rows := rows + [row];
      } else if !Agrees(existing[row.id], row) {
        CheckCyclesPrefix(existing, incoming, i + 1);
        return Differs(row.id);
      }
    }
    assert incoming[..|incoming|] == incoming;
    check := New(rows);
  }

  /** _check_existing, for rules. */
  method CompareRules(existing: map<string, Rule>, incoming: seq<Rule>) returns (check: Check<Rule>)
    ensures check == CheckRules(existing, incoming)
  {
    var rows: seq<Rule> := [];
    for i := 0 to |incoming|
      invariant CheckRules(existing, incoming[..i]) == New(rows)
    {
      assert incoming[..i + 1][..i] == incoming[..i];
      var row := incoming[i];
      if row.id !in existing {
        rows := rows + [row];
      } else if existing[row.id] != row {
        CheckRulesPrefix(existing, incoming, i + 1);
        return Differs(row.id);
      }
    }
    assert incoming[..|incoming|] == incoming;
    check := New(rows);
  }

  // ---- the first offence found is the one reported --------------------------------

  lemma {:induction false} FirstChangedPrefix(records: map<RecordKey, HandoffRecord>, rows: seq<HandoffRecord>, n: nat)
    requires n <= |rows| && FirstChanged(records, rows[..n]).Some?
    ensures FirstChanged(records, rows) == FirstChanged(records, rows[..n])
    decreases |rows| - n
  {
    if n < |rows| {
      assert rows[..n + 1][..n] == rows[..n];
      FirstChangedPrefix(records, rows, n + 1);
    } else {
      assert rows[..n] == rows;
    }
  }

  lemma {:induction false} FirstUnstagedPrefix(records: map<RecordKey, HandoffRecord>, cs: seq<CuratedCycle>, n: nat)
    requires n <= |cs| && FirstUnstaged(records, cs[..n]).Some?
    ensures FirstUnstaged(records, cs) == FirstUnstaged(records, cs[..n])
    decreases |cs| - n
  {
    if n < |cs| {
      assert cs[..n + 1][..n] == cs[..n];
      FirstUnstagedPrefix(records, cs, n + 1);
    } else {
      assert cs[..n] == cs;
    }
  }

  lemma {:induction false} CheckCyclesPrefix(existing: map<string, Cycle>, rows: seq<Cycle>, n: nat)
    requires n <= |rows| && CheckCycles(existing, rows[..n]).Differs?
    ensures CheckCycles(existing, rows) == CheckCycles(existing, rows[..n])
    decreases |rows| - n
  {
    if n < |rows| {
      assert rows[..n + 1][..n] == rows[..n];
      CheckCyclesPrefix(existing, rows, n + 1);
    } else {
      assert rows[..n] == rows;
    }
  }

  lemma {:induction false} CheckRulesPrefix(existing: map<string, Rule>, rows: seq<Rule>, n: nat)
    requires n <= |rows| && CheckRules(existing, rows[..n]).Differs?
    ensures CheckRules(existing, rows) == CheckRules(existing, rows[..n])
    decreases |rows| - n
  {
    if n < |rows| {
      assert rows[..n + 1][..n] == rows[..n];
      CheckRulesPrefix(existing, rows, n + 1);
    } else {
      assert rows[..n] == rows;
    }
  }
}
