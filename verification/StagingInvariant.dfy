/** What every interleaving of the three staging scripts keeps. */
module StagingInvariant {
  import opened Base
  import opened Text
  import opened Identity
  import opened Staging
  import opened StagingFacts

  // ---- the invariant -----------------------------------------------------------

  /** A record carries the hash of its own payload. */
  ghost predicate RecordSound(sha: Digest, t: Tables, k: RecordKey)
    requires k in t.records
  {
    KeyOf(t.records[k]) == k && t.records[k].payloadHash == sha(t.records[k].payload)
  }

  /** A cycle is stored under its identity and its handoff record is staged. */
  ghost predicate CycleSound(h: Hash, t: Tables, c: string)
    requires c in t.cycles
  {
    var row := t.cycles[c];
    && row.id == c == CycleId(h, row.kind, row.recordId, row.sectionName, row.cycleDeadline)
    && RecordKey(row.kind, row.recordId) in t.records
  }

  /** A rule is known by its cycle, its place, its field and its text. */
  ghost predicate Proper(h: Hash, r: Rule) {
    Free(':', r.projectField) && exists i :: r.id == RuleId(h, r.cycleId, i, r.projectField, r.condition)
  }

  /** A rule is stored under its identity and its cycle exists. */
  ghost predicate RuleSound(h: Hash, t: Tables, r: string)
    requires r in t.rules
  {
    t.rules[r].id == r && Proper(h, t.rules[r]) && t.rules[r].cycleId in t.cycles
  }

  ghost predicate Sound(h: Hash, sha: Digest, t: Tables) {
    && (forall k :: k in t.records ==> RecordSound(sha, t, k))
    && (forall c :: c in t.cycles ==> CycleSound(h, t, c))
    && (forall r :: r in t.rules ==> RuleSound(h, t, r))
  }

  /** Nothing a run may not take back: records and market tracks stay as they
      were first written, and no cycle leaves the universe. */
  ghost predicate Keeps(t: Tables, u: Tables) {
    && (forall k :: k in t.records ==> k in u.records && u.records[k] == t.records[k])
    && (forall k :: k in t.tracks ==> k in u.tracks && u.tracks[k] == t.tracks[k])
    && (forall c :: c in t.cycles ==> c in u.cycles)
  }

  // ---- one run --------------------------------------------------------------------

  /** Rule fields are Project DNA names, which hold no colon. */
  ghost predicate CuratedFields(cs: seq<CuratedCycle>) {
    forall c :: c in cs ==> forall g :: g in c.gates ==> Free(':', g.field)
  }

  ghost predicate ParsedFields(items: seq<ParsedCycle>) {
    forall p :: p in items ==> forall r :: r in p.rules ==> Free(':', r.projectField)
  }

  /** A staged record, column by column. */
  ghost predicate RecordSays(sha: Digest, kind: string, row: SourceRow, now: int, x: HandoffRecord) {
    && x.kind == kind && x.recordId == row.id && x.name == row.name
    && x.version == (if kind == "FESTIVAL" then "festival_v2.1_2026-09-15" else "markets_v1_2026-09-16")
    && x.routing == (if kind == "FESTIVAL" then row.routing else Some("MARKET_LAB_WIP"))
    && x.payload == row && x.payloadHash == sha(row) && x.importedAt == now
  }

  /** The snapshots list a row under this key that says what the record says. */
  ghost predicate Snapshotted(sha: Digest, festivals: seq<SourceRow>, markets: seq<SourceRow>, now: int, k: RecordKey, x: HandoffRecord) {
    || (exists r :: r in festivals && k == RecordKey("FESTIVAL", r.id) && RecordSays(sha, "FESTIVAL", r, now, x))
    || (exists r :: r in markets && k == RecordKey("MARKET_LAB_WIP", r.id) && RecordSays(sha, "MARKET_LAB_WIP", r, now, x))
  }

  ghost predicate RecordsStored(sha: Digest, t: Tables, u: Tables, festivals: seq<SourceRow>, markets: seq<SourceRow>, now: int) {
    && (forall k :: k in t.records ==> k in u.records && u.records[k] == t.records[k])
    && (forall k :: k in u.records && k !in t.records ==> Snapshotted(sha, festivals, markets, now, k, u.records[k]))
    && (forall r :: r in festivals ==> RecordKey("FESTIVAL", r.id) in u.records && u.records[RecordKey("FESTIVAL", r.id)].payloadHash == sha(r))
    && (forall r :: r in markets ==>
          RecordKey("MARKET_LAB_WIP", r.id) in u.records && u.records[RecordKey("MARKET_LAB_WIP", r.id)].payloadHash == sha(r))
  }

  /** A market track, column by column. */
  ghost predicate TrackSays(row: SourceRow, now: int, x: MarketTrack) {
    && x.id == row.id && x.name == row.name && x.verifiedOn == row.verifiedOn && x.paidSafe == row.paidSafe && x.prose == row.prose
    && x.version == "markets_v1_2026-09-16" && x.createdAt == now
  }

  ghost predicate TracksStored(t: Tables, u: Tables, markets: seq<SourceRow>, now: int) {
    && (forall k :: k in t.tracks ==> k in u.tracks && u.tracks[k] == t.tracks[k])
    && (forall k :: k in u.tracks && k !in t.tracks ==> exists r :: r in markets && r.id == k && TrackSays(r, now, u.tracks[k]))
    && (forall r :: r in markets ==> r.id in u.tracks)
  }

  lemma {:induction false} SourceRecordsAre(sha: Digest, festivals: seq<SourceRow>, markets: seq<SourceRow>, now: int)
    ensures forall x :: x in SourceRecords(sha, festivals, markets, now) <==>
              || (exists r :: r in festivals && x == RecordRow(sha, FESTIVAL, r, now))
              || (exists r :: r in markets && x == RecordRow(sha, MARKET, r, now))
  {
    hide RecordRow;
    var fs, ms := RecordRows(sha, FESTIVAL, festivals, now), RecordRows(sha, MARKET, markets, now);
    RecordRowsAre(sha, FESTIVAL, festivals, now);
    RecordRowsAre(sha, MARKET, markets, now);
    assert forall x :: x in fs + ms <==> x in fs || x in ms;
  }

  lemma {:induction false} RecordRowsAre(sha: Digest, kind: string, rows: seq<SourceRow>, now: int)
    ensures forall x :: x in RecordRows(sha, kind, rows, now) <==> exists r :: r in rows && x == RecordRow(sha, kind, r, now)
  {
    hide RecordRow;
  }

  lemma {:induction false} RecordRowSays(sha: Digest, kind: string, row: SourceRow, now: int)
    ensures RecordSays(sha, kind, row, now, RecordRow(sha, kind, row, now)) && KeyOf(RecordRow(sha, kind, row, now)) == RecordKey(kind, row.id)
  {
  }

  lemma {:induction false} RowIncoming(sha: Digest, kind: string, row: SourceRow, now: int)
    ensures KeyOf(RecordRow(sha, kind, row, now)) == RecordKey(kind, row.id) && RecordRow(sha, kind, row, now).payloadHash == sha(row)
  {
  }

  lemma {:induction false} RecordsAreStored(sha: Digest, t: Tables, u: Tables, festivals: seq<SourceRow>, markets: seq<SourceRow>, now: int)
    requires var incoming := SourceRecords(sha, festivals, markets, now);
             && FirstChanged(t.records, incoming).None?
             && InsertAll(t.records, RecordKeys(NewRecords(t.records, incoming)), NewRecords(t.records, incoming)) == Some(u.records)
    ensures RecordsStored(sha, t, u, festivals, markets, now)
    ensures |u.records| == |t.records| + |NewRecords(t.records, SourceRecords(sha, festivals, markets, now))|
  {
    hide RecordRow, RecordSays, SourceRecords, FirstChanged, NewRecords, InsertAll;
    var incoming := SourceRecords(sha, festivals, markets, now);
    var records := NewRecords(t.records, incoming);
    NewRecordsMembers(t.records, incoming);
    FirstChangedNone(t.records, incoming);
    InsertRecordsEffect(t.records, records, u.records);
    SourceRecordsAre(sha, festivals, markets, now);
    forall kind, r | (r in festivals && kind == FESTIVAL) || (r in markets && kind == MARKET)
      ensures RecordKey(kind, r.id) in u.records && u.records[RecordKey(kind, r.id)].payloadHash == sha(r)
    {
      RowIncoming(sha, kind, r, now);
      var x := RecordRow(sha, kind, r, now);
      assert x in incoming;
      if KeyOf(x) in t.records { assert !Changed(t.records, x); } else { assert x in records; }
    }
    hide Snapshotted;
    forall k | k in u.records && k !in t.records ensures Snapshotted(sha, festivals, markets, now, k, u.records[k]) {
      IncomingSnapshotted(sha, festivals, markets, now, u.records[k]);
    }
  }

  lemma {:induction false} IncomingSnapshotted(sha: Digest, festivals: seq<SourceRow>, markets: seq<SourceRow>, now: int, x: HandoffRecord)
    requires x in SourceRecords(sha, festivals, markets, now)
    ensures Snapshotted(sha, festivals, markets, now, KeyOf(x), x)
  {
    hide RecordRow, RecordSays, SourceRecords;
    SourceRecordsAre(sha, festivals, markets, now);
    if r :| r in festivals && x == RecordRow(sha, FESTIVAL, r, now) {
      RecordRowSays(sha, FESTIVAL, r, now);
    } else {
      var r :| r in markets && x == RecordRow(sha, MARKET, r, now);
      RecordRowSays(sha, MARKET, r, now);
    }
  }

  lemma {:induction false} TracksAreStored(t: Tables, u: Tables, markets: seq<SourceRow>, now: int)
    requires InsertAll(t.tracks, TrackIds(NewTracks(t.tracks, markets, now)), NewTracks(t.tracks, markets, now)) == Some(u.tracks)
    ensures TracksStored(t, u, markets, now) && |u.tracks| == |t.tracks| + |NewTracks(t.tracks, markets, now)|
  {
    hide NewTracks, InsertAll;
    var tracks := NewTracks(t.tracks, markets, now);
    NewTracksMembers(t.tracks, markets, now);
    InsertTracksEffect(t.tracks, tracks, u.tracks);
    forall k | k in u.tracks && k !in t.tracks ensures exists r :: r in markets && r.id == k && TrackSays(r, now, u.tracks[k]) {
      var r :| r in markets && u.tracks[k] == TrackRow(r, now);
    }
    forall r | r in markets ensures r.id in u.tracks {
      if r.id !in t.tracks { assert TrackRow(r, now) in tracks; }
    }
  }

  /** What an applied handoff run leaves, column by column: every stored row as it
      was, plus the missing rows of the snapshots, as many as it reports. */
  lemma {:induction false} HandoffEffect(sha: Digest, t: Tables, festivals: seq<SourceRow>, markets: seq<SourceRow>,
                                         live: set<string>, now: int)
    requires HandoffRun(sha, t, festivals, markets, live, now, true).outcome.Done?
    ensures var run := HandoffRun(sha, t, festivals, markets, live, now, true);
            && run.tables.cycles == t.cycles && run.tables.rules == t.rules && Keeps(t, run.tables)
            && RecordsStored(sha, t, run.tables, festivals, markets, now) && TracksStored(t, run.tables, markets, now)
            && |run.tables.records| == |t.records| + run.outcome.result.newRecords
            && |run.tables.tracks| == |t.tracks| + run.outcome.result.newTracks
  {
    hide HandoffRun, FirstChanged, NewRecords, NewTracks, InsertAll, SourceRecords, RecordsStored, TracksStored, Keeps;
    var u := HandoffRun(sha, t, festivals, markets, live, now, true).tables;
    HandoffParts(sha, t, festivals, markets, live, now);
    RecordsAreStored(sha, t, u, festivals, markets, now);
    TracksAreStored(t, u, markets, now);
    StoredKeeps(sha, t, u, festivals, markets, now);
  }

  /** The parts of an applied handoff run: two inserts and what it says of them. */
  lemma {:induction false} HandoffParts(sha: Digest, t: Tables, festivals: seq<SourceRow>, markets: seq<SourceRow>, live: set<string>, now: int)
    requires HandoffRun(sha, t, festivals, markets, live, now, true).outcome.Done?
    ensures var run, incoming := HandoffRun(sha, t, festivals, markets, live, now, true), SourceRecords(sha, festivals, markets, now);
            var records, tracks := NewRecords(t.records, incoming), NewTracks(t.tracks, markets, now);
            && FirstChanged(t.records, incoming).None?
            && InsertAll(t.records, RecordKeys(records), records) == Some(run.tables.records)
            && InsertAll(t.tracks, TrackIds(tracks), tracks) == Some(run.tables.tracks)
            && run.tables.cycles == t.cycles && run.tables.rules == t.rules
            && run.outcome.result.newRecords == |records| && run.outcome.result.newTracks == |tracks|
  {
    hide FirstChanged, NewRecords, NewTracks, InsertAll, SourceRecords, RecordKeys, TrackIds;
  }

  lemma {:induction false} StoredKeeps(sha: Digest, t: Tables, u: Tables, festivals: seq<SourceRow>, markets: seq<SourceRow>, now: int)
    requires RecordsStored(sha, t, u, festivals, markets, now) && TracksStored(t, u, markets, now) && u.cycles == t.cycles
    ensures Keeps(t, u)
  {
    hide Snapshotted, TrackSays;
  }

  lemma {:induction false} RecordsAdded(h: Hash, sha: Digest, t: Tables, u: Tables)
    requires Sound(h, sha, t) && Keeps(t, u) && u.cycles == t.cycles && u.rules == t.rules
    requires forall k :: k in u.records && k !in t.records ==> RecordSound(sha, u, k)
    ensures Sound(h, sha, u)
  {
    forall k | k in t.records ensures RecordSound(sha, u, k) { assert RecordSound(sha, t, k); }
    forall c | c in t.cycles ensures CycleSound(h, u, c) { assert CycleSound(h, t, c); }
    forall r | r in t.rules ensures RuleSound(h, u, r) { assert RuleSound(h, t, r); }
  }

  lemma {:induction false} HandoffKeeps(h: Hash, sha: Digest, t: Tables, festivals: seq<SourceRow>, markets: seq<SourceRow>,
                                        live: set<string>, now: int, apply: bool)
    requires Sound(h, sha, t)
    ensures var u := HandoffRun(sha, t, festivals, markets, live, now, apply).tables;
            Sound(h, sha, u) && Keeps(t, u) && u.cycles == t.cycles && u.rules == t.rules
  {
    hide FirstChanged, NewRecords, NewTracks, InsertAll;
    var run := HandoffRun(sha, t, festivals, markets, live, now, apply);
    if apply && run.outcome.Done? {
      HandoffEffect(sha, t, festivals, markets, live, now);
      forall k | k in run.tables.records && k !in t.records ensures RecordSound(sha, run.tables, k) {
        assert Snapshotted(sha, festivals, markets, now, k, run.tables.records[k]);
      }
      RecordsAdded(h, sha, t, run.tables);
    } else {
      assert run.tables == t;
    }
  }

  lemma {:induction false} CuratedRuleProper(h: Hash, c: CuratedCycle, r: Rule)
    requires r in CuratedRulesOf(h, c) && forall g :: g in c.gates ==> Free(':', g.field)
    ensures r.cycleId == CuratedId(h, c) && Proper(h, r)
  {
  }

  /** Every reviewed cycle is stored and agrees with the file on the columns the
      file carries; cycles stored before are as they were; the others are new. */
  ghost predicate CuratedCyclesIn(h: Hash, t: Tables, u: Tables, cs: seq<CuratedCycle>) {
    && (forall k :: k in t.cycles ==> k in u.cycles && u.cycles[k] == t.cycles[k])
    && (forall k :: k in u.cycles && k !in t.cycles ==> exists c :: c in cs && u.cycles[k] == CuratedRow(h, c) && k == CuratedId(h, c))
    && (forall c :: c in cs ==> CuratedId(h, c) in u.cycles && Agrees(u.cycles[CuratedId(h, c)], CuratedRow(h, c)))
  }

  /** Every reviewed rule is stored exactly; rules stored before are as they were. */
  ghost predicate CuratedRulesIn(h: Hash, t: Tables, u: Tables, cs: seq<CuratedCycle>) {
    && (forall k :: k in t.rules ==> k in u.rules && u.rules[k] == t.rules[k])
    && (forall k :: k in u.rules && k !in t.rules ==> u.rules[k] in CuratedRules(h, cs) && u.rules[k].id == k)
    && (forall r :: r in CuratedRules(h, cs) ==> r.id in u.rules && u.rules[r.id] == r)
  }

  /** What an applied curated run leaves. */
  lemma {:induction false} CuratedEffect(h: Hash, t: Tables, cs: seq<CuratedCycle>)
    requires CuratedRun(h, t, cs, true).outcome.Done?
    ensures var u := CuratedRun(h, t, cs, true).tables;
            u.records == t.records && u.tracks == t.tracks && CuratedCyclesIn(h, t, u, cs) && CuratedRulesIn(h, t, u, cs)
  {
    hide CuratedRules, CheckCycles, CheckRules, FirstUnstaged, InsertAll, AnySectionTaken, CuratedCyclesIn, CuratedRulesIn;
    CuratedCyclesStored(h, t, cs);
    CuratedRulesStored(h, t, cs);
  }

  lemma {:induction false} CuratedRowMembers(h: Hash, cs: seq<CuratedCycle>)
    ensures forall x :: x in CuratedRows(h, cs) <==> exists c :: c in cs && x == CuratedRow(h, c)
  {
  }

  lemma {:induction false} CuratedCyclesStored(h: Hash, t: Tables, cs: seq<CuratedCycle>)
    requires CuratedRun(h, t, cs, true).outcome.Done?
    ensures CuratedCyclesIn(h, t, CuratedRun(h, t, cs, true).tables, cs)
  {
    var u := CuratedRun(h, t, cs, true).tables;
    var rows := CuratedRows(h, cs);
    var added := CheckCycles(t.cycles, rows).rows;
    CheckCyclesMembers(t.cycles, rows);
    CuratedRowMembers(h, cs);
    InsertCyclesEffect(t.cycles, added, u.cycles);
    forall c | c in cs ensures CuratedId(h, c) in u.cycles && Agrees(u.cycles[CuratedId(h, c)], CuratedRow(h, c)) {
      var x := CuratedRow(h, c);
      assert x in rows;
      if x.id in t.cycles { assert Agrees(t.cycles[x.id], x); } else { assert x in added; }
    }
    forall k | k in u.cycles && k !in t.cycles
      ensures exists c :: c in cs && u.cycles[k] == CuratedRow(h, c) && k == CuratedId(h, c)
    {
      assert u.cycles[k] in rows;
      var c :| c in cs && u.cycles[k] == CuratedRow(h, c);
    }
  }

  lemma {:induction false} CuratedRulesStored(h: Hash, t: Tables, cs: seq<CuratedCycle>)
    requires CuratedRun(h, t, cs, true).outcome.Done?
    ensures CuratedRulesIn(h, t, CuratedRun(h, t, cs, true).tables, cs)
  {
    var u := CuratedRun(h, t, cs, true).tables;
    var rules := CuratedRules(h, cs);
    var added := CheckRules(t.rules, rules).rows;
    CheckRulesMembers(t.rules, rules);
    InsertRulesEffect(t.rules, added, u.rules);
  }

  lemma {:induction false} CuratedRulesSound(h: Hash, t: Tables, u: Tables, cs: seq<CuratedCycle>)
    requires CuratedFields(cs) && CuratedCyclesIn(h, t, u, cs) && CuratedRulesIn(h, t, u, cs)
    requires forall r :: r in t.rules ==> RuleSound(h, t, r)
    ensures forall r :: r in u.rules ==> RuleSound(h, u, r)
  {
    hide CuratedRules;
    CuratedRulesMembers(h, cs);
    forall k | k in u.rules ensures RuleSound(h, u, k) {
      if k in t.rules { assert RuleSound(h, t, k); }
      else {
        var c :| c in cs && u.rules[k] in CuratedRulesOf(h, c);
        CuratedRuleProper(h, c, u.rules[k]);
      }
    }
  }

  lemma {:induction false} CuratedCyclesSound(h: Hash, t: Tables, u: Tables, cs: seq<CuratedCycle>)
    requires u.records == t.records && CuratedCyclesIn(h, t, u, cs)
    requires forall c :: c in cs ==> CuratedKey(c) in t.records
    requires forall c :: c in t.cycles ==> CycleSound(h, t, c)
    ensures forall c :: c in u.cycles ==> CycleSound(h, u, c)
  {
  }

  lemma {:induction false} CuratedRowsSound(h: Hash, sha: Digest, t: Tables, u: Tables, cs: seq<CuratedCycle>)
    requires Sound(h, sha, t) && CuratedFields(cs) && u.records == t.records && u.tracks == t.tracks
    requires CuratedCyclesIn(h, t, u, cs) && CuratedRulesIn(h, t, u, cs)
    requires forall c :: c in cs ==> CuratedKey(c) in t.records
    ensures Sound(h, sha, u) && Keeps(t, u)
  {
    hide CuratedRulesIn, CycleSound, RuleSound;
    CuratedRulesSound(h, t, u, cs);
    CuratedCyclesSound(h, t, u, cs);
    forall k | k in u.records ensures RecordSound(sha, u, k) { assert RecordSound(sha, t, k); }
  }

  lemma {:induction false} CuratedKeeps(h: Hash, sha: Digest, t: Tables, cs: seq<CuratedCycle>, apply: bool)
    requires Sound(h, sha, t) && CuratedFields(cs)
    ensures var u := CuratedRun(h, t, cs, apply).tables; Sound(h, sha, u) && Keeps(t, u)
  {
    hide CuratedRules, CheckCycles, CheckRules, FirstUnstaged;
    var run := CuratedRun(h, t, cs, apply);
    if apply && run.outcome.Done? {
      CuratedEffect(h, t, cs);
      FirstUnstagedNone(t.records, cs);
      CuratedRowsSound(h, sha, t, run.tables, cs);
    } else {
      assert run.tables == t;
    }
  }

  // ---- the verified run -------------------------------------------------------------

  lemma {:induction false} RuleRowProper(h: Hash, p: ParsedCycle, r: Rule)
    requires r in RuleRows(h, p) && forall x :: x in p.rules ==> Free(':', x.projectField)
    ensures r.cycleId == ParsedId(h, p) && Proper(h, r)
  {
  }

  lemma {:induction false} WantedFlatMembers(h: Hash, items: seq<ParsedCycle>)
    ensures forall r :: r in WantedFlat(h, items) ==> exists p :: p in items && r in RuleRows(h, p)
  {
    var w := WantedRules(h, items);
    WantedMembers(h, items);
    FlattenMembers(w.order, w.rules);
    forall r | r in WantedFlat(h, items) ensures exists p :: p in items && r in RuleRows(h, p) {
      var k :| k in w.order && r in w.rules[k];
      var p :| p in items && ParsedId(h, p) == k && w.rules[k] == RuleRows(h, p);
      assert r in RuleRows(h, p);
    }
  }

  /** Where every cycle stored after an applied verified run comes from. */
  lemma {:induction false} VerifiedCycles(h: Hash, t: Tables, items: seq<ParsedCycle>)
    requires VerifiedRun(h, t, items, true).outcome.Done?
    ensures var u := VerifiedRun(h, t, items, true).tables; var usable := Usable(t.records, items);
            && (forall k :: k in u.cycles <==> k in t.cycles || exists p :: p in usable && ParsedId(h, p) == k)
            && (forall k :: k in u.cycles ==>
                  (k in t.cycles && u.cycles[k] == t.cycles[k]) || exists p :: p in usable && ParsedId(h, p) == k && u.cycles[k] == CycleRow(h, p))
            && (forall k :: k in t.cycles && (forall p :: p in usable ==> ParsedId(h, p) != k) ==> u.cycles[k] == t.cycles[k])
  {
    var u := VerifiedRun(h, t, items, true).tables;
    var usable := Usable(t.records, items);
    var inserts, updates := Inserts(h, t.cycles, usable), Updates(h, t.cycles, usable);
    InsertsMembers(h, t.cycles, usable);
    UpdatesMembers(h, t.cycles, usable);
    var written := InsertAll(t.cycles, CycleIds(inserts), inserts).value;
    InsertCyclesEffect(t.cycles, inserts, written);
    UpdateAllEffect(written, updates);
    forall k | k in u.cycles
      ensures k in t.cycles || exists p :: p in usable && ParsedId(h, p) == k
      ensures (k in t.cycles && u.cycles[k] == t.cycles[k]) || exists p :: p in usable && ParsedId(h, p) == k && u.cycles[k] == CycleRow(h, p)
    {
      if u.cycles[k] != written[k] {
        var x :| x in updates && x.id == k && u.cycles[k] == x;
        var p :| p in usable && x == CycleRow(h, p);
      } else if k !in t.cycles {
        var p :| p in usable && written[k] == CycleRow(h, p);
      }
    }
    forall p | p in usable ensures ParsedId(h, p) in u.cycles {
      if ParsedId(h, p) !in t.cycles { assert CycleRow(h, p) in inserts; }
    }
  }

  /** Where the rules stored after an applied run come from: `flat` are the
      wanted rules and `touched` the cycles they replace the rules of. */
  ghost predicate RulesFollow(t: Tables, u: Tables, flat: seq<Rule>, touched: set<string>) {
    var current := CurrentRules(t.rules, touched);
    && (forall k :: k in u.rules <==>
          (k in t.rules && (t.rules[k].cycleId !in touched || k in RuleIds(flat))) || exists x :: x in flat && x.id == k && k !in current)
    && (forall k :: k in t.rules && k in u.rules ==> u.rules[k] == t.rules[k])
    && (forall x :: x in flat && x.id !in current ==> x.id in u.rules && u.rules[x.id] == x)
  }

  /** The rules an applied run writes: stale ones out, missing ones in. */
  lemma {:induction false} RulesWritten(h: Hash, t: Tables, items: seq<ParsedCycle>)
    requires VerifiedRun(h, t, items, true).outcome.Done?
    ensures var usable := Usable(t.records, items);
            var flat, current := WantedFlat(h, usable), CurrentRules(t.rules, WantedRules(h, usable).rules.Keys);
            var added, stale := NewRules(current, flat), set r | r in current && r !in RuleIds(flat);
            InsertAll(t.rules - stale, RuleIds(added), added) == Some(VerifiedRun(h, t, items, true).tables.rules)
  {
    hide Usable, Unstaged, Inserts, Updates, UpdateAll, UpdatesClash, AnySectionTaken, InsertAll, WantedRules, WantedFlat, NewRules;
  }

  lemma {:induction false} VerifiedRules(h: Hash, t: Tables, items: seq<ParsedCycle>)
    requires VerifiedRun(h, t, items, true).outcome.Done?
    ensures var usable := Usable(t.records, items);
            RulesFollow(t, VerifiedRun(h, t, items, true).tables, WantedFlat(h, usable), WantedRules(h, usable).rules.Keys)
  {
    hide VerifiedRun, RulesFollow, Usable, WantedRules, WantedFlat, InsertAll;
    var usable := Usable(t.records, items);
    RulesWritten(h, t, items);
    ReplacedRules(t, VerifiedRun(h, t, items, true).tables, WantedFlat(h, usable), WantedRules(h, usable).rules.Keys);
  }

  lemma {:induction false} ReplacedRules(t: Tables, u: Tables, flat: seq<Rule>, touched: set<string>)
    requires var current := CurrentRules(t.rules, touched);
             var added, stale := NewRules(current, flat), set r | r in current && r !in RuleIds(flat);
             InsertAll(t.rules - stale, RuleIds(added), added) == Some(u.rules)
    ensures RulesFollow(t, u, flat, touched)
  {
    hide NewRules, InsertAll;
    var current := CurrentRules(t.rules, touched);
    var added := NewRules(current, flat);
    var stale := set r | r in current && r !in RuleIds(flat);
    var left := t.rules - stale;
    NewRulesMembers(current, flat);
    InsertRulesEffect(left, added, u.rules);
    assert forall k :: k in left <==> k in t.rules && (t.rules[k].cycleId !in touched || k in RuleIds(flat));
    hide CurrentRules, RuleIds;
    RulesFromParts(t, u, flat, touched, left, added);
  }

  lemma {:induction false} RulesFromParts(t: Tables, u: Tables, flat: seq<Rule>, touched: set<string>, left: map<string, Rule>, added: seq<Rule>)
    requires forall k :: k in left <==> k in t.rules && (t.rules[k].cycleId !in touched || k in RuleIds(flat))
    requires forall k :: k in left ==> left[k] == t.rules[k]
    requires forall x :: x in added <==> x in flat && x.id !in CurrentRules(t.rules, touched)
    requires forall k :: k in left ==> k in u.rules && u.rules[k] == left[k]
    requires forall k :: k in u.rules && k !in left ==> u.rules[k] in added && u.rules[k].id == k
    requires forall x :: x in added ==> x.id in u.rules && u.rules[x.id] == x
    ensures RulesFollow(t, u, flat, touched)
  {
    RuleIdMembers(flat);
    hide RuleIds;
  }

  lemma {:induction false} RuleIdMembers(rows: seq<Rule>)
    ensures forall k :: k in RuleIds(rows) <==> exists x :: x in rows && x.id == k
  {
  }

  lemma {:induction false} UpsertedCyclesSound(h: Hash, t: Tables, u: Tables, usable: seq<ParsedCycle>)
    requires u.records == t.records && (forall c :: c in t.cycles ==> CycleSound(h, t, c)) && forall p :: p in usable ==> ParsedKey(p) in t.records
    requires forall k :: k in u.cycles ==>
               (k in t.cycles && u.cycles[k] == t.cycles[k]) || exists p :: p in usable && ParsedId(h, p) == k && u.cycles[k] == CycleRow(h, p)
    ensures forall c :: c in u.cycles ==> CycleSound(h, u, c)
  {
    hide CycleId;
    forall k | k in u.cycles ensures CycleSound(h, u, k) {
      if k in t.cycles && u.cycles[k] == t.cycles[k] {
        assert CycleSound(h, t, k);
      } else {
        var p :| p in usable && ParsedId(h, p) == k && u.cycles[k] == CycleRow(h, p);
        assert ParsedKey(p) in t.records;
      }
    }
  }

  lemma {:induction false} ReplacedRulesSound(h: Hash, t: Tables, u: Tables, usable: seq<ParsedCycle>)
    requires ParsedFields(usable) && (forall r :: r in t.rules ==> RuleSound(h, t, r)) && forall c :: c in t.cycles ==> c in u.cycles
    requires forall p :: p in usable ==> ParsedId(h, p) in u.cycles
    requires RulesFollow(t, u, WantedFlat(h, usable), WantedRules(h, usable).rules.Keys)
    ensures forall r :: r in u.rules ==> RuleSound(h, u, r)
  {
    hide WantedFlat, WantedRules, ParsedId, RuleRows, Proper;
    WantedFlatMembers(h, usable);
    forall k | k in u.rules ensures RuleSound(h, u, k) {
      if k in t.rules {
        assert RuleSound(h, t, k);
      } else {
        var x :| x in WantedFlat(h, usable) && x.id == k;
        assert x.id !in CurrentRules(t.rules, WantedRules(h, usable).rules.Keys);
        var p :| p in usable && x in RuleRows(h, p);
        RuleRowProper(h, p, x);
      }
    }
  }

  lemma {:induction false} VerifiedElsewhere(h: Hash, t: Tables, items: seq<ParsedCycle>, apply: bool)
    ensures var u := VerifiedRun(h, t, items, apply).tables; u.records == t.records && u.tracks == t.tracks
    ensures !apply || VerifiedRun(h, t, items, apply).outcome.Refused? ==> VerifiedRun(h, t, items, apply).tables == t
  {
    hide Usable, Unstaged, Inserts, Updates, UpdateAll, UpdatesClash, AnySectionTaken, InsertAll, WantedRules, WantedFlat, NewRules;
  }

  lemma {:induction false} VerifiedKeeps(h: Hash, sha: Digest, t: Tables, items: seq<ParsedCycle>, apply: bool)
    requires Sound(h, sha, t) && ParsedFields(items)
    ensures var u := VerifiedRun(h, t, items, apply).tables; Sound(h, sha, u) && Keeps(t, u)
  {
    hide VerifiedRun, WantedRules, WantedFlat, Usable, ParsedId, CycleRow, CycleSound, RuleSound, RulesFollow;
    VerifiedElsewhere(h, t, items, apply);
    if apply && VerifiedRun(h, t, items, apply).outcome.Done? {
      var u, usable := VerifiedRun(h, t, items, apply).tables, Usable(t.records, items);
      UsableMembers(t.records, items);
      VerifiedCycles(h, t, items);
      VerifiedRules(h, t, items);
      forall k | k in u.records ensures RecordSound(sha, u, k) { assert RecordSound(sha, t, k); }
      UpsertedCyclesSound(h, t, u, usable);
      ReplacedRulesSound(h, t, u, usable);
    }
  }
}
