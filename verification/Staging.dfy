/** The three staging scripts as functions from tables to tables.

    stage_engine_handoffs, stage_curated_cycles and stage_verified_cycles write
    the same handoff-record, cycle and rule tables under three policies. Each is
    given here as what one run leaves behind; StagingDatabase holds the loops. */
module Staging {
  import opened Base
  import opened Dates
  import opened Identity

  const FESTIVAL := "FESTIVAL"
  const MARKET := "MARKET_LAB_WIP"
  const FESTIVAL_VERSION := "festival_v2.1_2026-09-15"
  const MARKETS_VERSION := "markets_v1_2026-09-16"
  const DATED := "DATED"

  // ---- tables ----------------------------------------------------------------

  datatype RecordKey = RecordKey(kind: string, recordId: string)

  /** One row of a reviewed snapshot file. `prose` holds its free-text columns. */
  datatype SourceRow = SourceRow(
    id: string, name: string, routing: Option<string>, verifiedOn: Option<Date>, paidSafe: bool, prose: map<string, string>)

  /** SHA-256 over the canonical JSON text of a row. */
  type Digest = SourceRow -> string

  ghost predicate InjectiveDigest(sha: Digest) { forall a, b :: sha(a) == sha(b) ==> a == b }

  datatype HandoffRecord = HandoffRecord(
    kind: string, recordId: string, version: string, name: string, routing: Option<string>,
    payloadHash: string, payload: SourceRow, importedAt: int)

  datatype MarketTrack = MarketTrack(
    id: string, name: string, verifiedOn: Option<Date>, paidSafe: bool, prose: map<string, string>,
    version: string, createdAt: int)

  datatype Cycle = Cycle(
    id: string, kind: string, recordId: string, sectionName: string,
    cycleOpen: Option<Date>, observedOpenOn: Option<Date>, cycleDeadline: Option<Date>, cycleState: string,
    cycleVerified: bool, rulesComplete: bool, sourceUrl: string, verifiedOn: Date, premiere: Option<string>)

  /** `expected` is the JSON text of the typed value. */
  datatype Rule = Rule(
    id: string, cycleId: string, projectField: string, operator: string, expected: string, condition: string,
    sourceUrl: string, verifiedOn: Date)

  datatype Tables = Tables(
    records: map<RecordKey, HandoffRecord>, tracks: map<string, MarketTrack>,
    cycles: map<string, Cycle>, rules: map<string, Rule>)

  datatype Refusal =
    | RecordChanged(key: RecordKey)
    | RecordNotStaged(key: RecordKey)
    | CycleDiffers(id: string)
    | RuleDiffers(id: string)
    | NothingStaged
    | DuplicateKey

  datatype Outcome<+R> = Done(result: R) | Refused(reason: Refusal)

  /** The tables after a run and what the run reported. */
  datatype Ran<+R> = Ran(tables: Tables, outcome: Outcome<R>)

  function CycleIds(rows: seq<Cycle>): (ids: seq<string>)
    ensures |ids| == |rows| && forall i :: 0 <= i < |rows| ==> ids[i] == rows[i].id
  { seq(|rows|, i requires 0 <= i < |rows| => rows[i].id) }

  function RuleIds(rows: seq<Rule>): (ids: seq<string>)
    ensures |ids| == |rows| && forall i :: 0 <= i < |rows| ==> ids[i] == rows[i].id
  { seq(|rows|, i requires 0 <= i < |rows| => rows[i].id) }

  function TrackIds(rows: seq<MarketTrack>): (ids: seq<string>)
    ensures |ids| == |rows| && forall i :: 0 <= i < |rows| ==> ids[i] == rows[i].id
  { seq(|rows|, i requires 0 <= i < |rows| => rows[i].id) }

  function KeyOf(row: HandoffRecord): RecordKey { RecordKey(row.kind, row.recordId) }

  function RecordKeys(rows: seq<HandoffRecord>): (keys: seq<RecordKey>)
    ensures |keys| == |rows| && forall i :: 0 <= i < |rows| ==> keys[i] == KeyOf(rows[i])
  { seq(|rows|, i requires 0 <= i < |rows| => KeyOf(rows[i])) }

  // ---- stage_engine_handoffs ---------------------------------------------------

  function RecordRow(sha: Digest, kind: string, row: SourceRow, now: int): HandoffRecord {
    HandoffRecord(kind, row.id, if kind == FESTIVAL then FESTIVAL_VERSION else MARKETS_VERSION, row.name,
                  if kind == FESTIVAL then row.routing else Some(MARKET), sha(row), row, now)
  }

  function RecordRows(sha: Digest, kind: string, rows: seq<SourceRow>, now: int): (r: seq<HandoffRecord>)
    ensures |r| == |rows| && forall i :: 0 <= i < |rows| ==> r[i] == RecordRow(sha, kind, rows[i], now)
  { seq(|rows|, i requires 0 <= i < |rows| => RecordRow(sha, kind, rows[i], now)) }

  function SourceRecords(sha: Digest, festivals: seq<SourceRow>, markets: seq<SourceRow>, now: int): seq<HandoffRecord> {
    RecordRows(sha, FESTIVAL, festivals, now) + RecordRows(sha, MARKET, markets, now)
  }

  function TrackRow(row: SourceRow, now: int): MarketTrack {
    MarketTrack(row.id, row.name, row.verifiedOn, row.paidSafe, row.prose, MARKETS_VERSION, now)
  }

  predicate Changed(records: map<RecordKey, HandoffRecord>, row: HandoffRecord) {
    KeyOf(row) in records && records[KeyOf(row)].payloadHash != row.payloadHash
  }

  function FirstChanged(records: map<RecordKey, HandoffRecord>, rows: seq<HandoffRecord>): Option<RecordKey> {
    if rows == [] then None
    else
      var n := |rows| - 1;
      var earlier := FirstChanged(records, rows[..n]);
      if earlier.Some? then earlier else if Changed(records, rows[n]) then Some(KeyOf(rows[n])) else None
  }

  function NewRecords(records: map<RecordKey, HandoffRecord>, rows: seq<HandoffRecord>): seq<HandoffRecord> {
    if rows == [] then []
    else
      var n := |rows| - 1;
      NewRecords(records, rows[..n]) + if KeyOf(rows[n]) in records then [] else [rows[n]]
  }

  function NewTracks(tracks: map<string, MarketTrack>, markets: seq<SourceRow>, now: int): seq<MarketTrack> {
    if markets == [] then []
    else
      var n := |markets| - 1;
      NewTracks(tracks, markets[..n], now) + if markets[n].id in tracks then [] else [TrackRow(markets[n], now)]
  }

  datatype HandoffResult = HandoffResult(
    festivals: nat, markets: nat, newRecords: nat, newTracks: nat, matched: nat, unmatched: nat, applied: bool)

  function SnapshotIds(rows: seq<SourceRow>): set<string> { set r | r in rows :: r.id }

  function HandoffRun(sha: Digest, t: Tables, festivals: seq<SourceRow>, markets: seq<SourceRow>,
                      live: set<string>, now: int, apply: bool): Ran<HandoffResult>
  {
    var incoming := SourceRecords(sha, festivals, markets, now);
    match FirstChanged(t.records, incoming)
    case Some(key) => Ran(t, Refused(RecordChanged(key)))
    case None =>
      var records, tracks := NewRecords(t.records, incoming), NewTracks(t.tracks, markets, now);
      var result := HandoffResult(|festivals|, |markets|, |records|, |tracks|,
                                  |live * SnapshotIds(festivals)|, |live - SnapshotIds(festivals)|, apply);
      if !apply then Ran(t, Done(result))
      else
        var r, m := InsertAll(t.records, RecordKeys(records), records), InsertAll(t.tracks, TrackIds(tracks), tracks);
        if r.None? || m.None? then Ran(t, Refused(DuplicateKey))
        else Ran(t.(records := r.value, tracks := m.value), Done(result))
  }

  // ---- stage_curated_cycles ------------------------------------------------------

  datatype Gate = Gate(field: string, operator: string, expected: string, sourceUrl: string, condition: string)

  /** One reviewed entry of the curated file, after parsing. */
  datatype CuratedCycle = CuratedCycle(
    kind: string, recordId: string, sectionName: string, cycleOpen: Option<Date>, observedOpenOn: Option<Date>,
    cycleDeadline: Date, cycleVerified: bool, rulesComplete: bool, sourceUrl: string, verifiedOn: Date, gates: seq<Gate>)

  function CuratedId(h: Hash, c: CuratedCycle): string {
    CycleId(h, c.kind, c.recordId, c.sectionName, Some(c.cycleDeadline))
  }

  /** The inserted row; the two columns the file does not carry take the column
      defaults, DATED and NULL. */
  function CuratedRow(h: Hash, c: CuratedCycle): Cycle {
    Cycle(CuratedId(h, c), c.kind, c.recordId, c.sectionName, c.cycleOpen, c.observedOpenOn, Some(c.cycleDeadline), DATED,
          c.cycleVerified, c.rulesComplete, c.sourceUrl, c.verifiedOn, None)
  }

  function CuratedRows(h: Hash, cs: seq<CuratedCycle>): (r: seq<Cycle>)
    ensures |r| == |cs| && forall i :: 0 <= i < |cs| ==> r[i] == CuratedRow(h, cs[i])
  { seq(|cs|, i requires 0 <= i < |cs| => CuratedRow(h, cs[i])) }

  function CuratedRule(h: Hash, c: CuratedCycle, i: nat): Rule
    requires i < |c.gates|
  {
    var g := c.gates[i];
    Rule(RuleId(h, CuratedId(h, c), i, g.field, g.condition), CuratedId(h, c), g.field, g.operator, g.expected,
         g.condition, g.sourceUrl, c.verifiedOn)
  }

  function CuratedRulesOf(h: Hash, c: CuratedCycle): (r: seq<Rule>)
    ensures |r| == |c.gates| && forall i :: 0 <= i < |r| ==> r[i] == CuratedRule(h, c, i)
  { seq(|c.gates|, i requires 0 <= i < |c.gates| => CuratedRule(h, c, i)) }

  function CuratedRules(h: Hash, cs: seq<CuratedCycle>): seq<Rule> {
    if cs == [] then [] else CuratedRules(h, cs[..|cs| - 1]) + CuratedRulesOf(h, cs[|cs| - 1])
  }

  function CuratedKey(c: CuratedCycle): RecordKey { RecordKey(c.kind, c.recordId) }

  function FirstUnstaged(records: map<RecordKey, HandoffRecord>, cs: seq<CuratedCycle>): Option<RecordKey> {
    if cs == [] then None
    else
      var n := |cs| - 1;
      var earlier := FirstUnstaged(records, cs[..n]);
      if earlier.Some? then earlier else if CuratedKey(cs[n]) in records then None else Some(CuratedKey(cs[n]))
  }

  /** Equality on the columns the curated file carries. */
  predicate Agrees(previous: Cycle, row: Cycle) {
    previous.(cycleState := row.cycleState, premiere := row.premiere) == row
  }

  /** Another stored cycle has the kind, record, section and deadline of `row`: what
      the table's unique constraint refuses. SQL lets rows without a deadline be. */
  predicate SectionTaken(cycles: map<string, Cycle>, row: Cycle) {
    row.cycleDeadline.Some? && exists k ::
      k in cycles && k != row.id && cycles[k].kind == row.kind && cycles[k].recordId == row.recordId
      && cycles[k].sectionName == row.sectionName && cycles[k].cycleDeadline == row.cycleDeadline
  }

  predicate AnySectionTaken(cycles: map<string, Cycle>, rows: seq<Cycle>) { exists row :: row in rows && SectionTaken(cycles, row) }

  /** The rows to insert, or the id of the first stored row that differs. */
  datatype Check<+T> = New(rows: seq<T>) | Differs(id: string)

  function CheckCycles(existing: map<string, Cycle>, incoming: seq<Cycle>): Check<Cycle> {
    if incoming == [] then New([])
    else
      var n := |incoming| - 1;
      var row := incoming[n];
      match CheckCycles(existing, incoming[..n])
      case Differs(id) => Differs(id)
      case New(rows) =>
        if row.id !in existing then New(rows + [row])
        else if Agrees(existing[row.id], row) then New(rows)
        else Differs(row.id)
  }

  function CheckRules(existing: map<string, Rule>, incoming: seq<Rule>): Check<Rule> {
    if incoming == [] then New([])
    else
      var n := |incoming| - 1;
      var row := incoming[n];
      match CheckRules(existing, incoming[..n])
      case Differs(id) => Differs(id)
      case New(rows) =>
        if row.id !in existing then New(rows + [row])
        else if existing[row.id] == row then New(rows)
        else Differs(row.id)
  }

  datatype CuratedResult = CuratedResult(
    checkedCycles: nat, checkedRules: nat, newCycles: nat, newRules: nat, applied: bool)

  function CuratedRun(h: Hash, t: Tables, cs: seq<CuratedCycle>, apply: bool): Ran<CuratedResult> {
    match FirstUnstaged(t.records, cs)
    case Some(key) => Ran(t, Refused(RecordNotStaged(key)))
    case None =>
      match CheckCycles(t.cycles, CuratedRows(h, cs))
      case Differs(id) => Ran(t, Refused(CycleDiffers(id)))
      case New(cycles) =>
        match CheckRules(t.rules, CuratedRules(h, cs))
        case Differs(id) => Ran(t, Refused(RuleDiffers(id)))
        case New(rules) =>
          var result := CuratedResult(|cs|, |CuratedRules(h, cs)|, |cycles|, |rules|, apply);
          if !apply then Ran(t, Done(result))
          else
            var c, r := InsertAll(t.cycles, CycleIds(cycles), cycles), InsertAll(t.rules, RuleIds(rules), rules);
            if c.None? || r.None? || AnySectionTaken(c.value, cycles) then Ran(t, Refused(DuplicateKey))
            else Ran(t.(cycles := c.value, rules := r.value), Done(result))
  }

  // ---- stage_verified_cycles -----------------------------------------------------

  datatype ParsedRule = ParsedRule(projectField: string, operator: string, expected: string, condition: string)

  /** One cycle the verified claims support, as build_cycles yields it. */
  datatype ParsedCycle = ParsedCycle(
    kind: string, recordId: string, sectionName: string, cycleDeadline: Option<Date>, cycleState: string,
    observedOpenOn: Option<Date>, sourceUrl: string, verifiedOn: Date, premiere: Option<string>, rules: seq<ParsedRule>)

  function ParsedKey(p: ParsedCycle): RecordKey { RecordKey(p.kind, p.recordId) }

  function ParsedId(h: Hash, p: ParsedCycle): string { CycleId(h, p.kind, p.recordId, p.sectionName, p.cycleDeadline) }

  function CycleRow(h: Hash, p: ParsedCycle): Cycle {
    Cycle(ParsedId(h, p), p.kind, p.recordId, p.sectionName, None, p.observedOpenOn, p.cycleDeadline, p.cycleState,
          true, false, p.sourceUrl, p.verifiedOn, p.premiere)
  }

  function RuleRow(h: Hash, p: ParsedCycle, i: nat): Rule
    requires i < |p.rules|
  {
    var r := p.rules[i];
    Rule(RuleId(h, ParsedId(h, p), i, r.projectField, r.condition), ParsedId(h, p), r.projectField, r.operator,
         r.expected, r.condition, p.sourceUrl, p.verifiedOn)
  }

  function RuleRows(h: Hash, p: ParsedCycle): (r: seq<Rule>)
    ensures |r| == |p.rules| && forall i :: 0 <= i < |r| ==> r[i] == RuleRow(h, p, i)
  { seq(|p.rules|, i requires 0 <= i < |p.rules| => RuleRow(h, p, i)) }

  /** The parsed cycles whose handoff record is staged, in order. */
  function Usable(records: map<RecordKey, HandoffRecord>, items: seq<ParsedCycle>): seq<ParsedCycle> {
    if items == [] then []
    else
      var n := |items| - 1;
      Usable(records, items[..n]) + if ParsedKey(items[n]) in records then [items[n]] else []
  }

  function Unstaged(records: map<RecordKey, HandoffRecord>, items: seq<ParsedCycle>): seq<RecordKey> {
    if items == [] then []
    else
      var n := |items| - 1;
      Unstaged(records, items[..n]) + if ParsedKey(items[n]) in records then [] else [ParsedKey(items[n])]
  }

  function Inserts(h: Hash, cycles: map<string, Cycle>, items: seq<ParsedCycle>): seq<Cycle> {
    if items == [] then []
    else
      var n := |items| - 1;
      Inserts(h, cycles, items[..n]) + if ParsedId(h, items[n]) in cycles then [] else [CycleRow(h, items[n])]
  }

  function Updates(h: Hash, cycles: map<string, Cycle>, items: seq<ParsedCycle>): seq<Cycle> {
    if items == [] then []
    else
      var n := |items| - 1;
      var row := CycleRow(h, items[n]);
      Updates(h, cycles, items[..n]) + if row.id in cycles && cycles[row.id] != row then [row] else []
  }

  /** The `wanted_rules` dictionary: keys in insertion order, a later item with
      the same id replacing the value in place. */
  datatype Wanted = Wanted(order: seq<string>, rules: map<string, seq<Rule>>)

  function Put(w: Wanted, id: string, rules: seq<Rule>): Wanted {
    Wanted(if id in w.rules then w.order else w.order + [id], w.rules[id := rules])
  }

  function WantedRules(h: Hash, items: seq<ParsedCycle>): (w: Wanted)
    ensures forall k :: k in w.order <==> k in w.rules
  {
    if items == [] then Wanted([], map[])
    else
      var n := |items| - 1;
      Put(WantedRules(h, items[..n]), ParsedId(h, items[n]), RuleRows(h, items[n]))
  }

  function Flatten(order: seq<string>, rules: map<string, seq<Rule>>): seq<Rule>
    requires forall k :: k in order ==> k in rules
  {
    if order == [] then [] else Flatten(order[..|order| - 1], rules) + rules[order[|order| - 1]]
  }

  function WantedFlat(h: Hash, items: seq<ParsedCycle>): seq<Rule> {
    var w := WantedRules(h, items);
    Flatten(w.order, w.rules)
  }

  function CurrentRules(rules: map<string, Rule>, touched: set<string>): map<string, Rule> {
    map r | r in rules && rules[r].cycleId in touched :: rules[r]
  }

  function NewRules(current: map<string, Rule>, wanted: seq<Rule>): seq<Rule> {
    if wanted == [] then []
    else
      var n := |wanted| - 1;
      NewRules(current, wanted[..n]) + if wanted[n].id in current then [] else [wanted[n]]
  }

  function UpdateAll(cycles: map<string, Cycle>, rows: seq<Cycle>): map<string, Cycle> {
    if rows == [] then cycles
    else
      var n := |rows| - 1;
      var c := UpdateAll(cycles, rows[..n]);
      if rows[n].id in c then c[rows[n].id := rows[n]] else c
  }

  /** One of the UPDATEs, made in order, breaks the unique constraint. */
  predicate UpdatesClash(cycles: map<string, Cycle>, rows: seq<Cycle>) {
    rows != [] && (UpdatesClash(cycles, rows[..|rows| - 1]) || SectionTaken(UpdateAll(cycles, rows), rows[|rows| - 1]))
  }

  datatype VerifiedResult = VerifiedResult(
    parsed: nat, newCycles: nat, updatedCycles: nat, newRules: nat, removedRules: nat,
    orphaned: set<string>, unstaged: seq<RecordKey>, applied: bool)

  function VerifiedRun(h: Hash, t: Tables, items: seq<ParsedCycle>, apply: bool): Ran<VerifiedResult> {
    if t.records == map[] then Ran(t, Refused(NothingStaged))
    else
      var usable := Usable(t.records, items);
      var inserts, updates := Inserts(h, t.cycles, usable), Updates(h, t.cycles, usable);
      var wanted := WantedRules(h, usable);
      var current := CurrentRules(t.rules, wanted.rules.Keys);
      var flat := WantedFlat(h, usable);
      var added := NewRules(current, flat);
      var stale := set r | r in current && r !in RuleIds(flat);
      var result := VerifiedResult(|items|, |inserts|, |updates|, |added|, |stale|,
                                   t.cycles.Keys - wanted.rules.Keys, Unstaged(t.records, items), apply);
      if !apply then Ran(t, Done(result))
      else
        var c, r := InsertAll(t.cycles, CycleIds(inserts), inserts), InsertAll(t.rules - stale, RuleIds(added), added);
        if c.None? || r.None? || AnySectionTaken(c.value, inserts) || UpdatesClash(c.value, updates) then Ran(t, Refused(DuplicateKey))
        else Ran(t.(cycles := UpdateAll(c.value, updates), rules := r.value), Done(result))
  }
}
