/** stage_commercial_catalogue: what the frozen payload and the ledger support. */
module Commercial {
  import opened Base
  import opened Text
  import opened Dates
  import opened Identity
  import opened Sync

  // ---- the payload and the ledger ----------------------------------------------------

  /** One frozen company. The last six columns are what commercial_freeze makes of
      the raw row: roles, brand, scopes, access route and group. */
  datatype CompanyRow = CompanyRow(
    id: string, name: string, sourceUrl: string, verificationDate: Date, lastVerifiedAt: Option<Date>,
    paidMatchEligible: string, verificationStatus: string,
    roles: set<string>, current: bool, territories: set<string>, formats: set<string>,
    accessRoute: string, portfolioGroup: string)

  /** One frozen title-company relationship. */
  datatype TitleRow = TitleRow(
    companyName: string, filmTitle: string, sourceUrl: string, verificationStatus: string, relationshipType: string)

  datatype Payload = Payload(companies: seq<CompanyRow>, titles: seq<TitleRow>)

  /** A readable ledger claim; an absent value reads as "". */
  datatype Recorded = Recorded(value: string, sourceUrl: string, verifiedOn: Date)

  /** The readable claims of one gate, by subject and field. */
  type Ledger = map<(string, string), Recorded>

  // ---- the staging rows ----------------------------------------------------------------

  datatype ReviewState = Approved | Pending | Other(text: string)

  /** Lists are sorted and free of repeats when written, so they are sets here. */
  datatype Value = Flag(yes: bool) | Word(text: string) | Words(items: set<string>) | Number(x: real)

  datatype Claim = Claim(value: Value, sourceUrl: string, verifiedOn: Date)

  datatype Company = Company(
    id: string, name: string, claims: map<string, Claim>, rulesComplete: bool,
    state: ReviewState, reviewedOn: Option<Date>, accessRoute: string, portfolioGroup: string)

  datatype Comparable = Comparable(
    id: string, title: string, sourceUrl: string, verifiedOn: Date, claims: map<string, Claim>,
    state: ReviewState, reviewedOn: Option<Date>)

  datatype Relationship = Relationship(
    id: string, comparableId: string, targetKind: string, targetId: string, relationshipType: string,
    sourceUrl: string, verifiedOn: Date, state: ReviewState)

  const COMPANY := "COMPANY"
  const DIRECTORY := "VERIFIED_CURRENT_DIRECTORY_PROFILE"
  const STAGES: set<string> := {"development", "pre_production", "production", "post_production", "completed"}

  // ---- companies ---------------------------------------------------------------------

  /** The parts of `s` between semicolons. */
  function Parts(s: string): (ps: seq<string>)
    ensures |ps| > 0
  {
    if s == "" then [""]
    else
      var n := |s| - 1;
      var ps := Parts(s[..n]);
      if s[n] == ';' then ps + [""] else ps[..|ps| - 1] + [ps[|ps| - 1] + [s[n]]]
  }

  /** The distinct stripped, lower-case, non-blank parts of a recorded value. */
  function ListFrom(value: string): set<string> {
    set part | part in Parts(value) && Strip(part) != "" :: Lower(Strip(part))
  }

  function Stages(value: string): set<string> { ListFrom(value) * STAGES }

  function WithClaim(claims: map<string, Claim>, field: string, items: set<string>, url: string, on: Date): map<string, Claim> {
    if items == {} then claims else claims[field := Claim(Words(items), url, on)]
  }

  function WithLedger(claims: map<string, Claim>, ledger: Ledger, subject: string, field: string, claim: string): map<string, Claim> {
    if (subject, field) !in ledger then claims
    else
      var r := ledger[(subject, field)];
      WithClaim(claims, claim, if claim == "acquisition_stages" then Stages(r.value) else ListFrom(r.value), r.sourceUrl, r.verifiedOn)
  }

  function CompanyClaims(c: CompanyRow, ledger: Ledger): map<string, Claim> {
    var a := WithClaim(map[], "role", c.roles, c.sourceUrl, c.verificationDate);
    var b := a["active" := Claim(Flag(c.current), c.sourceUrl, c.verificationDate)];
    var d := WithClaim(b, "rights_territories", c.territories, c.sourceUrl, c.verificationDate);
    var e := WithClaim(d, "formats", c.formats, c.sourceUrl, c.verificationDate);
    WithLedger(WithLedger(e, ledger, c.id, "acquisition_stage", "acquisition_stages"), ledger, c.id, "genre_specialties", "genres")
  }

  /** Why a company is held back. */
  datatype Reason = NotEligible | Unverified(status: string) | Retired | NoRole | Unconfirmed

  datatype Review = Passed(on: Date) | HeldBack(reason: Reason)

  predicate Confirmed(ledger: Ledger, id: string) {
    (id, "primary_source_confirmation") in ledger
    && Upper(Strip(ledger[(id, "primary_source_confirmation")].value)) == "CONFIRMED"
  }

  /** _company_review */
  function CompanyReview(c: CompanyRow, ledger: Ledger): Review {
    if Upper(c.paidMatchEligible) != "YES" then HeldBack(NotEligible)
    else if !StartsWith(c.verificationStatus, "VERIFIED_") then HeldBack(Unverified(c.verificationStatus))
    else if !c.current then HeldBack(Retired)
    else if c.roles == {} then HeldBack(NoRole)
    else if c.verificationStatus == DIRECTORY && !Confirmed(ledger, c.id) then HeldBack(Unconfirmed)
    else Passed(if c.lastVerifiedAt.Some? then c.lastVerifiedAt.value else c.verificationDate)
  }

  function CompanyFor(c: CompanyRow, ledger: Ledger): Company {
    var review := CompanyReview(c, ledger);
    Company(c.id, c.name, CompanyClaims(c, ledger), false,
            if review.Passed? then Approved else Pending, if review.Passed? then Some(review.on) else None,
            c.accessRoute, c.portfolioGroup)
  }

  function Companies(cs: seq<CompanyRow>, ledger: Ledger): (r: seq<Company>)
    ensures |r| == |cs| && forall i :: 0 <= i < |cs| ==> r[i] == CompanyFor(cs[i], ledger)
  { seq(|cs|, i requires 0 <= i < |cs| => CompanyFor(cs[i], ledger)) }

  /** The held-back tally, one count for each reason. */
  function HeldBackOf(cs: seq<CompanyRow>, ledger: Ledger): multiset<Reason> {
    if cs == [] then multiset{}
    else
      var n := |cs| - 1;
      var review := CompanyReview(cs[n], ledger);
      HeldBackOf(cs[..n], ledger) + if review.HeldBack? then multiset{review.reason} else multiset{}
  }

  function ApprovedCompanies(cs: seq<CompanyRow>, ledger: Ledger): set<string> {
    set c | c in cs && CompanyReview(c, ledger).Passed? :: c.id
  }

  // ---- titles ------------------------------------------------------------------------

  function TitleClaim(claims: map<string, Claim>, ledger: Ledger, subject: string, field: string, list: bool): map<string, Claim> {
    if (subject, field) !in ledger then claims
    else
      var r := ledger[(subject, field)];
      if list then WithClaim(claims, field, ListFrom(r.value), r.sourceUrl, r.verifiedOn)
      else if Strip(r.value) == "" then claims
      else claims[field := Claim(Word(Lower(Strip(r.value))), r.sourceUrl, r.verifiedOn)]
  }

  function TitleClaims(ledger: Ledger, subject: string): map<string, Claim> {
    var a := TitleClaim(map[], ledger, subject, "format", false);
    var b := TitleClaim(a, ledger, subject, "genres", true);
    var c := TitleClaim(b, ledger, subject, "production_countries", true);
    TitleClaim(c, ledger, subject, "primary_languages", true)
  }

  /** One id per title, whatever its case and surrounding space. */
  function ComparableId(h: Hash, title: string): string { h("prodculator:commercial-comparable:" + Lower(Strip(title))) }

  function RelationshipId(h: Hash, comparable: string, kind: string, target: string, relation: string): string {
    h(comparable + ":" + kind + ":" + target + ":" + relation)
  }

  /** `by_name`: the last company of a name. */
  function ByName(cs: seq<CompanyRow>, name: string): Option<string> {
    if cs == [] then None
    else if cs[|cs| - 1].name == name then Some(cs[|cs| - 1].id)
    else ByName(cs[..|cs| - 1], name)
  }

  /** `verified_on`: the verification date of the last company of an id. */
  function SeenOn(cs: seq<CompanyRow>, id: string): Option<Date> {
    if cs == [] then None
    else if cs[|cs| - 1].id == id then Some(cs[|cs| - 1].verificationDate)
    else SeenOn(cs[..|cs| - 1], id)
  }

  lemma {:induction false} NamedIsSeen(cs: seq<CompanyRow>, name: string)
    ensures ByName(cs, name).Some? ==> SeenOn(cs, ByName(cs, name).value).Some?
    ensures ByName(cs, name).Some? ==> exists c :: c in cs && c.id == ByName(cs, name).value && c.name == name
  {
    if cs != [] {
      var n := |cs| - 1;
      assert cs == cs[..n] + [cs[n]];
      NamedIsSeen(cs[..n], name);
    }
  }

  function Target(cs: seq<CompanyRow>, raw: TitleRow): string {
    match ByName(cs, raw.companyName) case None => "" case Some(id) => id
  }

  function Seen(cs: seq<CompanyRow>, raw: TitleRow): Date {
    match SeenOn(cs, Target(cs, raw)) case None => Date(1, 1, 1) case Some(d) => d
  }

  /** A row that names a title, a known company and a secure source. */
  predicate Kept(cs: seq<CompanyRow>, raw: TitleRow) {
    Strip(raw.filmTitle) != "" && Target(cs, raw) != "" && StartsWith(raw.sourceUrl, "https://")
  }

  predicate Sourced(raw: TitleRow) { raw.verificationStatus == "VERIFIED" || raw.verificationStatus == "VERIFIED_DIRECTORY_2026" }

  function IdentityOf(h: Hash, raw: TitleRow): string { ComparableId(h, Strip(raw.filmTitle)) }

  function ComparableFor(h: Hash, cs: seq<CompanyRow>, titles: Ledger, raw: TitleRow): Comparable {
    Comparable(IdentityOf(h, raw), Strip(raw.filmTitle), raw.sourceUrl, Seen(cs, raw), TitleClaims(titles, IdentityOf(h, raw)),
               if Sourced(raw) then Approved else Pending, if Sourced(raw) then Some(Seen(cs, raw)) else None)
  }

  function RelationshipFor(h: Hash, cs: seq<CompanyRow>, raw: TitleRow, approved: bool): Relationship {
    var target := Target(cs, raw);
    Relationship(RelationshipId(h, IdentityOf(h, raw), COMPANY, target, raw.relationshipType), IdentityOf(h, raw), COMPANY, target,
                 raw.relationshipType, raw.sourceUrl, Seen(cs, raw), if approved then Approved else Pending)
  }

  /** The `comparables` dictionary, keys in insertion order, and the relationship list. */
  datatype Titles = Titles(order: seq<string>, comparables: map<string, Comparable>, relationships: seq<Relationship>)

  function TitleStep(h: Hash, cs: seq<CompanyRow>, approved: set<string>, titles: Ledger, t: Titles, raw: TitleRow): Titles {
    if !Kept(cs, raw) then t
    else
      var id := IdentityOf(h, raw);
      var order := if id in t.comparables then t.order else t.order + [id];
      var comparables := if id in t.comparables then t.comparables else t.comparables[id := ComparableFor(h, cs, titles, raw)];
      var both := Sourced(raw) && Target(cs, raw) in approved && comparables[id].state == Approved;
      Titles(order, comparables, t.relationships + [RelationshipFor(h, cs, raw, both)])
  }

  /** _title_rows */
  function TitlesFrom(h: Hash, cs: seq<CompanyRow>, approved: set<string>, titles: Ledger, raws: seq<TitleRow>): (t: Titles)
    ensures forall k :: k in t.order <==> k in t.comparables
  {
    if raws == [] then Titles([], map[], [])
    else
      var n := |raws| - 1;
      TitleStep(h, cs, approved, titles, TitlesFrom(h, cs, approved, titles, raws[..n]), raws[n])
  }

  function ComparablesOf(t: Titles): (r: seq<Comparable>)
    requires forall k :: k in t.order ==> k in t.comparables
    ensures |r| == |t.order| && forall i :: 0 <= i < |r| ==> r[i] == t.comparables[t.order[i]]
  { seq(|t.order|, i requires 0 <= i < |t.order| => t.comparables[t.order[i]]) }

  // ---- one run -------------------------------------------------------------------------

  datatype Catalogue = Catalogue(
    companies: map<string, Company>, comparables: map<string, Comparable>, relationships: map<string, Relationship>)

  datatype Counts = Counts(companies: nat, comparables: nat, relationships: nat)

  datatype Report = Report(
    seen: Counts, approved: Counts, heldBack: multiset<Reason>, inserted: Counts, updated: Counts,
    withdrawn: seq<string>, applied: bool)

  datatype Outcome = Done(report: Report) | DuplicateKey

  datatype Ran = Ran(tables: Catalogue, outcome: Outcome)

  function CompanyIds(rows: seq<Company>): (ids: seq<string>)
    ensures |ids| == |rows| && forall i :: 0 <= i < |rows| ==> ids[i] == rows[i].id
  { seq(|rows|, i requires 0 <= i < |rows| => rows[i].id) }

  function ComparableIds(rows: seq<Comparable>): (ids: seq<string>)
    ensures |ids| == |rows| && forall i :: 0 <= i < |rows| ==> ids[i] == rows[i].id
  { seq(|rows|, i requires 0 <= i < |rows| => rows[i].id) }

  function RelationshipIds(rows: seq<Relationship>): (ids: seq<string>)
    ensures |ids| == |rows| && forall i :: 0 <= i < |rows| ==> ids[i] == rows[i].id
  { seq(|rows|, i requires 0 <= i < |rows| => rows[i].id) }

  /** The ids of moved companies that were approved and no longer are. */
  function Withdrawn(table: map<string, Company>, rows: seq<Company>): seq<string> {
    if rows == [] then []
    else
      var n := |rows| - 1;
      var row := rows[n];
      Withdrawn(table, rows[..n]) +
      if Moved(table, row.id, row) && table[row.id].state == Approved && row.state != Approved then [row.id] else []
  }

  function CountApproved(states: seq<ReviewState>): nat {
    if states == [] then 0
    else CountApproved(states[..|states| - 1]) + if states[|states| - 1] == Approved then 1 else 0
  }

  function CompanyStates(rows: seq<Company>): (r: seq<ReviewState>)
    ensures |r| == |rows| && forall i :: 0 <= i < |rows| ==> r[i] == rows[i].state
  { seq(|rows|, i requires 0 <= i < |rows| => rows[i].state) }

  function ComparableStates(rows: seq<Comparable>): (r: seq<ReviewState>)
    ensures |r| == |rows| && forall i :: 0 <= i < |rows| ==> r[i] == rows[i].state
  { seq(|rows|, i requires 0 <= i < |rows| => rows[i].state) }

  function RelationshipStates(rows: seq<Relationship>): (r: seq<ReviewState>)
    ensures |r| == |rows| && forall i :: 0 <= i < |rows| ==> r[i] == rows[i].state
  { seq(|rows|, i requires 0 <= i < |rows| => rows[i].state) }

  /** What build_rows derives, before anything is compared with the tables. */
  datatype Derived = Derived(companies: seq<Company>, comparables: seq<Comparable>, relationships: seq<Relationship>)

  function Build(h: Hash, p: Payload, ledger: Ledger, titles: Ledger): Derived {
    var t := TitlesFrom(h, p.companies, ApprovedCompanies(p.companies, ledger), titles, p.titles);
    Derived(Companies(p.companies, ledger), ComparablesOf(t), t.relationships)
  }

  function ReportOf(t: Catalogue, p: Payload, ledger: Ledger, d: Derived, apply: bool): Report {
    var a, b, c := CompanyIds(d.companies), ComparableIds(d.comparables), RelationshipIds(d.relationships);
    Report(Counts(|p.companies|, |d.comparables|, |p.titles|),
           Counts(CountApproved(CompanyStates(d.companies)), CountApproved(ComparableStates(d.comparables)),
                  CountApproved(RelationshipStates(d.relationships))),
           HeldBackOf(p.companies, ledger),
           Counts(|Missing(t.companies, a)|, |Missing(t.comparables, b)|, |Missing(t.relationships, c)|),
           Counts(CountMoved(t.companies, a, d.companies), CountMoved(t.comparables, b, d.comparables),
                  CountMoved(t.relationships, c, d.relationships)),
           Withdrawn(t.companies, d.companies), apply)
  }

  /** Another stored relationship joins the same ends in the same way: what the
      table's unique constraint refuses. */
  predicate PairTaken(stored: map<string, Relationship>, r: Relationship) {
    exists k :: k in stored && k != r.id && stored[k].comparableId == r.comparableId && stored[k].targetKind == r.targetKind
                && stored[k].targetId == r.targetId && stored[k].relationshipType == r.relationshipType
  }

  /** One of the UPDATEs, made in order, breaks the unique constraint. */
  predicate UpdatesClash(prior: map<string, Relationship>, current: map<string, Relationship>, ids: seq<string>, rows: seq<Relationship>)
    requires |ids| == |rows|
  {
    rows != [] &&
    var n := |rows| - 1;
    UpdatesClash(prior, current, ids[..n], rows[..n])
    || (Moved(prior, ids[n], rows[n]) && PairTaken(WriteMoved(prior, current, ids, rows), rows[n]))
  }

  /** Writing the relationships breaks the unique constraint. */
  predicate PairsClash(table: map<string, Relationship>, rows: seq<Relationship>) {
    var ids := RelationshipIds(rows);
    match InsertAll(table, Missing(table, ids), NewRows(table, ids, rows))
    case None => true
    case Some(t) => (exists r :: r in NewRows(table, ids, rows) && PairTaken(t, r)) || UpdatesClash(table, t, ids, rows)
  }

  function WriteAll(t: Catalogue, d: Derived): Option<Catalogue> {
    var a := SyncAll(t.companies, CompanyIds(d.companies), d.companies);
    var b := SyncAll(t.comparables, ComparableIds(d.comparables), d.comparables);
    var c := SyncAll(t.relationships, RelationshipIds(d.relationships), d.relationships);
    if a.None? || b.None? || c.None? || PairsClash(t.relationships, d.relationships) then None else Some(Catalogue(a.value, b.value, c.value))
  }

  function CommercialRun(h: Hash, t: Catalogue, p: Payload, ledger: Ledger, titles: Ledger, apply: bool): Ran {
    var d := Build(h, p, ledger, titles);
    if !apply then Ran(t, Done(ReportOf(t, p, ledger, d, apply)))
    else
      match WriteAll(t, d)
      case None => Ran(t, DuplicateKey)
      case Some(written) => Ran(written, Done(ReportOf(t, p, ledger, d, apply)))
  }
}
