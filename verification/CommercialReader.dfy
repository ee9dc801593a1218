/** parse_commercial_catalogue: what the report builder makes of the staging rows,
    and why it never trips over a relationship the importer wrote. */
module CommercialReader {
  import opened Base
  import opened Text
  import opened Dates
  import opened Identity
  import opened Sync
  import opened Commercial
  import opened CommercialApproval
  import opened CommercialSafety

  /** urlparse finds an https scheme and a host. */
  type Secure = string -> bool

  predicate Usable(secure: Secure, url: string, on: Date, today: Date) { secure(url) && NotAfter(on, today) }

  const COMPANY_CLAIMS: set<string> := {
    "role", "active", "formats", "content_forms", "techniques", "acquisition_stages", "minimum_budget_gbp", "maximum_budget_gbp",
    "production_origins", "required_languages", "rights_territories", "genres", "channels"}
  const COMPARABLE_CLAIMS: set<string> := {
    "format", "genres", "tone", "themes", "content_form", "budget_gbp", "production_countries", "primary_languages",
    "target_audience", "release_profile"}
  const LIST_CLAIMS: set<string> := {
    "formats", "content_forms", "techniques", "acquisition_stages", "production_origins", "required_languages",
    "rights_territories", "genres", "channels", "themes", "production_countries", "primary_languages", "target_audience",
    "release_profile"}
  const TEXT_CLAIMS: set<string> := {"format", "tone", "content_form"}
  const ROLES: set<string> := {"sales_agent", "distributor"}
  const KINDS: set<string> := {"COMPANY", "FESTIVAL", "MARKET_LAB_WIP"}

  const NUMBER_CLAIMS: set<string> := {"minimum_budget_gbp", "maximum_budget_gbp", "budget_gbp"}

  /** _valid_claim_value */
  predicate ValidValue(field: string, value: Value) {
    if field in LIST_CLAIMS then value.Words? && value.items != {} && forall item :: item in value.items ==> !Blank(item)
    else if field in TEXT_CLAIMS then value.Word? && !Blank(value.text)
    else if field in NUMBER_CLAIMS then value.Number? && value.x >= 0.0
    else if field == "active" then value.Flag?
    else if field == "role" then (value.Words? && value.items != {} && value.items <= ROLES) || (value.Word? && value.text in ROLES)
    else false
  }

  predicate GoodClaims(secure: Secure, today: Date, claims: map<string, Claim>, allowed: set<string>) {
    forall field :: field in claims ==>
      field in allowed && ValidValue(field, claims[field].value) && Usable(secure, claims[field].sourceUrl, claims[field].verifiedOn, today)
  }

  predicate Reviewed(on: Option<Date>, today: Date) { on.Some? && NotAfter(on.value, today) }

  predicate GoodCompany(secure: Secure, today: Date, c: Company) {
    && GoodClaims(secure, today, c.claims, COMPANY_CLAIMS)
    && c.id != "" && c.name != "" && "role" in c.claims && "active" in c.claims && Reviewed(c.reviewedOn, today)
  }

  predicate GoodComparable(secure: Secure, today: Date, c: Comparable) {
    && c.id != "" && c.title != "" && Usable(secure, c.sourceUrl, c.verifiedOn, today) && Reviewed(c.reviewedOn, today)
    && GoodClaims(secure, today, c.claims, COMPARABLE_CLAIMS)
  }

  /** What a relationship row must hold on its own. */
  predicate GoodRelationship(secure: Secure, today: Date, r: Relationship) {
    r.targetKind in KINDS && r.targetId != "" && r.relationshipType != "" && Usable(secure, r.sourceUrl, r.verifiedOn, today)
  }

  function KeepCompanies(rows: seq<Company>): seq<Company> {
    if rows == [] then []
    else KeepCompanies(rows[..|rows| - 1]) + if rows[|rows| - 1].state == Approved then [rows[|rows| - 1]] else []
  }

  function KeepComparables(rows: seq<Comparable>): seq<Comparable> {
    if rows == [] then []
    else KeepComparables(rows[..|rows| - 1]) + if rows[|rows| - 1].state == Approved then [rows[|rows| - 1]] else []
  }

  /** The approved relationships of one comparable, in row order. */
  function EvidenceFor(rows: seq<Relationship>, id: string): seq<Relationship> {
    if rows == [] then []
    else
      var r := rows[|rows| - 1];
      EvidenceFor(rows[..|rows| - 1], id) + if r.state == Approved && r.comparableId == id then [r] else []
  }

  datatype Read = Read(companies: seq<Company>, comparables: seq<Comparable>, evidence: map<string, seq<Relationship>>)

  predicate Anchored(companies: set<string>, comparables: set<string>, r: Relationship) {
    r.comparableId in comparables && (r.targetKind == COMPANY ==> r.targetId in companies)
  }

  function ApprovedIds(rows: seq<Company>): set<string> { set c | c in rows && c.state == Approved :: c.id }

  function ApprovedTitleIds(rows: seq<Comparable>): set<string> { set c | c in rows && c.state == Approved :: c.id }

  /** The rows the reader does not raise on. */
  ghost predicate Readable(secure: Secure, today: Date, cs: seq<Company>, ts: seq<Comparable>, rs: seq<Relationship>) {
    && (forall c :: c in cs && c.state == Approved ==> GoodCompany(secure, today, c))
    && (forall c :: c in ts && c.state == Approved ==> GoodComparable(secure, today, c))
    && (forall r :: r in rs && r.state == Approved ==>
          GoodRelationship(secure, today, r) && Anchored(ApprovedIds(cs), ApprovedTitleIds(ts), r))
  }

  /** The reader: None where it raises ValueError. */
  method Parse(secure: Secure, today: Date, cs: seq<Company>, ts: seq<Comparable>, rs: seq<Relationship>) returns (read: Option<Read>)
    ensures read.Some? <==> Readable(secure, today, cs, ts, rs)
    ensures read.Some? ==> read.value.companies == KeepCompanies(cs) && read.value.comparables == KeepComparables(ts)
    ensures read.Some? ==> forall id :: id in read.value.evidence <==> id in ApprovedTitleIds(ts)
    ensures read.Some? ==> forall id :: id in read.value.evidence ==> read.value.evidence[id] == EvidenceFor(rs, id)
  {
    hide GoodCompany, GoodComparable, GoodRelationship;
    var companies := ReadCompanies(secure, today, cs);
    if companies.None? { return None; }
    var comparables := ReadComparables(secure, today, ts);
    if comparables.None? { return None; }
    var evidence := ReadEvidence(secure, today, ApprovedIds(cs), ApprovedTitleIds(ts), rs);
    if evidence.None? { return None; }
    return Some(Read(companies.value, comparables.value, evidence.value));
  }

  method ReadCompanies(secure: Secure, today: Date, rows: seq<Company>) returns (kept: Option<seq<Company>>)
    ensures kept.Some? <==> forall c :: c in rows && c.state == Approved ==> GoodCompany(secure, today, c)
    ensures kept.Some? ==> kept.value == KeepCompanies(rows)
  {
    hide GoodCompany;
    var out: seq<Company> := [];
    for i := 0 to |rows|
      invariant out == KeepCompanies(rows[..i])
      invariant forall k :: 0 <= k < i && rows[k].state == Approved ==> GoodCompany(secure, today, rows[k])
    {
      assert rows[..i + 1][..i] == rows[..i];
      if rows[i].state != Approved { continue; }
      if !GoodCompany(secure, today, rows[i]) { return None; }
      out := out + [rows[i]];
    }
    assert rows[..|rows|] == rows;
    return Some(out);
  }

  method ReadComparables(secure: Secure, today: Date, rows: seq<Comparable>) returns (kept: Option<seq<Comparable>>)
    ensures kept.Some? <==> forall c :: c in rows && c.state == Approved ==> GoodComparable(secure, today, c)
    ensures kept.Some? ==> kept.value == KeepComparables(rows)
  {
    hide GoodComparable;
    var out: seq<Comparable> := [];
    for i := 0 to |rows|
      invariant out == KeepComparables(rows[..i])
      invariant forall k :: 0 <= k < i && rows[k].state == Approved ==> GoodComparable(secure, today, rows[k])
    {
      assert rows[..i + 1][..i] == rows[..i];
      if rows[i].state != Approved { continue; }
      if !GoodComparable(secure, today, rows[i]) { return None; }
      out := out + [rows[i]];
    }
    assert rows[..|rows|] == rows;
    return Some(out);
  }

  method ReadEvidence(secure: Secure, today: Date, companies: set<string>, comparables: set<string>, rows: seq<Relationship>)
    returns (read: Option<map<string, seq<Relationship>>>)
    ensures read.Some? <==> forall r :: r in rows && r.state == Approved ==> GoodRelationship(secure, today, r) && Anchored(companies, comparables, r)
    ensures read.Some? ==> forall id :: id in read.value <==> id in comparables
    ensures read.Some? ==> forall id :: id in read.value ==> read.value[id] == EvidenceFor(rows, id)
  {
    hide GoodRelationship;
    var m: map<string, seq<Relationship>> := map id | id in comparables :: [];
    for i := 0 to |rows|
      invariant forall id :: id in m <==> id in comparables
      invariant forall id :: id in m ==> m[id] == EvidenceFor(rows[..i], id)
      invariant forall k :: 0 <= k < i && rows[k].state == Approved ==> GoodRelationship(secure, today, rows[k]) && Anchored(companies, comparables, rows[k])
    {
      assert rows[..i + 1][..i] == rows[..i];
      var r := rows[i];
      if r.state != Approved { continue; }
      if !GoodRelationship(secure, today, r) || !Anchored(companies, comparables, r) { return None; }
      m := m[r.comparableId := m[r.comparableId] + [r]];
    }
    assert rows[..|rows|] == rows;
    return Some(m);
  }

  // ---- reading what the importer wrote -----------------------------------------------------

  /** The rows a SELECT over the tables returns, in any order. */
  ghost predicate Selected(t: Catalogue, cs: seq<Company>, ts: seq<Comparable>, rs: seq<Relationship>) {
    && (forall c :: c in cs <==> c in t.companies.Values)
    && (forall c :: c in ts <==> c in t.comparables.Values)
    && (forall r :: r in rs <==> r in t.relationships.Values)
  }

  /** Rows are stored under their own id. */
  ghost predicate Keyed(t: Catalogue) {
    && (forall id :: id in t.companies ==> t.companies[id].id == id)
    && (forall id :: id in t.comparables ==> t.comparables[id].id == id)
  }

  /** Every approved row stands up on its own. */
  ghost predicate EvidenceStands(secure: Secure, today: Date, t: Catalogue) {
    && (forall id :: id in t.companies && t.companies[id].state == Approved ==> GoodCompany(secure, today, t.companies[id]))
    && (forall id :: id in t.comparables && t.comparables[id].state == Approved ==> GoodComparable(secure, today, t.comparables[id]))
    && (forall id :: id in t.relationships && t.relationships[id].state == Approved ==> GoodRelationship(secure, today, t.relationships[id]))
  }

  lemma {:induction false} AnchoredIffEndsApproved(t: Catalogue, cs: seq<Company>, ts: seq<Comparable>, rs: seq<Relationship>, r: Relationship)
    requires Keyed(t) && Selected(t, cs, ts, rs)
    ensures Anchored(ApprovedIds(cs), ApprovedTitleIds(ts), r) <==> EndsApproved(t, r)
  {
  }

  /** The reader accepts the tables exactly when every approved row stands on its
      own and the tables are safe. */
  lemma {:induction false} ReadableIff(secure: Secure, today: Date, t: Catalogue, cs: seq<Company>, ts: seq<Comparable>, rs: seq<Relationship>)
    requires Keyed(t) && Selected(t, cs, ts, rs)
    ensures Readable(secure, today, cs, ts, rs) <==> EvidenceStands(secure, today, t) && Safe(t)
  {
    hide GoodCompany, GoodComparable, GoodRelationship, Anchored, EndsApproved;
    forall r | r in rs ensures Anchored(ApprovedIds(cs), ApprovedTitleIds(ts), r) <==> EndsApproved(t, r) {
      AnchoredIffEndsApproved(t, cs, ts, rs, r);
    }
    if Readable(secure, today, cs, ts, rs) {
      forall id | id in t.companies ensures t.companies[id] in cs { assert t.companies[id] in t.companies.Values; }
      forall id | id in t.comparables ensures t.comparables[id] in ts { assert t.comparables[id] in t.comparables.Values; }
      forall id | id in t.relationships ensures t.relationships[id] in rs { assert t.relationships[id] in t.relationships.Values; }
    }
    if EvidenceStands(secure, today, t) && Safe(t) {
      assert forall id :: id in t.relationships ==> SafeAt(t, id);
    }
  }

  /** After an applied run over tables that hold only this payload's relationships,
      the reader never raises for a dangling end: what it accepts is decided by the
      evidence of single rows. */
  lemma {:induction false} NoDanglingEnd(h: Hash, secure: Secure, today: Date, p: Payload, t: Catalogue, ledger: Ledger, titles: Ledger,
                                         u: Catalogue, cs: seq<Company>, ts: seq<Comparable>, rs: seq<Relationship>)
    requires Distinct(RawIds(p.companies)) && Ours(h, p, t) && Keyed(t) && AppliedRun(h, t, p, ledger, titles, u)
    requires Selected(u, cs, ts, rs)
    ensures Readable(secure, today, cs, ts, rs) <==> EvidenceStands(secure, today, u)
  {
    hide Build, Distinct, AppliedRun, Ours, Keyed, Selected, Readable, EvidenceStands, Safe;
    assert Safe(u) by {
      RunIsAfter(h, p, t, ledger, titles, u);
      RunKeepsOurs(h, p, t, Run(ledger, titles, true));
    }
    RunKeepsKeys(h, p, t, ledger, titles, u);
    ReadableIff(secure, today, u, cs, ts, rs);
  }

  lemma {:induction false} RunIsAfter(h: Hash, p: Payload, t: Catalogue, ledger: Ledger, titles: Ledger, u: Catalogue)
    requires AppliedRun(h, t, p, ledger, titles, u)
    ensures u == After(h, p, t, Run(ledger, titles, true)) && CommercialRun(h, t, p, ledger, titles, true).outcome.Done?
  {
    hide CommercialRun;
  }

  lemma {:induction false} RunKeepsKeys(h: Hash, p: Payload, t: Catalogue, ledger: Ledger, titles: Ledger, u: Catalogue)
    requires Distinct(RawIds(p.companies)) && Keyed(t) && AppliedRun(h, t, p, ledger, titles, u)
    ensures Keyed(u)
  {
    hide Build, Distinct, AppliedRun;
    RunStores(h, t, p, ledger, titles, u);
    var d := Build(h, p, ledger, titles);
    assert forall id :: id in CompanyIds(d.companies) ==> Offered(CompanyIds(d.companies), d.companies, id, u.companies[id]);
    assert forall id :: id in ComparableIds(d.comparables) ==> Offered(ComparableIds(d.comparables), d.comparables, id, u.comparables[id]);
  }
}
