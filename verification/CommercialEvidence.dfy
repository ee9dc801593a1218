/** Which companies the importer approves are also evidence the reader accepts.

    The importer checks that a title's source is secure and never asks the same of
    a company's, so approval alone does not make a company row readable. */
module CommercialEvidence {
  import opened Base
  import opened Text
  import opened Dates
  import opened Identity
  import opened Sync
  import opened Commercial
  import opened CommercialApproval
  import opened CommercialSafety
  import opened CommercialReader

  // ---- the claim fields ----------------------------------------------------------------

  lemma {:induction false} RoleField(value: Value)
    ensures "role" in COMPANY_CLAIMS
    ensures value.Words? ==> (ValidValue("role", value) <==> value.items != {} && value.items <= ROLES)
  {
  }

  lemma {:induction false} ActiveField(value: Value)
    ensures "active" in COMPANY_CLAIMS
    ensures ValidValue("active", value) <==> value.Flag?
  {
  }

  ghost predicate NoBlanks(items: set<string>) { forall item :: item in items ==> !Blank(item) }

  lemma {:induction false} ListValue(field: string, value: Value)
    requires value.Words? && field in LIST_CLAIMS
    ensures ValidValue(field, value) <==> value.items != {} && NoBlanks(value.items)
  {
    hide Blank;
  }

  lemma {:induction false} CompanyListFields()
    ensures forall f :: f == "rights_territories" || f == "formats" || f == "acquisition_stages" || f == "genres" ==>
              f in COMPANY_CLAIMS && f in LIST_CLAIMS
  {
  }

  lemma {:induction false} FieldsDiffer()
    ensures "role" != "active" && "role" != "rights_territories" && "role" != "formats" && "role" != "acquisition_stages" && "role" != "genres"
    ensures "active" != "rights_territories" && "active" != "formats" && "active" != "acquisition_stages" && "active" != "genres"
    ensures "rights_territories" != "formats" && "rights_territories" != "acquisition_stages" && "rights_territories" != "genres"
    ensures "formats" != "acquisition_stages" && "formats" != "genres" && "acquisition_stages" != "genres"
  {
  }

  /** Parts read from a recorded list are never blank. */
  lemma {:induction false} ListedNotBlank(value: string)
    ensures NoBlanks(ListFrom(value))
  {
  }

  // ---- when an approved company row is readable --------------------------------------------

  /** The recorded claim, where one is used, has a usable source. */
  ghost predicate RecordedUsable(secure: Secure, today: Date, ledger: Ledger, subject: string, field: string, items: set<string>) {
    (subject, field) in ledger && items != {} ==> Usable(secure, ledger[(subject, field)].sourceUrl, ledger[(subject, field)].verifiedOn, today)
  }

  function RecordedItems(ledger: Ledger, subject: string, field: string): set<string> {
    if (subject, field) in ledger then ListFrom(ledger[(subject, field)].value) else {}
  }

  ghost predicate CompanyEvidence(secure: Secure, today: Date, c: CompanyRow, ledger: Ledger) {
    && c.id != "" && c.name != ""
    && Usable(secure, c.sourceUrl, c.verificationDate, today)
    && NotAfter(if c.lastVerifiedAt.Some? then c.lastVerifiedAt.value else c.verificationDate, today)
    && c.roles <= ROLES && NoBlanks(c.territories) && NoBlanks(c.formats)
    && RecordedUsable(secure, today, ledger, c.id, "acquisition_stage", RecordedItems(ledger, c.id, "acquisition_stage") * STAGES)
    && RecordedUsable(secure, today, ledger, c.id, "genre_specialties", RecordedItems(ledger, c.id, "genre_specialties"))
  }

  ghost predicate GoodClaim(secure: Secure, today: Date, allowed: set<string>, field: string, claim: Claim) {
    field in allowed && ValidValue(field, claim.value) && Usable(secure, claim.sourceUrl, claim.verifiedOn, today)
  }

  ghost predicate AllGood(secure: Secure, today: Date, allowed: set<string>, claims: map<string, Claim>) {
    forall field :: field in claims ==> GoodClaim(secure, today, allowed, field, claims[field])
  }

  /** Adding a list claim under a new field. */
  lemma {:induction false} AddList(secure: Secure, today: Date, allowed: set<string>, claims: map<string, Claim>, field: string,
                                   items: set<string>, url: string, on: Date)
    requires field !in claims && field in allowed && field in LIST_CLAIMS
    ensures AllGood(secure, today, allowed, WithClaim(claims, field, items, url, on)) <==>
            AllGood(secure, today, allowed, claims) && (items != {} ==> NoBlanks(items) && Usable(secure, url, on, today))
    ensures WithClaim(claims, field, items, url, on).Keys <= claims.Keys + {field} && claims.Keys <= WithClaim(claims, field, items, url, on).Keys
  {
    hide ValidValue, NoBlanks, Usable;
    ListValue(field, Words(items));
    var w := WithClaim(claims, field, items, url, on);
    if items != {} && AllGood(secure, today, allowed, w) {
      assert GoodClaim(secure, today, allowed, field, w[field]);
      forall f | f in claims ensures GoodClaim(secure, today, allowed, f, claims[f]) { assert GoodClaim(secure, today, allowed, f, w[f]); }
    }
  }

  /** The role and active claims every company starts from. */
  function FirstClaims(c: CompanyRow): map<string, Claim> {
    WithClaim(map[], "role", c.roles, c.sourceUrl, c.verificationDate)["active" := Claim(Flag(c.current), c.sourceUrl, c.verificationDate)]
  }

  lemma {:induction false} FirstClaimsGood(secure: Secure, today: Date, c: CompanyRow)
    requires c.roles != {}
    ensures AllGood(secure, today, COMPANY_CLAIMS, FirstClaims(c)) <==> Usable(secure, c.sourceUrl, c.verificationDate, today) && c.roles <= ROLES
    ensures FirstClaims(c).Keys == {"role", "active"}
  {
    hide ValidValue, Usable;
    RoleField(Words(c.roles));
    ActiveField(Flag(c.current));
    FieldsDiffer();
    var m := FirstClaims(c);
    if AllGood(secure, today, COMPANY_CLAIMS, m) { assert GoodClaim(secure, today, COMPANY_CLAIMS, "role", m["role"]); }
  }

  lemma {:induction false} ClaimsGood(secure: Secure, today: Date, c: CompanyRow, ledger: Ledger)
    requires c.roles != {}
    ensures var good := GoodClaims(secure, today, CompanyClaims(c, ledger), COMPANY_CLAIMS);
            good <==> && Usable(secure, c.sourceUrl, c.verificationDate, today) && c.roles <= ROLES && NoBlanks(c.territories) && NoBlanks(c.formats)
                      && RecordedUsable(secure, today, ledger, c.id, "acquisition_stage", RecordedItems(ledger, c.id, "acquisition_stage") * STAGES)
                      && RecordedUsable(secure, today, ledger, c.id, "genre_specialties", RecordedItems(ledger, c.id, "genre_specialties"))
    ensures "role" in CompanyClaims(c, ledger) && "active" in CompanyClaims(c, ledger)
  {
    hide ValidValue, Usable, NoBlanks, WithClaim, ListFrom, AllGood, RecordedUsable, GoodClaims, FirstClaims;
    var b := FirstClaims(c);
    FirstClaimsGood(secure, today, c);
    FieldsDiffer();
    CompanyListFields();
    AddList(secure, today, COMPANY_CLAIMS, b, "rights_territories", c.territories, c.sourceUrl, c.verificationDate);
    var d := WithClaim(b, "rights_territories", c.territories, c.sourceUrl, c.verificationDate);
    AddList(secure, today, COMPANY_CLAIMS, d, "formats", c.formats, c.sourceUrl, c.verificationDate);
    var e := WithClaim(d, "formats", c.formats, c.sourceUrl, c.verificationDate);
    var f := AddLedger(secure, today, e, ledger, c.id, "acquisition_stage", "acquisition_stages", true);
    var g := AddLedger(secure, today, f, ledger, c.id, "genre_specialties", "genres", false);
    assert g == CompanyClaims(c, ledger) by { StartsFromFirst(c, ledger); }
    NothingIsNotBlank();
    AllGoodIsGood(secure, today, COMPANY_CLAIMS, g);
  }

  lemma {:induction false} StartsFromFirst(c: CompanyRow, ledger: Ledger)
    ensures var d := WithClaim(FirstClaims(c), "rights_territories", c.territories, c.sourceUrl, c.verificationDate);
            var e := WithClaim(d, "formats", c.formats, c.sourceUrl, c.verificationDate);
            CompanyClaims(c, ledger) == WithLedger(WithLedger(e, ledger, c.id, "acquisition_stage", "acquisition_stages"), ledger, c.id, "genre_specialties", "genres")
  {
  }

  lemma {:induction false} AllGoodIsGood(secure: Secure, today: Date, allowed: set<string>, claims: map<string, Claim>)
    ensures AllGood(secure, today, allowed, claims) <==> GoodClaims(secure, today, claims, allowed)
  {
  }

  lemma {:induction false} NothingIsNotBlank()
    ensures NoBlanks({})
  {
  }

  lemma {:induction false} AddLedger(secure: Secure, today: Date, claims: map<string, Claim>, ledger: Ledger, subject: string, field: string,
                                     claim: string, stages: bool)
    returns (more: map<string, Claim>)
    requires claim !in claims && if stages then claim == "acquisition_stages" else claim == "genres"
    ensures more == WithLedger(claims, ledger, subject, field, claim)
    ensures AllGood(secure, today, COMPANY_CLAIMS, more) <==>
            AllGood(secure, today, COMPANY_CLAIMS, claims) &&
            RecordedUsable(secure, today, ledger, subject, field,
                           if stages then RecordedItems(ledger, subject, field) * STAGES else RecordedItems(ledger, subject, field))
    ensures more.Keys <= claims.Keys + {claim} && claims.Keys <= more.Keys
  {
    hide Usable, NoBlanks, ListFrom, WithClaim, AllGood;
    FieldsDiffer();
    CompanyListFields();
    more := WithLedger(claims, ledger, subject, field, claim);
    if (subject, field) in ledger {
      var r := ledger[(subject, field)];
      var items := if stages then Stages(r.value) else ListFrom(r.value);
      AddList(secure, today, COMPANY_CLAIMS, claims, claim, items, r.sourceUrl, r.verifiedOn);
      ListedNotBlank(r.value);
      FewerNotBlank(ListFrom(r.value), items);
    }
  }

  lemma {:induction false} FewerNotBlank(all: set<string>, some: set<string>)
    requires NoBlanks(all) && some <= all
    ensures NoBlanks(some)
  {
  }

  /** An approved company row is readable exactly when its own evidence is usable. */
  lemma {:induction false} ApprovedCompanyReadable(secure: Secure, today: Date, c: CompanyRow, ledger: Ledger)
    requires CompanyReview(c, ledger).Passed?
    ensures GoodCompany(secure, today, CompanyFor(c, ledger)) <==> CompanyEvidence(secure, today, c, ledger)
  {
    hide CompanyClaims, GoodClaims, RecordedUsable, NoBlanks, Usable, Confirmed;
    ApprovedIsActive(c, ledger);
    ClaimsGood(secure, today, c, ledger);
  }

  /** One approved company whose own source is not usable silences the reader:
      it raises over the whole catalogue the importer just wrote. */
  lemma {:induction false} UnusableSourceSilencesReader(h: Hash, secure: Secure, today: Date, p: Payload, t: Catalogue, ledger: Ledger, titles: Ledger,
                                                        u: Catalogue, cs: seq<Company>, ts: seq<Comparable>, rs: seq<Relationship>, c: CompanyRow)
    requires Distinct(RawIds(p.companies)) && AppliedRun(h, t, p, ledger, titles, u) && Selected(u, cs, ts, rs)
    requires c in p.companies && CompanyReview(c, ledger).Passed? && !CompanyEvidence(secure, today, c, ledger)
    ensures !Readable(secure, today, cs, ts, rs)
  {
    hide AppliedRun, TitlesFrom, Distinct, CompanyFor, CompanyEvidence, GoodCompany, CompanyReview, Synced;
    RunStores(h, t, p, ledger, titles, u);
    ApprovedCompanyReadable(secure, today, c, ledger);
    var i :| 0 <= i < |p.companies| && p.companies[i] == c;
    var row := CompanyFor(c, ledger);
    assert Build(h, p, ledger, titles).companies[i] == row;
    StateOfCompany(c, ledger);
    assert u.companies[row.id] in u.companies.Values;
    assert row in cs;
  }
}
