/** What an applied run of the commercial importer leaves in every column, read off
    the payload and the ledgers, and what its report counts. */
module CommercialColumns {
  import opened Base
  import opened Text
  import opened Dates
  import opened Identity
  import opened Sync
  import opened Commercial
  import opened CommercialApproval
  import opened CommercialSafety
  import opened CommercialEvidence
  import opened CommercialReadable
  import Formats

  // ---- recorded lists ------------------------------------------------------------------------

  /** The parts with semicolons between them. */
  function Semicolons(parts: seq<string>): string
    requires parts != []
  {
    if |parts| == 1 then parts[0] else Semicolons(parts[..|parts| - 1]) + ";" + parts[|parts| - 1]
  }

  lemma {:induction false} PlainPart(w: string)
    requires ';' !in w
    ensures Parts(w) == [w]
  {
    if w != "" {
      var n := |w| - 1;
      assert w == w[..n] + [w[n]];
      PlainPart(w[..n]);
    }
  }

  lemma {:induction false} OneMorePart(value: string, w: string)
    requires ';' !in w
    ensures Parts(value + ";" + w) == Parts(value) + [w]
  {
    var s := value + ";" + w;
    if w == "" {
      assert s[..|s| - 1] == value && s[|s| - 1] == ';';
    } else {
      var n := |w| - 1;
      assert w == w[..n] + [w[n]];
      OneMorePart(value, w[..n]);
      assert s[..|s| - 1] == value + ";" + w[..n] && s[|s| - 1] == w[n];
    }
  }

  /** Splitting a recorded value takes back exactly what was put between semicolons. */
  lemma {:induction false} PartsOf(parts: seq<string>)
    requires parts != [] && forall i :: 0 <= i < |parts| ==> ';' !in parts[i]
    ensures Parts(Semicolons(parts)) == parts
  {
    var n := |parts| - 1;
    if n == 0 {
      PlainPart(parts[0]);
    } else {
      PartsOf(parts[..n]);
      OneMorePart(Semicolons(parts[..n]), parts[n]);
      assert parts == parts[..n] + [parts[n]];
    }
  }

  /** `item` is one of the parts of a recorded value, stripped, in lower case, not blank. */
  ghost predicate Lists(value: string, item: string) {
    exists part :: part in Parts(value) && Strip(part) != "" && item == Lower(Strip(part))
  }

  // ---- companies ------------------------------------------------------------------------------

  /** The importer may approve the company. */
  ghost predicate Eligible(c: CompanyRow, ledger: Ledger) {
    && Upper(c.paidMatchEligible) == "YES"
    && "VERIFIED_" <= c.verificationStatus
    && c.current && c.roles != {}
    && (c.verificationStatus == "VERIFIED_CURRENT_DIRECTORY_PROFILE" ==>
          (c.id, "primary_source_confirmation") in ledger
          && Upper(Strip(ledger[(c.id, "primary_source_confirmation")].value)) == "CONFIRMED")
  }

  function ReviewDate(c: CompanyRow): Date { match c.lastVerifiedAt case Some(d) => d case None => c.verificationDate }

  /** Why it may not: the first test it fails. */
  ghost predicate HeldFor(c: CompanyRow, ledger: Ledger, reason: Reason) {
    if Upper(c.paidMatchEligible) != "YES" then reason == NotEligible
    else if !("VERIFIED_" <= c.verificationStatus) then reason == Unverified(c.verificationStatus)
    else if !c.current then reason == Retired
    else if c.roles == {} then reason == NoRole
    else !Eligible(c, ledger) && reason == Unconfirmed
  }

  lemma {:induction false} ReviewIs(c: CompanyRow, ledger: Ledger)
    ensures CompanyReview(c, ledger).Passed? <==> Eligible(c, ledger)
    ensures Eligible(c, ledger) ==> CompanyReview(c, ledger) == Passed(ReviewDate(c))
    ensures forall reason :: CompanyReview(c, ledger) == HeldBack(reason) <==> HeldFor(c, ledger, reason)
  {
    assert DIRECTORY == "VERIFIED_CURRENT_DIRECTORY_PROFILE";
  }

  /** A list claim is there exactly when the list is not empty. */
  ghost predicate ListClaim(claims: map<string, Claim>, field: string, items: set<string>, url: string, on: Date) {
    && (field in claims <==> items != {})
    && (field in claims ==> claims[field] == Claim(Words(items), url, on))
  }

  /** A ledger claim is there exactly when the value recorded under `recorded` lists
      something allowed, with those items and the recorded source and date. */
  ghost predicate LedgerClaim(claims: map<string, Claim>, field: string, ledger: Ledger, subject: string, recorded: string, allowed: iset<string>) {
    && (field in claims <==> (subject, recorded) in ledger && exists item :: Lists(ledger[(subject, recorded)].value, item) && item in allowed)
    && (field in claims ==>
          var r := ledger[(subject, recorded)];
          && claims[field].value.Words? && claims[field].sourceUrl == r.sourceUrl && claims[field].verifiedOn == r.verifiedOn
          && forall item :: item in claims[field].value.items <==> Lists(r.value, item) && item in allowed)
  }

  ghost const ANYTHING: iset<string> := iset s: string | true
  ghost const FIVE_STAGES: iset<string> := iset{"development", "pre_production", "production", "post_production", "completed"}

  /** The claims read off the company's own row. */
  ghost predicate OwnSay(c: CompanyRow, claims: map<string, Claim>) {
    && ListClaim(claims, "role", c.roles, c.sourceUrl, c.verificationDate)
    && "active" in claims && claims["active"] == Claim(Flag(c.current), c.sourceUrl, c.verificationDate)
    && ListClaim(claims, "rights_territories", c.territories, c.sourceUrl, c.verificationDate)
    && ListClaim(claims, "formats", c.formats, c.sourceUrl, c.verificationDate)
  }

  /** The claims of a company, field by field. */
  ghost predicate ClaimsSay(c: CompanyRow, ledger: Ledger, claims: map<string, Claim>) {
    && (forall f :: f in claims ==> f in {"role", "active", "rights_territories", "formats", "acquisition_stages", "genres"})
    && OwnSay(c, claims)
    && LedgerClaim(claims, "acquisition_stages", ledger, c.id, "acquisition_stage", FIVE_STAGES)
    && LedgerClaim(claims, "genres", ledger, c.id, "genre_specialties", ANYTHING)
  }

  /** A stored company, column by column. */
  ghost predicate CompanySays(c: CompanyRow, ledger: Ledger, x: Company) {
    && x.id == c.id && x.name == c.name && !x.rulesComplete && x.accessRoute == c.accessRoute && x.portfolioGroup == c.portfolioGroup
    && (x.state == Approved <==> Eligible(c, ledger)) && (!Eligible(c, ledger) ==> x.state == Pending)
    && x.reviewedOn == (if Eligible(c, ledger) then Some(ReviewDate(c)) else None)
    && ClaimsSay(c, ledger, x.claims)
  }

  lemma {:induction false} ListFromIs(value: string)
    ensures forall item :: item in ListFrom(value) <==> Lists(value, item)
  {
    hide Strip, Lower;
  }

  lemma {:induction false} StagesAre(value: string)
    ensures forall item :: item in Stages(value) <==> Lists(value, item) && item in FIVE_STAGES
  {
    ListFromIs(value);
  }

  lemma {:induction false} AddedList(claims: map<string, Claim>, field: string, items: set<string>, url: string, on: Date)
    requires field !in claims
    ensures ListClaim(WithClaim(claims, field, items, url, on), field, items, url, on)
    ensures forall f :: f != field ==> (f in WithClaim(claims, field, items, url, on) <==> f in claims)
    ensures forall f :: f in claims ==> WithClaim(claims, field, items, url, on)[f] == claims[f]
  {
  }

  lemma {:induction false} AddedStages(claims: map<string, Claim>, ledger: Ledger, subject: string)
    requires "acquisition_stages" !in claims
    ensures var more := WithLedger(claims, ledger, subject, "acquisition_stage", "acquisition_stages");
            && LedgerClaim(more, "acquisition_stages", ledger, subject, "acquisition_stage", FIVE_STAGES)
            && (forall f :: f != "acquisition_stages" ==> (f in more <==> f in claims)) && forall f :: f in claims ==> more[f] == claims[f]
  {
    hide Lists, ListFrom, FIVE_STAGES;
    if (subject, "acquisition_stage") in ledger {
      var r := ledger[(subject, "acquisition_stage")];
      StagesAre(r.value);
      hide Stages;
      AddedList(claims, "acquisition_stages", Stages(r.value), r.sourceUrl, r.verifiedOn);
      if Stages(r.value) != {} { var item :| item in Stages(r.value); }
    }
  }

  lemma {:induction false} AddedGenres(claims: map<string, Claim>, ledger: Ledger, subject: string)
    requires "genres" !in claims
    ensures var more := WithLedger(claims, ledger, subject, "genre_specialties", "genres");
            && LedgerClaim(more, "genres", ledger, subject, "genre_specialties", ANYTHING)
            && (forall f :: f != "genres" ==> (f in more <==> f in claims)) && forall f :: f in claims ==> more[f] == claims[f]
  {
    hide Lists, ListFrom;
    assert "genres" != "acquisition_stages";
    if (subject, "genre_specialties") in ledger {
      var r := ledger[(subject, "genre_specialties")];
      ListFromIs(r.value);
      AddedList(claims, "genres", ListFrom(r.value), r.sourceUrl, r.verifiedOn);
      if ListFrom(r.value) != {} { var item :| item in ListFrom(r.value); }
    }
  }

  /** Claims added later leave a list claim as it is. */
  lemma {:induction false} StillListed(before: map<string, Claim>, after: map<string, Claim>, field: string, items: set<string>, url: string, on: Date)
    requires ListClaim(before, field, items, url, on)
    requires (field in after <==> field in before) && (field in before ==> after[field] == before[field])
    ensures ListClaim(after, field, items, url, on)
  {
  }

  /** The claims a company starts with, before the ledger is read. */
  function OwnClaims(c: CompanyRow): map<string, Claim> {
    var a := WithClaim(map[], "role", c.roles, c.sourceUrl, c.verificationDate);
    var b := a["active" := Claim(Flag(c.current), c.sourceUrl, c.verificationDate)];
    var d := WithClaim(b, "rights_territories", c.territories, c.sourceUrl, c.verificationDate);
    WithClaim(d, "formats", c.formats, c.sourceUrl, c.verificationDate)
  }

  lemma {:induction false} OwnClaimsAre(c: CompanyRow)
    ensures OwnSay(c, OwnClaims(c)) && forall f :: f in OwnClaims(c) ==> f in {"role", "active", "rights_territories", "formats"}
  {
    hide WithClaim, ListClaim;
    FieldsDiffer();
    var a := WithClaim(map[], "role", c.roles, c.sourceUrl, c.verificationDate);
    AddedList(map[], "role", c.roles, c.sourceUrl, c.verificationDate);
    var b := a["active" := Claim(Flag(c.current), c.sourceUrl, c.verificationDate)];
    var d := WithClaim(b, "rights_territories", c.territories, c.sourceUrl, c.verificationDate);
    AddedList(b, "rights_territories", c.territories, c.sourceUrl, c.verificationDate);
    var e := OwnClaims(c);
    AddedList(d, "formats", c.formats, c.sourceUrl, c.verificationDate);
    StillListed(a, e, "role", c.roles, c.sourceUrl, c.verificationDate);
    StillListed(d, e, "rights_territories", c.territories, c.sourceUrl, c.verificationDate);
  }

  lemma {:induction false} OwnStay(c: CompanyRow, before: map<string, Claim>, after: map<string, Claim>)
    requires OwnSay(c, before)
    requires forall f :: f in {"role", "active", "rights_territories", "formats"} ==> (f in after <==> f in before)
    requires forall f :: f in before ==> f in after && after[f] == before[f]
    ensures OwnSay(c, after)
  {
  }

  lemma {:induction false} ClaimsAre(c: CompanyRow, ledger: Ledger)
    ensures ClaimsSay(c, ledger, CompanyClaims(c, ledger))
  {
    hide WithLedger, LedgerClaim, ListClaim, Lists, OwnSay;
    FieldsDiffer();
    OwnClaimsAre(c);
    var e := OwnClaims(c);
    var f := WithLedger(e, ledger, c.id, "acquisition_stage", "acquisition_stages");
    AddedStages(e, ledger, c.id);
    var g := WithLedger(f, ledger, c.id, "genre_specialties", "genres");
    AddedGenres(f, ledger, c.id);
    assert g == CompanyClaims(c, ledger);
    hide OwnClaims, CompanyClaims;
    OwnStay(c, e, g);
    StillRecorded(f, g, "acquisition_stages", ledger, c.id, "acquisition_stage", FIVE_STAGES);
  }

  lemma {:induction false} StillRecorded(before: map<string, Claim>, after: map<string, Claim>, field: string, ledger: Ledger,
                                         subject: string, recorded: string, allowed: iset<string>)
    requires LedgerClaim(before, field, ledger, subject, recorded, allowed)
    requires (field in after <==> field in before) && (field in before ==> after[field] == before[field])
    ensures LedgerClaim(after, field, ledger, subject, recorded, allowed)
  {
  }

  lemma {:induction false} CompanyForSays(c: CompanyRow, ledger: Ledger)
    ensures CompanySays(c, ledger, CompanyFor(c, ledger))
  {
    hide CompanyReview, CompanyClaims, ClaimsSay, Eligible;
    ReviewIs(c, ledger);
    ClaimsAre(c, ledger);
  }

  /** After an applied run every company of the payload is stored as its row and the
      ledger say, approved exactly when it may be; no other company appears, and
      those the payload does not mention are as they were. */
  lemma {:induction false} CompaniesStored(h: Hash, t: Catalogue, p: Payload, ledger: Ledger, titles: Ledger, u: Catalogue)
    requires Distinct(RawIds(p.companies)) && AppliedRun(h, t, p, ledger, titles, u)
    ensures forall c :: c in p.companies ==> c.id in u.companies && CompanySays(c, ledger, u.companies[c.id])
    ensures forall id :: id in u.companies <==> id in t.companies || exists c :: c in p.companies && c.id == id
    ensures forall id :: id in t.companies && (forall c :: c in p.companies ==> c.id != id) ==> u.companies[id] == t.companies[id]
  {
    hide AppliedRun, CompanyFor, CompanySays, Distinct;
    RawIdsAre(p.companies);
    forall id
      ensures id in u.companies <==> id in t.companies || id in RawIds(p.companies)
      ensures id in t.companies && id !in RawIds(p.companies) ==> u.companies[id] == t.companies[id]
    {
      assert CleanRun(h, t, p, ledger, titles, u);
      CompanyAfter(h, t, p, ledger, titles, u, id);
    }
    forall c | c in p.companies ensures c.id in u.companies && CompanySays(c, ledger, u.companies[c.id]) {
      RawIdIn(p.companies, c);
      CompanyAfter(h, t, p, ledger, titles, u, c.id);
      var b :| b in p.companies && b.id == c.id && u.companies[c.id] == CompanyFor(b, ledger);
      OneCompany(p, b, c);
      CompanyForSays(c, ledger);
    }
  }

  lemma {:induction false} RawIdsAre(cs: seq<CompanyRow>)
    ensures forall id :: id in RawIds(cs) <==> exists c :: c in cs && c.id == id
  {
    forall id | id in RawIds(cs) ensures exists c :: c in cs && c.id == id {
      var i :| 0 <= i < |cs| && RawIds(cs)[i] == id;
      assert cs[i] in cs;
    }
    forall c | c in cs ensures c.id in RawIds(cs) { RawIdIn(cs, c); }
  }

  // ---- the rows that count ---------------------------------------------------------------------

  /** `c` is the last company of the payload that bears the name the row gives. */
  ghost predicate Called(cs: seq<CompanyRow>, raw: TitleRow, c: CompanyRow) {
    exists i :: 0 <= i < |cs| && cs[i] == c && c.name == raw.companyName && forall j :: i < j < |cs| ==> cs[j].name != raw.companyName
  }

  /** The row names a title, the company `c` and a secure page. */
  ghost predicate Counts(cs: seq<CompanyRow>, raw: TitleRow, c: CompanyRow) {
    Called(cs, raw, c) && c.id != "" && Strip(raw.filmTitle) != "" && "https://" <= raw.sourceUrl
  }

  ghost predicate Signed(raw: TitleRow) { raw.verificationStatus == "VERIFIED" || raw.verificationStatus == "VERIFIED_DIRECTORY_2026" }

  function TitleId(h: Hash, raw: TitleRow): string { h("prodculator:commercial-comparable:" + Lower(Strip(raw.filmTitle))) }

  function PairKey(h: Hash, raw: TitleRow, c: CompanyRow): string {
    h(TitleId(h, raw) + ":" + "COMPANY" + ":" + c.id + ":" + raw.relationshipType)
  }

  /** The last of one more company: that one if it has the name, else as before. */
  lemma {:induction false} CalledSnoc(cs: seq<CompanyRow>, b: CompanyRow, raw: TitleRow, c: CompanyRow)
    ensures Called(cs + [b], raw, c) <==> if b.name == raw.companyName then c == b else Called(cs, raw, c)
  {
    var all := cs + [b];
    assert all[|cs|] == b && forall i :: 0 <= i < |cs| ==> all[i] == cs[i];
    if b.name != raw.companyName && Called(cs, raw, c) {
      var i :| 0 <= i < |cs| && cs[i] == c && c.name == raw.companyName && forall j :: i < j < |cs| ==> cs[j].name != raw.companyName;
      assert all[i] == c;
    }
  }

  lemma {:induction false} ByNameIs(cs: seq<CompanyRow>, raw: TitleRow, c: CompanyRow)
    requires Called(cs, raw, c)
    ensures ByName(cs, raw.companyName) == Some(c.id)
  {
    hide Called;
    if cs == [] {
      NoneCalled(raw, c);
    } else {
      var n := |cs| - 1;
      assert cs == cs[..n] + [cs[n]];
      CalledSnoc(cs[..n], cs[n], raw, c);
      if cs[n].name != raw.companyName { ByNameIs(cs[..n], raw, c); }
    }
  }

  lemma {:induction false} NoneCalled(raw: TitleRow, c: CompanyRow)
    ensures !Called([], raw, c)
  {
  }

  lemma {:induction false} SomeCalled(cs: seq<CompanyRow>, raw: TitleRow) returns (c: CompanyRow)
    requires ByName(cs, raw.companyName).Some?
    ensures Called(cs, raw, c)
  {
    hide Called;
    var n := |cs| - 1;
    assert cs == cs[..n] + [cs[n]];
    c := cs[n];
    if cs[n].name != raw.companyName { c := SomeCalled(cs[..n], raw); }
    CalledSnoc(cs[..n], cs[n], raw, c);
  }

  lemma {:induction false} SeenIs(cs: seq<CompanyRow>, c: CompanyRow)
    requires Distinct(RawIds(cs)) && c in cs
    ensures SeenOn(cs, c.id) == Some(c.verificationDate)
  {
    var n := |cs| - 1;
    var ids := RawIds(cs);
    assert cs == cs[..n] + [cs[n]];
    if cs[n].id == c.id {
      var i :| 0 <= i < |cs| && cs[i] == c;
      assert ids[i] == ids[n];
      assert i == n;
    } else {
      assert RawIds(cs[..n]) == ids[..n];
      SeenIs(cs[..n], c);
    }
  }

  lemma {:induction false} CountsIs(h: Hash, cs: seq<CompanyRow>, raw: TitleRow, c: CompanyRow)
    requires Distinct(RawIds(cs)) && Counts(cs, raw, c)
    ensures Kept(cs, raw) && Target(cs, raw) == c.id && Seen(cs, raw) == c.verificationDate
  {
    hide Strip, Distinct;
    ByNameIs(cs, raw, c);
    SeenIs(cs, c);
  }

  lemma {:induction false} SomeCounts(cs: seq<CompanyRow>, raw: TitleRow) returns (c: CompanyRow)
    requires Kept(cs, raw)
    ensures Counts(cs, raw, c)
  {
    hide Strip;
    c := SomeCalled(cs, raw);
    ByNameIs(cs, raw, c);
  }

  lemma {:induction false} StripTwice(s: string)
    ensures Strip(Strip(s)) == Strip(s)
  {
    Formats.StripTrims(s);
    StripKeeps(Strip(s));
  }

  lemma {:induction false} IdentityIs(h: Hash, raw: TitleRow)
    ensures IdentityOf(h, raw) == TitleId(h, raw)
  {
    StripTwice(raw.filmTitle);
  }

  // ---- the first row of a title ------------------------------------------------------------------

  ghost predicate CountsFor(h: Hash, cs: seq<CompanyRow>, raw: TitleRow, id: string) { TitleId(h, raw) == id && exists c :: Counts(cs, raw, c) }

  /** Row `k` is the first that counts for the title. */
  ghost predicate FirstFor(h: Hash, cs: seq<CompanyRow>, raws: seq<TitleRow>, id: string, k: nat) {
    k < |raws| && CountsFor(h, cs, raws[k], id) && forall j :: 0 <= j < k ==> !CountsFor(h, cs, raws[j], id)
  }

  lemma {:induction false} CountsForIs(h: Hash, cs: seq<CompanyRow>, raw: TitleRow, id: string)
    requires Distinct(RawIds(cs))
    ensures CountsFor(h, cs, raw, id) <==> Kept(cs, raw) && IdentityOf(h, raw) == id
  {
    hide Kept, IdentityOf, TitleId, Counts, Distinct;
    IdentityIs(h, raw);
    if Kept(cs, raw) { var c := SomeCounts(cs, raw); }
    if c :| Counts(cs, raw, c) { CountsIs(h, cs, raw, c); }
  }

  lemma {:induction false} FirstRowAt(h: Hash, cs: seq<CompanyRow>, raws: seq<TitleRow>, id: string, k: nat)
    requires Distinct(RawIds(cs)) && FirstFor(h, cs, raws, id, k)
    ensures FirstRow(h, cs, raws, id) == Some(raws[k])
  {
    hide CountsFor, Kept, IdentityOf, Distinct;
    var n := |raws| - 1;
    CountsForIs(h, cs, raws[n], id);
    if k < n {
      assert FirstFor(h, cs, raws[..n], id, k);
      FirstRowAt(h, cs, raws[..n], id, k);
    } else {
      NoFirstRow(h, cs, raws[..n], id);
    }
  }

  lemma {:induction false} NoFirstRow(h: Hash, cs: seq<CompanyRow>, raws: seq<TitleRow>, id: string)
    requires Distinct(RawIds(cs)) && forall j :: 0 <= j < |raws| ==> !CountsFor(h, cs, raws[j], id)
    ensures FirstRow(h, cs, raws, id) == None
  {
    hide CountsFor, Kept, IdentityOf, Distinct;
    if raws != [] {
      var n := |raws| - 1;
      CountsForIs(h, cs, raws[n], id);
      NoFirstRow(h, cs, raws[..n], id);
    }
  }

  lemma {:induction false} SomeFirst(h: Hash, cs: seq<CompanyRow>, raws: seq<TitleRow>, id: string, j: nat) returns (k: nat)
    requires j < |raws| && CountsFor(h, cs, raws[j], id)
    ensures FirstFor(h, cs, raws, id, k)
  {
    hide CountsFor;
    k := j;
    if i :| 0 <= i < j && CountsFor(h, cs, raws[i], id) { k := SomeFirst(h, cs, raws, id, i); }
  }

  // ---- comparables ---------------------------------------------------------------------------------

  ghost predicate TitleClaimsSay(claims: map<string, Claim>, titles: Ledger, id: string) {
    && (forall f :: f in claims ==> f in {"format", "genres", "production_countries", "primary_languages"})
    && ("format" in claims <==> (id, "format") in titles && Strip(titles[(id, "format")].value) != "")
    && ("format" in claims ==>
          var r := titles[(id, "format")]; claims["format"] == Claim(Word(Lower(Strip(r.value))), r.sourceUrl, r.verifiedOn))
    && LedgerClaim(claims, "genres", titles, id, "genres", ANYTHING)
    && LedgerClaim(claims, "production_countries", titles, id, "production_countries", ANYTHING)
    && LedgerClaim(claims, "primary_languages", titles, id, "primary_languages", ANYTHING)
  }

  /** A stored comparable, column by column, from its title's first row. */
  ghost predicate ComparableSays(h: Hash, titles: Ledger, raw: TitleRow, c: CompanyRow, x: Comparable) {
    && x.id == TitleId(h, raw) && x.title == Strip(raw.filmTitle) && x.sourceUrl == raw.sourceUrl && x.verifiedOn == c.verificationDate
    && TitleClaimsSay(x.claims, titles, x.id)
    && x.state == (if Signed(raw) then Approved else Pending)
    && x.reviewedOn == (if Signed(raw) then Some(c.verificationDate) else None)
  }

  lemma {:induction false} AddedTitleList(claims: map<string, Claim>, titles: Ledger, id: string, field: string)
    requires field !in claims
    ensures var more := TitleClaim(claims, titles, id, field, true);
            && LedgerClaim(more, field, titles, id, field, ANYTHING)
            && (forall f :: f != field ==> (f in more <==> f in claims)) && forall f :: f in claims ==> more[f] == claims[f]
  {
    hide Lists, ListFrom;
    if (id, field) in titles {
      var r := titles[(id, field)];
      ListFromIs(r.value);
      AddedList(claims, field, ListFrom(r.value), r.sourceUrl, r.verifiedOn);
      if ListFrom(r.value) != {} { var item :| item in ListFrom(r.value); }
    }
  }

  lemma {:induction false} TitleClaimsAre(titles: Ledger, id: string)
    ensures TitleClaimsSay(TitleClaims(titles, id), titles, id)
  {
    hide TitleClaim, LedgerClaim, Lists, Strip, Lower;
    TitleFields();
    var a := TitleClaim(map[], titles, id, "format", false);
    FormatClaim(titles, id);
    var b := TitleClaim(a, titles, id, "genres", true);
    AddedTitleList(a, titles, id, "genres");
    var c := TitleClaim(b, titles, id, "production_countries", true);
    AddedTitleList(b, titles, id, "production_countries");
    var d := TitleClaim(c, titles, id, "primary_languages", true);
    AddedTitleList(c, titles, id, "primary_languages");
    StillRecorded(b, d, "genres", titles, id, "genres", ANYTHING);
    StillRecorded(c, d, "production_countries", titles, id, "production_countries", ANYTHING);
  }

  lemma {:induction false} FormatClaim(titles: Ledger, id: string)
    ensures var a := TitleClaim(map[], titles, id, "format", false);
            && (forall f :: f in a ==> f == "format")
            && ("format" in a <==> (id, "format") in titles && Strip(titles[(id, "format")].value) != "")
            && ("format" in a ==>
                  var r := titles[(id, "format")]; a["format"] == Claim(Word(Lower(Strip(r.value))), r.sourceUrl, r.verifiedOn))
  {
    hide Strip, Lower;
  }

  lemma {:induction false} ComparableForSays(h: Hash, cs: seq<CompanyRow>, titles: Ledger, raw: TitleRow, c: CompanyRow)
    requires Distinct(RawIds(cs)) && Counts(cs, raw, c)
    ensures ComparableSays(h, titles, raw, c, ComparableFor(h, cs, titles, raw))
  {
    hide TitleClaims, TitleClaimsSay, IdentityOf, TitleId, Target, Seen, Strip, Counts, Distinct;
    CountsIs(h, cs, raw, c);
    IdentityIs(h, raw);
    TitleClaimsAre(titles, IdentityOf(h, raw));
  }

  /** After an applied run every title a row counts for is stored as its first such row
      and the title ledger say; the comparables of other titles are as they were. */
  lemma {:induction false} ComparablesStored(h: Hash, t: Catalogue, p: Payload, ledger: Ledger, titles: Ledger, u: Catalogue, id: string)
    requires Distinct(RawIds(p.companies)) && AppliedRun(h, t, p, ledger, titles, u)
    ensures forall k: nat, c :: FirstFor(h, p.companies, p.titles, id, k) && Counts(p.companies, p.titles[k], c) ==>
              id in u.comparables && ComparableSays(h, titles, p.titles[k], c, u.comparables[id])
    ensures (forall k :: 0 <= k < |p.titles| ==> !CountsFor(h, p.companies, p.titles[k], id)) ==>
              (id in u.comparables <==> id in t.comparables) && (id in t.comparables ==> u.comparables[id] == t.comparables[id])
  {
    hide AppliedRun, Distinct, ComparableFor, ComparableSays, Counts, CountsFor;
    assert CleanRun(h, t, p, ledger, titles, u);
    TitleAfter(h, t, p, ledger, titles, u, id);
    forall k: nat, c | FirstFor(h, p.companies, p.titles, id, k) && Counts(p.companies, p.titles[k], c)
      ensures id in u.comparables && ComparableSays(h, titles, p.titles[k], c, u.comparables[id])
    {
      FirstRowAt(h, p.companies, p.titles, id, k);
      ComparableForSays(h, p.companies, titles, p.titles[k], c);
    }
    if forall k :: 0 <= k < |p.titles| ==> !CountsFor(h, p.companies, p.titles[k], id) { NoFirstRow(h, p.companies, p.titles, id); }
  }

  // ---- relationships ---------------------------------------------------------------------------------

  /** The first row of the title is signed off. */
  ghost predicate TitleSigned(h: Hash, p: Payload, id: string) {
    exists k: nat :: FirstFor(h, p.companies, p.titles, id, k) && Signed(p.titles[k])
  }

  /** A stored relationship, column by column: approved exactly when its row is signed
      off, its company may be approved and its title's first row is signed off. */
  ghost predicate PairSays(h: Hash, p: Payload, ledger: Ledger, raw: TitleRow, c: CompanyRow, x: Relationship) {
    && x.id == PairKey(h, raw, c) && x.comparableId == TitleId(h, raw) && x.targetKind == "COMPANY" && x.targetId == c.id
    && x.relationshipType == raw.relationshipType && x.sourceUrl == raw.sourceUrl && x.verifiedOn == c.verificationDate
    && x.state == if Signed(raw) && Eligible(c, ledger) && TitleSigned(h, p, TitleId(h, raw)) then Approved else Pending
  }

  lemma {:induction false} ApprovedIs(cs: seq<CompanyRow>, ledger: Ledger, c: CompanyRow)
    requires Distinct(RawIds(cs)) && c in cs
    ensures c.id in ApprovedCompanies(cs, ledger) <==> Eligible(c, ledger)
  {
    hide CompanyReview, Eligible, Distinct;
    ReviewIs(c, ledger);
    forall b | b in cs && b.id == c.id ensures b == c { OneCompany(Payload(cs, []), b, c); }
  }

  lemma {:induction false} TitleSignedIs(h: Hash, p: Payload, raw: TitleRow)
    requires Distinct(RawIds(p.companies)) && raw in p.titles && Kept(p.companies, raw)
    ensures FirstSourced(h, p.companies, p.titles, IdentityOf(h, raw)) <==> TitleSigned(h, p, TitleId(h, raw))
  {
    hide Kept, IdentityOf, TitleId, CountsFor, FirstRow, Distinct;
    var id := IdentityOf(h, raw);
    IdentityIs(h, raw);
    CountsForIs(h, p.companies, raw, id);
    var j :| 0 <= j < |p.titles| && p.titles[j] == raw;
    var k := SomeFirst(h, p.companies, p.titles, id, j);
    forall i: nat | FirstFor(h, p.companies, p.titles, id, i) ensures FirstRow(h, p.companies, p.titles, id) == Some(p.titles[i]) {
      FirstRowAt(h, p.companies, p.titles, id, i);
    }
  }

  lemma {:induction false} RelationshipForSays(h: Hash, p: Payload, ledger: Ledger, raw: TitleRow, c: CompanyRow)
    requires Distinct(RawIds(p.companies)) && raw in p.titles && Counts(p.companies, raw, c)
    ensures PairSays(h, p, ledger, raw, c, RelationshipFor(h, p.companies, raw, PairApproved(h, p, ledger, raw)))
    ensures PairId(h, p, raw) == PairKey(h, raw, c)
  {
    hide Kept, IdentityOf, TitleId, Target, Seen, Strip, Counts, Distinct, FirstSourced, TitleSigned, Eligible, ApprovedCompanies;
    CountsIs(h, p.companies, raw, c);
    IdentityIs(h, raw);
    CalledIn(p.companies, raw, c);
    ApprovedIs(p.companies, ledger, c);
    TitleSignedIs(h, p, raw);
  }

  lemma {:induction false} CalledIn(cs: seq<CompanyRow>, raw: TitleRow, c: CompanyRow)
    requires Counts(cs, raw, c)
    ensures c in cs
  {
  }

  ghost predicate PairCounts(h: Hash, p: Payload, id: string, raw: TitleRow, c: CompanyRow) {
    raw in p.titles && Counts(p.companies, raw, c) && PairKey(h, raw, c) == id
  }

  /** After an applied run every relationship a row counts for is stored as one of its
      rows says; the others are as they were. */
  lemma {:induction false} RelationshipsStored(h: Hash, t: Catalogue, p: Payload, ledger: Ledger, titles: Ledger, u: Catalogue, id: string)
    requires Distinct(RawIds(p.companies)) && AppliedRun(h, t, p, ledger, titles, u)
    ensures (exists raw, c :: PairCounts(h, p, id, raw, c)) ==>
              id in u.relationships && exists raw, c :: PairCounts(h, p, id, raw, c) && PairSays(h, p, ledger, raw, c, u.relationships[id])
    ensures (forall raw, c :: !PairCounts(h, p, id, raw, c)) ==>
              (id in u.relationships <==> id in t.relationships) && (id in t.relationships ==> u.relationships[id] == t.relationships[id])
  {
    hide AppliedRun, Distinct, Counts, PairSays, PairKey, PairId, RelationshipFor, PairApproved, Kept, KeptRows, PairLasts;
    assert CleanRun(h, t, p, ledger, titles, u);
    KeptRowsAre(p.companies, p.titles);
    PairAfter(h, t, p, ledger, titles, u);
    if Mentions(h, p, id) {
      var k := SomePairLasts(h, t, p, ledger, titles, id);
      LastingPair(h, t, p, ledger, titles, u, k);
      var x := KeptRows(p.companies, p.titles)[k];
      assert x in KeptRows(p.companies, p.titles);
      var c := SomeCounts(p.companies, x);
      RelationshipForSays(h, p, ledger, x, c);
      assert PairCounts(h, p, id, x, c);
    }
    forall raw, c | PairCounts(h, p, id, raw, c) ensures Mentions(h, p, id) {
      CountsIs(h, p.companies, raw, c);
      RelationshipForSays(h, p, ledger, raw, c);
    }
  }

  // ---- the report ----------------------------------------------------------------------------------

  /** How many companies may be approved. */
  ghost function CountEligible(cs: seq<CompanyRow>, ledger: Ledger): nat {
    if cs == [] then 0 else CountEligible(cs[..|cs| - 1], ledger) + if Eligible(cs[|cs| - 1], ledger) then 1 else 0
  }

  /** How many are held back for a reason. */
  ghost function CountHeld(cs: seq<CompanyRow>, ledger: Ledger, reason: Reason): nat {
    if cs == [] then 0 else CountHeld(cs[..|cs| - 1], ledger, reason) + if HeldFor(cs[|cs| - 1], ledger, reason) then 1 else 0
  }

  lemma {:induction false} HeldCounts(cs: seq<CompanyRow>, ledger: Ledger, reason: Reason)
    ensures HeldBackOf(cs, ledger)[reason] == CountHeld(cs, ledger, reason)
  {
    hide CompanyReview, HeldFor;
    if cs != [] {
      HeldCounts(cs[..|cs| - 1], ledger, reason);
      ReviewIs(cs[|cs| - 1], ledger);
    }
  }

  lemma {:induction false} EligibleCounts(cs: seq<CompanyRow>, ledger: Ledger)
    ensures CountApproved(CompanyStates(Companies(cs, ledger))) == CountEligible(cs, ledger)
  {
    hide CompanyReview, Eligible, CompanyFor;
    if cs != [] {
      var n := |cs| - 1;
      EligibleCounts(cs[..n], ledger);
      assert CompanyStates(Companies(cs, ledger)) == CompanyStates(Companies(cs[..n], ledger)) + [CompanyFor(cs[n], ledger).state];
      ApprovedSnoc(CompanyStates(Companies(cs[..n], ledger)), CompanyFor(cs[n], ledger).state);
      StateOfCompany(cs[n], ledger);
      ReviewIs(cs[n], ledger);
    }
  }

  /** The rows that moved, by id. */
  ghost function MovedRows<V>(table: map<string, V>, ids: seq<string>, rows: seq<V>): set<string>
    requires |ids| == |rows|
  {
    set i | 0 <= i < |ids| && ids[i] in table && table[ids[i]] != rows[i] :: ids[i]
  }

  lemma {:induction false} MovedSnoc<V>(table: map<string, V>, ids: seq<string>, rows: seq<V>, id: string, row: V)
    requires |ids| == |rows|
    ensures MovedRows(table, ids + [id], rows + [row]) == MovedRows(table, ids, rows) + if Moved(table, id, row) then {id} else {}
  {
    var ks, rs := ids + [id], rows + [row];
    assert forall i :: 0 <= i < |ids| ==> ks[i] == ids[i] && rs[i] == rows[i];
    forall k | k in MovedRows(table, ids, rows) ensures k in MovedRows(table, ks, rs) {
      var i :| 0 <= i < |ids| && ids[i] in table && table[ids[i]] != rows[i] && k == ids[i];
      assert ks[i] == k;
    }
    if Moved(table, id, row) { assert ks[|ids|] == id && rs[|ids|] == row; }
  }

  lemma {:induction false} MovedCounts<V>(table: map<string, V>, ids: seq<string>, rows: seq<V>)
    requires |ids| == |rows| && Distinct(ids)
    ensures CountMoved(table, ids, rows) == |MovedRows(table, ids, rows)|
  {
    hide Distinct, Moved;
    if rows != [] {
      var n := |rows| - 1;
      assert ids == ids[..n] + [ids[n]] && rows == rows[..n] + [rows[n]];
      DistinctSnoc(ids[..n], ids[n]);
      MovedCounts(table, ids[..n], rows[..n]);
      MovedSnoc(table, ids[..n], rows[..n], ids[n], rows[n]);
      MovedIn(table, ids[..n], rows[..n], ids[n]);
    }
  }

  lemma {:induction false} MovedIn<V>(table: map<string, V>, ids: seq<string>, rows: seq<V>, id: string)
    requires |ids| == |rows|
    ensures id in MovedRows(table, ids, rows) ==> id in ids
  {
  }

  /** The stored rows that are not what they were. */
  ghost function Changed<V>(before: map<string, V>, after: map<string, V>): set<string> {
    set id | id in before && (id !in after || after[id] != before[id])
  }

  /** Of distinct ids, what a sync counts is what it does: as many new rows as it says,
      as many stored rows changed. */
  lemma {:induction false} SyncCounts<V>(table: map<string, V>, ids: seq<string>, rows: seq<V>)
    requires |ids| == |rows| && Distinct(ids)
    ensures SyncAll(table, ids, rows).Some?
    ensures var u := SyncAll(table, ids, rows).value;
            && |u| == |table| + |Missing(table, ids)|
            && CountMoved(table, ids, rows) == |Changed(table, u)|
  {
    hide SyncAll, Missing, CountMoved, Distinct, MovedRows;
    SyncExact(table, ids, rows);
    SyncEffect(table, ids, rows);
    SyncGrows(table, ids, rows);
    MovedCounts(table, ids, rows);
    var u := SyncAll(table, ids, rows).value;
    MovedAre(table, ids, rows, u);
  }

  lemma {:induction false} MovedAre<V>(table: map<string, V>, ids: seq<string>, rows: seq<V>, u: map<string, V>)
    requires |ids| == |rows| && forall id :: id in table ==> id in u
    requires forall i :: 0 <= i < |ids| ==> ids[i] in u && u[ids[i]] == rows[i]
    requires forall id :: id in table && id !in ids ==> u[id] == table[id]
    ensures MovedRows(table, ids, rows) == Changed(table, u)
  {
    forall id | id in Changed(table, u) ensures id in MovedRows(table, ids, rows) {
      var i :| 0 <= i < |ids| && ids[i] == id;
      assert u[ids[i]] == rows[i];
    }
  }

  lemma {:induction false} SyncGrows<V>(table: map<string, V>, ids: seq<string>, rows: seq<V>)
    requires |ids| == |rows| && SyncAll(table, ids, rows).Some?
    ensures |SyncAll(table, ids, rows).value| == |table| + |Missing(table, ids)|
  {
    hide WriteMoved, InsertAll, Missing, NewRows;
    var t := InsertAll(table, Missing(table, ids), NewRows(table, ids, rows)).value;
    InsertAllEffect(table, Missing(table, ids), NewRows(table, ids, rows));
    WrittenKeys(table, t, ids, rows);
    SameSize(t, WriteMoved(table, t, ids, rows));
  }

  lemma {:induction false} WrittenKeys<V>(prior: map<string, V>, current: map<string, V>, ids: seq<string>, rows: seq<V>)
    requires |ids| == |rows|
    ensures WriteMoved(prior, current, ids, rows).Keys == current.Keys
  {
    if rows != [] { WrittenKeys(prior, current, ids[..|ids| - 1], rows[..|rows| - 1]); }
  }

  lemma {:induction false} SameSize<V>(a: map<string, V>, b: map<string, V>)
    requires a.Keys == b.Keys
    ensures |a| == |b|
  {
    assert |a| == |a.Keys| && |b| == |b.Keys|;
  }

  /** The parts of an applied run: three syncs and the report over what was there. */
  lemma {:induction false} RunParts(h: Hash, t: Catalogue, p: Payload, ledger: Ledger, titles: Ledger, u: Catalogue)
    requires AppliedRun(h, t, p, ledger, titles, u)
    ensures var d := Build(h, p, ledger, titles);
            && SyncAll(t.companies, CompanyIds(d.companies), d.companies) == Some(u.companies)
            && SyncAll(t.comparables, ComparableIds(d.comparables), d.comparables) == Some(u.comparables)
            && SyncAll(t.relationships, RelationshipIds(d.relationships), d.relationships) == Some(u.relationships)
            && CommercialRun(h, t, p, ledger, titles, true).outcome.report == ReportOf(t, p, ledger, d, true)
  {
    hide Build, SyncAll, PairsClash, ReportOf;
  }

  lemma {:induction false} CompaniesCounted(h: Hash, t: Catalogue, p: Payload, ledger: Ledger, titles: Ledger, u: Catalogue)
    requires Distinct(RawIds(p.companies)) && AppliedRun(h, t, p, ledger, titles, u)
    ensures var report := CommercialRun(h, t, p, ledger, titles, true).outcome.report;
            && |u.companies| == |t.companies| + report.inserted.companies
            && report.updated.companies == |Changed(t.companies, u.companies)|
  {
    hide AppliedRun, CommercialRun, Build, SyncAll, Distinct, CountApproved, Missing, CountMoved, HeldBackOf, Withdrawn;
    RunParts(h, t, p, ledger, titles, u);
    var rows := Build(h, p, ledger, titles).companies;
    assert CompanyIds(rows) == RawIds(p.companies) by { BuiltIds(h, p, ledger, titles); }
    SyncCounts(t.companies, CompanyIds(rows), rows);
  }

  lemma {:induction false} BuiltIds(h: Hash, p: Payload, ledger: Ledger, titles: Ledger)
    ensures CompanyIds(Build(h, p, ledger, titles).companies) == RawIds(p.companies)
    ensures Distinct(ComparableIds(Build(h, p, ledger, titles).comparables))
  {
    hide TitlesFrom, CompanyFor, Distinct;
    CompanyIdsAre(p.companies, ledger);
    OrderIsIds(h, p, ledger, titles);
  }

  lemma {:induction false} TitlesCounted(h: Hash, t: Catalogue, p: Payload, ledger: Ledger, titles: Ledger, u: Catalogue)
    requires AppliedRun(h, t, p, ledger, titles, u)
    ensures var report := CommercialRun(h, t, p, ledger, titles, true).outcome.report;
            && |u.comparables| == |t.comparables| + report.inserted.comparables
            && |u.relationships| == |t.relationships| + report.inserted.relationships
            && report.updated.comparables == |Changed(t.comparables, u.comparables)|
  {
    hide AppliedRun, CommercialRun, Build, SyncAll, Distinct, CountApproved, Missing, CountMoved, HeldBackOf, Withdrawn;
    RunParts(h, t, p, ledger, titles, u);
    var d := Build(h, p, ledger, titles);
    BuiltIds(h, p, ledger, titles);
    SyncCounts(t.comparables, ComparableIds(d.comparables), d.comparables);
    SyncGrows(t.relationships, RelationshipIds(d.relationships), d.relationships);
  }

  /** The report of a run that goes through saw every row, approved the companies that
      may be, and tallied each of the others under the first test it failed. */
  lemma {:induction false} CommercialReport(h: Hash, t: Catalogue, p: Payload, ledger: Ledger, titles: Ledger, u: Catalogue, reason: Reason)
    requires AppliedRun(h, t, p, ledger, titles, u)
    ensures var report := CommercialRun(h, t, p, ledger, titles, true).outcome.report;
            && report.applied && report.seen.companies == |p.companies| && report.seen.relationships == |p.titles|
            && report.approved.companies == CountEligible(p.companies, ledger)
            && report.heldBack[reason] == CountHeld(p.companies, ledger, reason)
  {
    hide AppliedRun, CommercialRun, TitlesFrom, SyncAll, CompanyFor, CountApproved, Missing, CountMoved, HeldBackOf, Withdrawn,
         CountEligible, CountHeld;
    RunParts(h, t, p, ledger, titles, u);
    EligibleCounts(p.companies, ledger);
    HeldCounts(p.companies, ledger, reason);
  }

  /** It counts as inserted what the tables gained, and as updated the stored companies
      and comparables whose row changed. */
  lemma {:induction false} CountsAreEffects(h: Hash, t: Catalogue, p: Payload, ledger: Ledger, titles: Ledger, u: Catalogue)
    requires Distinct(RawIds(p.companies)) && AppliedRun(h, t, p, ledger, titles, u)
    ensures var report := CommercialRun(h, t, p, ledger, titles, true).outcome.report;
            && |u.companies| == |t.companies| + report.inserted.companies
            && |u.comparables| == |t.comparables| + report.inserted.comparables
            && |u.relationships| == |t.relationships| + report.inserted.relationships
            && report.updated.companies == |Changed(t.companies, u.companies)|
            && report.updated.comparables == |Changed(t.comparables, u.comparables)|
  {
    hide AppliedRun, CommercialRun;
    RunIsDone(h, t, p, ledger, titles, u);
    CompaniesCounted(h, t, p, ledger, titles, u);
    TitlesCounted(h, t, p, ledger, titles, u);
  }

  lemma {:induction false} RunIsDone(h: Hash, t: Catalogue, p: Payload, ledger: Ledger, titles: Ledger, u: Catalogue)
    requires AppliedRun(h, t, p, ledger, titles, u)
    ensures CommercialRun(h, t, p, ledger, titles, true).outcome.Done?
  {
    hide CommercialRun;
  }

  // ---- titles and relationships in the report ---------------------------------------------------------

  /** The titles some row counts for. */
  ghost function SeenTitles(h: Hash, p: Payload): set<string> {
    set raw | raw in p.titles && (exists c :: Counts(p.companies, raw, c)) :: TitleId(h, raw)
  }

  ghost function SignedTitles(h: Hash, p: Payload): set<string> { set id | id in SeenTitles(h, p) && TitleSigned(h, p, id) }

  /** The row gets its relationship approved. */
  ghost predicate PairPasses(h: Hash, p: Payload, ledger: Ledger, raw: TitleRow) {
    Signed(raw) && TitleSigned(h, p, TitleId(h, raw)) && exists c :: Counts(p.companies, raw, c) && Eligible(c, ledger)
  }

  ghost function CountPasses(h: Hash, p: Payload, ledger: Ledger, raws: seq<TitleRow>): nat {
    if raws == [] then 0
    else CountPasses(h, p, ledger, raws[..|raws| - 1]) + if PairPasses(h, p, ledger, raws[|raws| - 1]) then 1 else 0
  }

  ghost function ApprovedIn(rows: seq<Comparable>): set<string> { set x | x in rows && x.state == Approved :: x.id }

  lemma {:induction false} ApprovedCounts(rows: seq<Comparable>)
    requires Distinct(ComparableIds(rows))
    ensures CountApproved(ComparableStates(rows)) == |ApprovedIn(rows)|
  {
    hide Distinct;
    if rows != [] {
      var n := |rows| - 1;
      var front, x := rows[..n], rows[n];
      assert rows == front + [x] && ComparableIds(rows) == ComparableIds(front) + [x.id];
      DistinctSnoc(ComparableIds(front), x.id);
      ApprovedCounts(front);
      assert ComparableStates(rows) == ComparableStates(front) + [x.state];
      ApprovedSnoc(ComparableStates(front), x.state);
      ApprovedGrows(front, x);
    }
  }

  lemma {:induction false} ApprovedGrows(rows: seq<Comparable>, x: Comparable)
    requires x.id !in ComparableIds(rows)
    ensures ApprovedIn(rows + [x]) == ApprovedIn(rows) + (if x.state == Approved then {x.id} else {}) && x.id !in ApprovedIn(rows)
  {
    forall y | y in rows ensures y.id in ComparableIds(rows) {
      var i :| 0 <= i < |rows| && rows[i] == y;
      assert ComparableIds(rows)[i] == y.id;
    }
    assert forall y :: y in rows + [x] <==> y in rows || y == x;
  }

  lemma {:induction false} SeenTitleIs(h: Hash, p: Payload, id: string)
    requires Distinct(RawIds(p.companies))
    ensures id in SeenTitles(h, p) <==> FirstRow(h, p.companies, p.titles, id).Some?
  {
    hide Distinct, Counts, Kept, IdentityOf, TitleId, FirstRow;
    FirstRowIs(h, p.companies, p.titles, id);
    forall raw ensures Kept(p.companies, raw) <==> exists c :: Counts(p.companies, raw, c) {
      if Kept(p.companies, raw) { var c := SomeCounts(p.companies, raw); }
      if c :| Counts(p.companies, raw, c) { CountsIs(h, p.companies, raw, c); }
    }
    forall raw ensures IdentityOf(h, raw) == TitleId(h, raw) { IdentityIs(h, raw); }
  }

  lemma {:induction false} BuiltTitles(h: Hash, p: Payload, ledger: Ledger, titles: Ledger)
    requires Distinct(RawIds(p.companies))
    ensures var rows := Build(h, p, ledger, titles).comparables;
            && Distinct(ComparableIds(rows)) && (forall id :: id in ComparableIds(rows) <==> id in SeenTitles(h, p))
            && ApprovedIn(rows) == SignedTitles(h, p)
  {
    hide TitlesFrom, Distinct, FirstRow, SeenTitles, TitleSigned, ComparableFor, Sourced, IdentityOf, Kept;
    var approved := ApprovedCompanies(p.companies, ledger);
    var t, rows := TitlesFrom(h, p.companies, approved, titles, p.titles), Build(h, p, ledger, titles).comparables;
    TwoPasses(h, p.companies, approved, titles, p.titles);
    OrderIsIds(h, p, ledger, titles);
    forall id ensures id in SeenTitles(h, p) <==> id in t.order { SeenTitleIs(h, p, id); }
    forall id | id in t.order
      ensures t.comparables[id].id == id && t.comparables[id] in rows && (t.comparables[id].state == Approved <==> TitleSigned(h, p, id))
    {
      var x := FirstRow(h, p.companies, p.titles, id).value;
      FirstRowIs(h, p.companies, p.titles, id);
      StateOfComparable(h, p.companies, titles, x);
      TitleSignedIs(h, p, x);
      IdentityIs(h, x);
      var i :| 0 <= i < |t.order| && t.order[i] == id;
      assert rows[i] == t.comparables[id];
    }
    forall x | x in rows ensures x.id in t.order && x == t.comparables[x.id] {
      var i :| 0 <= i < |rows| && rows[i] == x;
      assert t.order[i] in t.order;
    }
    assert ApprovedIn(rows) == SignedTitles(h, p);
  }

  lemma {:induction false} PassesIs(h: Hash, p: Payload, ledger: Ledger, raw: TitleRow)
    requires Distinct(RawIds(p.companies)) && raw in p.titles
    ensures PairPasses(h, p, ledger, raw) <==> Kept(p.companies, raw) && PairApproved(h, p, ledger, raw)
  {
    hide Distinct, Counts, Kept, IdentityOf, TitleId, FirstSourced, TitleSigned, Eligible, ApprovedCompanies, Target;
    forall c | Counts(p.companies, raw, c)
      ensures Kept(p.companies, raw) && Target(p.companies, raw) == c.id && (c.id in ApprovedCompanies(p.companies, ledger) <==> Eligible(c, ledger))
    {
      CountsIs(h, p.companies, raw, c);
      CalledIn(p.companies, raw, c);
      ApprovedIs(p.companies, ledger, c);
    }
    if Kept(p.companies, raw) {
      var c := SomeCounts(p.companies, raw);
      TitleSignedIs(h, p, raw);
    }
  }

  /** The approvals of the kept rows, in order. */
  ghost function Verdicts(h: Hash, p: Payload, ledger: Ledger, rows: seq<TitleRow>): (r: seq<ReviewState>)
    ensures |r| == |rows|
    ensures forall i :: 0 <= i < |rows| ==> r[i] == if PairApproved(h, p, ledger, rows[i]) then Approved else Pending
  { seq(|rows|, i requires 0 <= i < |rows| => if PairApproved(h, p, ledger, rows[i]) then Approved else Pending) }

  lemma {:induction false} PassesCount(h: Hash, p: Payload, ledger: Ledger, raws: seq<TitleRow>)
    requires Distinct(RawIds(p.companies)) && forall x :: x in raws ==> x in p.titles
    ensures CountApproved(Verdicts(h, p, ledger, KeptRows(p.companies, raws))) == CountPasses(h, p, ledger, raws)
  {
    hide Distinct, Kept, PairApproved, PairPasses;
    if raws != [] {
      var n := |raws| - 1;
      var front, x := raws[..n], raws[n];
      assert raws == front + [x] && x in raws;
      PassesCount(h, p, ledger, front);
      PassesIs(h, p, ledger, x);
      var kept := KeptRows(p.companies, front);
      if Kept(p.companies, x) {
        var state := if PairApproved(h, p, ledger, x) then Approved else Pending;
        assert Verdicts(h, p, ledger, kept + [x]) == Verdicts(h, p, ledger, kept) + [state];
        ApprovedSnoc(Verdicts(h, p, ledger, kept), state);
      } else {
        assert KeptRows(p.companies, raws) == kept;
      }
    }
  }

  lemma {:induction false} BuiltPairs(h: Hash, p: Payload, ledger: Ledger, titles: Ledger)
    requires Distinct(RawIds(p.companies))
    ensures CountApproved(RelationshipStates(Build(h, p, ledger, titles).relationships)) == CountPasses(h, p, ledger, p.titles)
  {
    hide Distinct, Kept, PairApproved, PairPasses, Build, KeptRows, IdentityOf, Target, Seen, RelationshipId;
    DerivedPairs(h, p, ledger, titles);
    PassesCount(h, p, ledger, p.titles);
    var rows, kept := Build(h, p, ledger, titles).relationships, KeptRows(p.companies, p.titles);
    assert RelationshipStates(rows) == Verdicts(h, p, ledger, kept);
  }

  /** The report of titles: each counted once, approved when its first row is signed
      off; and of relationships, approved row by row. */
  lemma {:induction false} TitleReport(h: Hash, t: Catalogue, p: Payload, ledger: Ledger, titles: Ledger, u: Catalogue)
    requires Distinct(RawIds(p.companies)) && AppliedRun(h, t, p, ledger, titles, u)
    ensures var report := CommercialRun(h, t, p, ledger, titles, true).outcome.report;
            && report.seen.comparables == |SeenTitles(h, p)| && report.approved.comparables == |SignedTitles(h, p)|
            && report.approved.relationships == CountPasses(h, p, ledger, p.titles)
            && (Distinct(RelationshipIds(Build(h, p, ledger, titles).relationships)) ==>
                  report.updated.relationships == |Changed(t.relationships, u.relationships)|)
  {
    hide AppliedRun, CommercialRun, Build, SyncAll, Distinct, CountApproved, Missing, CountMoved, HeldBackOf, Withdrawn, SeenTitles, SignedTitles,
         CountPasses;
    RunParts(h, t, p, ledger, titles, u);
    BuiltTitles(h, p, ledger, titles);
    BuiltPairs(h, p, ledger, titles);
    var d := Build(h, p, ledger, titles);
    ApprovedCounts(d.comparables);
    DistinctCount(ComparableIds(d.comparables), SeenTitles(h, p));
    if Distinct(RelationshipIds(d.relationships)) { SyncCounts(t.relationships, RelationshipIds(d.relationships), d.relationships); }
  }

  /** A preflight writes nothing and reports what applying would; a refused run writes
      nothing either. */
  lemma {:induction false} CommercialPreflight(h: Hash, t: Catalogue, p: Payload, ledger: Ledger, titles: Ledger)
    ensures var preview, run := CommercialRun(h, t, p, ledger, titles, false), CommercialRun(h, t, p, ledger, titles, true);
            && preview.tables == t && preview.outcome.Done? && !preview.outcome.report.applied
            && (run.outcome.Done? ==> preview.outcome.report.(applied := true) == run.outcome.report)
            && (run.outcome.DuplicateKey? ==> run.tables == t)
  {
    hide Build, WriteAll, Missing, CountMoved, CountApproved, HeldBackOf, Withdrawn;
  }

  /** A new relationship whose ends and type another stored one has refuses the run. */
  lemma {:induction false} TakenPairRefused(h: Hash, t: Catalogue, p: Payload, ledger: Ledger, titles: Ledger, raw: TitleRow, c: CompanyRow, k: string)
    requires Distinct(RawIds(p.companies)) && raw in p.titles && Counts(p.companies, raw, c) && PairKey(h, raw, c) !in t.relationships
    requires k in t.relationships && t.relationships[k].comparableId == TitleId(h, raw) && t.relationships[k].targetKind == "COMPANY"
             && t.relationships[k].targetId == c.id && t.relationships[k].relationshipType == raw.relationshipType
    ensures CommercialRun(h, t, p, ledger, titles, true).outcome == DuplicateKey
  {
    hide Build, SyncAll, ReportOf, Distinct, Counts, PairKey, TitleId, KeptRows, Kept, PairApproved, PairsClash;
    CountsIs(h, p.companies, raw, c);
    KeptRowsAre(p.companies, p.titles);
    DerivedPairs(h, p, ledger, titles);
    var rows, kept := Build(h, p, ledger, titles).relationships, KeptRows(p.companies, p.titles);
    var i :| 0 <= i < |kept| && kept[i] == raw;
    RelationshipForSays(h, p, ledger, raw, c);
    assert PairSays(h, p, ledger, raw, c, rows[i]);
    TakenPairClashes(t.relationships, rows, rows[i], k);
  }

  lemma {:induction false} TakenPairClashes(table: map<string, Relationship>, rows: seq<Relationship>, r: Relationship, k: string)
    requires r in rows && r.id !in table && k in table && table[k].comparableId == r.comparableId && table[k].targetKind == r.targetKind
    requires table[k].targetId == r.targetId && table[k].relationshipType == r.relationshipType
    ensures PairsClash(table, rows)
  {
    hide InsertAll, Missing, NewRows, UpdatesClash, Offered;
    var ids := RelationshipIds(rows);
    var ms, rs := Missing(table, ids), NewRows(table, ids, rows);
    if InsertAll(table, ms, rs).Some? {
      var u := InsertAll(table, ms, rs).value;
      InsertAllEffect(table, ms, rs);
      NewRowListed(table, ids, rows, r);
      assert u[k] == table[k];
      assert PairTaken(u, r);
    }
  }

  lemma {:induction false} NewRowListed(table: map<string, Relationship>, ids: seq<string>, rows: seq<Relationship>, r: Relationship)
    requires |ids| == |rows| && r in rows && r.id !in table && forall i :: 0 <= i < |ids| ==> ids[i] == rows[i].id
    ensures r in NewRows(table, ids, rows)
  {
    var n := |rows| - 1;
    assert rows == rows[..n] + [rows[n]];
    if r in rows[..n] { NewRowListed(table, ids[..n], rows[..n], r); }
  }
}
