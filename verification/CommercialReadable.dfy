/** When the reader accepts what an applied run of the importer leaves: a condition
    on the payload, the two ledgers, the day and the rows stored before. */
module CommercialReadable {
  import opened Base
  import opened Text
  import opened Dates
  import opened Identity
  import opened Sync
  import opened Commercial
  import opened CommercialApproval
  import opened CommercialSafety
  import opened CommercialReader
  import opened CommercialEvidence

  // ---- titles --------------------------------------------------------------------------

  lemma {:induction false} TitleFields()
    ensures forall f :: f == "genres" || f == "production_countries" || f == "primary_languages" ==> f in COMPARABLE_CLAIMS && f in LIST_CLAIMS
    ensures "format" in COMPARABLE_CLAIMS
    ensures "format" != "genres" && "format" != "production_countries" && "format" != "primary_languages"
    ensures "genres" != "production_countries" && "genres" != "primary_languages" && "production_countries" != "primary_languages"
  {
    assert "format"[0] != "genres"[0];
  }

  lemma {:induction false} FormatValue(value: Value)
    requires value.Word?
    ensures ValidValue("format", value) <==> !Blank(value.text)
  {
    hide Blank;
    assert forall f :: f in LIST_CLAIMS ==> |f| != 6 || f[0] != 'f';
    assert "format" in TEXT_CLAIMS;
  }

  /** The recorded format, where there is one, as a set of one or no item. */
  function RecordedText(titles: Ledger, subject: string, field: string): set<string> {
    if (subject, field) in titles && Strip(titles[(subject, field)].value) != "" then {Lower(Strip(titles[(subject, field)].value))} else {}
  }

  /** A title's row and the ledger claims about it have usable sources. */
  ghost predicate TitleEvidence(secure: Secure, today: Date, cs: seq<CompanyRow>, titles: Ledger, id: string, raw: TitleRow) {
    && id != "" && Usable(secure, raw.sourceUrl, Seen(cs, raw), today)
    && RecordedUsable(secure, today, titles, id, "format", RecordedText(titles, id, "format"))
    && RecordedUsable(secure, today, titles, id, "genres", RecordedItems(titles, id, "genres"))
    && RecordedUsable(secure, today, titles, id, "production_countries", RecordedItems(titles, id, "production_countries"))
    && RecordedUsable(secure, today, titles, id, "primary_languages", RecordedItems(titles, id, "primary_languages"))
  }

  lemma {:induction false} AddTitleList(secure: Secure, today: Date, claims: map<string, Claim>, titles: Ledger, subject: string, field: string)
    returns (more: map<string, Claim>)
    requires field !in claims && field in COMPARABLE_CLAIMS && field in LIST_CLAIMS
    ensures more == TitleClaim(claims, titles, subject, field, true)
    ensures AllGood(secure, today, COMPARABLE_CLAIMS, more) <==>
            AllGood(secure, today, COMPARABLE_CLAIMS, claims) && RecordedUsable(secure, today, titles, subject, field, RecordedItems(titles, subject, field))
    ensures more.Keys <= claims.Keys + {field} && claims.Keys <= more.Keys
  {
    hide Usable, NoBlanks, ListFrom, WithClaim, AllGood;
    more := TitleClaim(claims, titles, subject, field, true);
    if (subject, field) in titles {
      var r := titles[(subject, field)];
      AddList(secure, today, COMPARABLE_CLAIMS, claims, field, ListFrom(r.value), r.sourceUrl, r.verifiedOn);
      ListedNotBlank(r.value);
    }
  }

  lemma {:induction false} FormatGood(secure: Secure, today: Date, titles: Ledger, subject: string) returns (claims: map<string, Claim>)
    ensures claims == TitleClaim(map[], titles, subject, "format", false) && claims.Keys <= {"format"}
    ensures AllGood(secure, today, COMPARABLE_CLAIMS, claims) <==>
            RecordedUsable(secure, today, titles, subject, "format", RecordedText(titles, subject, "format"))
  {
    hide Usable, Strip, ValidValue, Lower;
    TitleFields();
    claims := TitleClaim(map[], titles, subject, "format", false);
    if (subject, "format") in titles && Strip(titles[(subject, "format")].value) != "" {
      var r := titles[(subject, "format")];
      LoweredNotBlank(r.value);
      FormatValue(Word(Lower(Strip(r.value))));
      assert claims == map["format" := Claim(Word(Lower(Strip(r.value))), r.sourceUrl, r.verifiedOn)];
      if AllGood(secure, today, COMPARABLE_CLAIMS, claims) { assert GoodClaim(secure, today, COMPARABLE_CLAIMS, "format", claims["format"]); }
    }
  }

  lemma {:induction false} LoweredNotBlank(s: string)
    requires Strip(s) != ""
    ensures !Blank(Lower(Strip(s)))
  {
  }

  lemma {:induction false} TitleClaimsGood(secure: Secure, today: Date, titles: Ledger, id: string)
    ensures GoodClaims(secure, today, TitleClaims(titles, id), COMPARABLE_CLAIMS) <==>
            && RecordedUsable(secure, today, titles, id, "format", RecordedText(titles, id, "format"))
            && RecordedUsable(secure, today, titles, id, "genres", RecordedItems(titles, id, "genres"))
            && RecordedUsable(secure, today, titles, id, "production_countries", RecordedItems(titles, id, "production_countries"))
            && RecordedUsable(secure, today, titles, id, "primary_languages", RecordedItems(titles, id, "primary_languages"))
  {
    hide AllGood, GoodClaims, RecordedUsable, TitleClaim, RecordedItems, RecordedText;
    TitleFields();
    var a := FormatGood(secure, today, titles, id);
    var b := AddTitleList(secure, today, a, titles, id, "genres");
    var c := AddTitleList(secure, today, b, titles, id, "production_countries");
    var d := AddTitleList(secure, today, c, titles, id, "primary_languages");
    AllGoodIsGood(secure, today, COMPARABLE_CLAIMS, d);
  }

  /** An approved comparable row is readable exactly when its own evidence is. */
  lemma {:induction false} ApprovedTitleReadable(h: Hash, secure: Secure, today: Date, cs: seq<CompanyRow>, titles: Ledger, raw: TitleRow)
    requires Kept(cs, raw) && Sourced(raw)
    ensures GoodComparable(secure, today, ComparableFor(h, cs, titles, raw)) <==>
            TitleEvidence(secure, today, cs, titles, IdentityOf(h, raw), raw)
  {
    hide TitleClaims, GoodClaims, RecordedUsable, IdentityOf, Strip, Target, Seen, Sourced;
    TitleClaimsGood(secure, today, titles, IdentityOf(h, raw));
  }

  // ---- relationships ----------------------------------------------------------------------

  ghost predicate PairEvidence(secure: Secure, today: Date, cs: seq<CompanyRow>, raw: TitleRow) {
    raw.relationshipType != "" && Usable(secure, raw.sourceUrl, Seen(cs, raw), today)
  }

  /** A derived relationship row is readable exactly when it names its type and its
      source is usable. */
  lemma {:induction false} PairReadable(h: Hash, secure: Secure, today: Date, cs: seq<CompanyRow>, raw: TitleRow, approved: bool)
    requires Kept(cs, raw)
    ensures GoodRelationship(secure, today, RelationshipFor(h, cs, raw, approved)) <==> PairEvidence(secure, today, cs, raw)
  {
    hide IdentityOf, Target, Seen, RelationshipId, Strip;
    assert COMPANY in KINDS;
  }

  // ---- the whole run --------------------------------------------------------------------------

  predicate PairApproved(h: Hash, p: Payload, ledger: Ledger, x: TitleRow) {
    BothApproved(h, p.companies, ApprovedCompanies(p.companies, ledger), p.titles, x)
  }

  /** Kept row `k` is the one its relationship ends up with: where an id is repeated,
      the last row of it that differs from what was stored. */
  ghost predicate PairLasts(h: Hash, t: Catalogue, p: Payload, ledger: Ledger, titles: Ledger, k: nat) {
    var rows := Build(h, p, ledger, titles).relationships;
    k < |rows| && Lasting(t.relationships, RelationshipIds(rows), rows, k)
  }

  ghost predicate PairStands(h: Hash, secure: Secure, today: Date, t: Catalogue, p: Payload, ledger: Ledger, titles: Ledger, k: nat) {
    var kept := KeptRows(p.companies, p.titles);
    k < |kept| && PairLasts(h, t, p, ledger, titles, k) && PairApproved(h, p, ledger, kept[k]) ==> PairEvidence(secure, today, p.companies, kept[k])
  }

  /** Everything the payload gets approved has usable evidence. */
  ghost predicate PayloadStands(h: Hash, secure: Secure, today: Date, t: Catalogue, p: Payload, ledger: Ledger, titles: Ledger) {
    && (forall c :: c in p.companies && CompanyReview(c, ledger).Passed? ==> CompanyEvidence(secure, today, c, ledger))
    && (forall id :: FirstSourced(h, p.companies, p.titles, id) ==>
          TitleEvidence(secure, today, p.companies, titles, id, FirstRow(h, p.companies, p.titles, id).value))
    && (forall k :: PairStands(h, secure, today, t, p, ledger, titles, k))
  }

  function PairId(h: Hash, p: Payload, x: TitleRow): string {
    RelationshipId(h, IdentityOf(h, x), COMPANY, Target(p.companies, x), x.relationshipType)
  }

  /** The payload has a relationship of this id. */
  ghost predicate Mentions(h: Hash, p: Payload, id: string) {
    exists x :: x in KeptRows(p.companies, p.titles) && id == PairId(h, p, x)
  }

  /** The ends of a stored relationship will be approved. */
  ghost predicate EndsWillBe(h: Hash, t: Catalogue, p: Payload, ledger: Ledger, r: Relationship) {
    && (if FirstRow(h, p.companies, p.titles, r.comparableId).Some? then FirstSourced(h, p.companies, p.titles, r.comparableId)
        else ComparableIsApproved(t, r.comparableId))
    && (r.targetKind == COMPANY ==>
          if r.targetId in RawIds(p.companies) then r.targetId in ApprovedCompanies(p.companies, ledger) else CompanyApproved(t, r.targetId))
  }

  /** The stored rows the payload says nothing about stand on their own. */
  ghost predicate RestStands(h: Hash, secure: Secure, today: Date, t: Catalogue, p: Payload, ledger: Ledger) {
    && (forall id :: CompanyApproved(t, id) && id !in RawIds(p.companies) ==> GoodCompany(secure, today, t.companies[id]))
    && (forall id :: ComparableIsApproved(t, id) && FirstRow(h, p.companies, p.titles, id).None? ==> GoodComparable(secure, today, t.comparables[id]))
    && (forall id :: id in t.relationships && t.relationships[id].state == Approved && !Mentions(h, p, id) ==>
          GoodRelationship(secure, today, t.relationships[id]) && EndsWillBe(h, t, p, ledger, t.relationships[id]))
  }

  // ---- the tables after the run, table by table ---------------------------------------------------

  /** An applied run of a payload whose company ids are distinct. */
  ghost predicate CleanRun(h: Hash, t: Catalogue, p: Payload, ledger: Ledger, titles: Ledger, u: Catalogue) {
    && Distinct(RawIds(p.companies)) && AppliedRun(h, t, p, ledger, titles, u)
  }

  lemma {:induction false} CompanyAfter(h: Hash, t: Catalogue, p: Payload, ledger: Ledger, titles: Ledger, u: Catalogue, id: string)
    requires CleanRun(h, t, p, ledger, titles, u)
    ensures id !in RawIds(p.companies) ==> (id in u.companies <==> id in t.companies) && (id in t.companies ==> u.companies[id] == t.companies[id])
    ensures id in RawIds(p.companies) ==> exists c :: c in p.companies && c.id == id && id in u.companies && u.companies[id] == CompanyFor(c, ledger)
  {
    hide TitlesFrom, AppliedRun, Distinct, CompanyFor, Offered;
    RunStores(h, t, p, ledger, titles, u);
    CompanyIdsAre(p.companies, ledger);
    if id in RawIds(p.companies) {
      var i :| 0 <= i < |p.companies| && p.companies[i].id == id;
      var row := Build(h, p, ledger, titles).companies[i];
      assert row == CompanyFor(p.companies[i], ledger);
      RowId(p.companies[i], ledger);
      assert p.companies[i] in p.companies;
    }
  }

  lemma {:induction false} RowId(c: CompanyRow, ledger: Ledger)
    ensures CompanyFor(c, ledger).id == c.id
  {
    hide CompanyReview, CompanyClaims;
  }

  lemma {:induction false} OneCompany(p: Payload, a: CompanyRow, b: CompanyRow)
    requires Distinct(RawIds(p.companies)) && a in p.companies && b in p.companies && a.id == b.id
    ensures a == b
  {
    var i :| 0 <= i < |p.companies| && p.companies[i] == a;
    var j :| 0 <= j < |p.companies| && p.companies[j] == b;
    assert RawIds(p.companies)[i] == RawIds(p.companies)[j];
    assert i == j;
  }

  lemma {:induction false} RawIdIn(cs: seq<CompanyRow>, c: CompanyRow)
    requires c in cs
    ensures c.id in RawIds(cs)
  {
    var i :| 0 <= i < |cs| && cs[i] == c;
    assert RawIds(cs)[i] == c.id;
  }

  lemma {:induction false} CompanyApprovedAfter(h: Hash, t: Catalogue, p: Payload, ledger: Ledger, titles: Ledger, u: Catalogue, id: string)
    requires CleanRun(h, t, p, ledger, titles, u)
    ensures CompanyApproved(u, id) <==>
            if id in RawIds(p.companies) then id in ApprovedCompanies(p.companies, ledger) else CompanyApproved(t, id)
  {
    hide CleanRun, CompanyFor, CompanyReview;
    CompanyAfter(h, t, p, ledger, titles, u, id);
    if id in RawIds(p.companies) {
      var c :| c in p.companies && c.id == id && u.companies[id] == CompanyFor(c, ledger);
      StateOfCompany(c, ledger);
      assert Distinct(RawIds(p.companies)) by { CleanIds(h, t, p, ledger, titles, u); }
      forall b | b in p.companies && b.id == id ensures b == c { OneCompany(p, b, c); }
    }
  }

  lemma {:induction false} CleanIds(h: Hash, t: Catalogue, p: Payload, ledger: Ledger, titles: Ledger, u: Catalogue)
    requires CleanRun(h, t, p, ledger, titles, u)
    ensures Distinct(RawIds(p.companies))
  {
    hide Distinct;
  }

  lemma {:induction false} CompaniesStand(h: Hash, secure: Secure, today: Date, t: Catalogue, p: Payload, ledger: Ledger, titles: Ledger, u: Catalogue)
    requires CleanRun(h, t, p, ledger, titles, u)
    ensures (forall id :: id in u.companies && u.companies[id].state == Approved ==> GoodCompany(secure, today, u.companies[id])) <==>
            && (forall c :: c in p.companies && CompanyReview(c, ledger).Passed? ==> CompanyEvidence(secure, today, c, ledger))
            && (forall id :: CompanyApproved(t, id) && id !in RawIds(p.companies) ==> GoodCompany(secure, today, t.companies[id]))
  {
    hide CleanRun, CompanyFor, CompanyReview, GoodCompany, CompanyEvidence;
    forall c | c in p.companies
      ensures c.id in u.companies && u.companies[c.id] == CompanyFor(c, ledger) && c.id in RawIds(p.companies)
      ensures CompanyFor(c, ledger).state == Approved <==> CompanyReview(c, ledger).Passed?
      ensures CompanyReview(c, ledger).Passed? ==> (GoodCompany(secure, today, CompanyFor(c, ledger)) <==> CompanyEvidence(secure, today, c, ledger))
    {
      RawIdIn(p.companies, c);
      CompanyAfter(h, t, p, ledger, titles, u, c.id);
      var b :| b in p.companies && b.id == c.id && u.companies[c.id] == CompanyFor(b, ledger);
      CleanIds(h, t, p, ledger, titles, u);
      OneCompany(p, b, c);
      StateOfCompany(c, ledger);
      if CompanyReview(c, ledger).Passed? { ApprovedCompanyReadable(secure, today, c, ledger); }
    }
    forall id | id in u.companies
      ensures id !in RawIds(p.companies) ==> id in t.companies && u.companies[id] == t.companies[id]
      ensures id in RawIds(p.companies) ==> exists c :: c in p.companies && c.id == id
    {
      CompanyAfter(h, t, p, ledger, titles, u, id);
    }
    forall id | id in t.companies && id !in RawIds(p.companies) ensures id in u.companies { CompanyAfter(h, t, p, ledger, titles, u, id); }
  }

  lemma {:induction false} TitleAfter(h: Hash, t: Catalogue, p: Payload, ledger: Ledger, titles: Ledger, u: Catalogue, id: string)
    requires CleanRun(h, t, p, ledger, titles, u)
    ensures var first := FirstRow(h, p.companies, p.titles, id);
            && (first.None? ==> (id in u.comparables <==> id in t.comparables) && (id in t.comparables ==> u.comparables[id] == t.comparables[id]))
            && (first.Some? ==> id in u.comparables && u.comparables[id] == ComparableFor(h, p.companies, titles, first.value))
  {
    hide AppliedRun, Distinct, CompanyFor, Offered, TitlesFrom, FirstRow, KeptRows, ComparableFor, RelationshipFor, IdentityOf;
    var cs, raws, approved := p.companies, p.titles, ApprovedCompanies(p.companies, ledger);
    RunStores(h, t, p, ledger, titles, u);
    TwoPasses(h, cs, approved, titles, raws);
    OrderIsIds(h, p, ledger, titles);
    var tt, d := TitlesFrom(h, cs, approved, titles, raws), Build(h, p, ledger, titles);
    if FirstRow(h, cs, raws, id).Some? {
      assert id in tt.order;
      var i :| 0 <= i < |tt.order| && tt.order[i] == id;
      assert d.comparables[i] == tt.comparables[id] && ComparableIds(d.comparables)[i] == id;
    } else {
      assert id !in ComparableIds(d.comparables);
    }
  }

  lemma {:induction false} TitleApprovedAfter(h: Hash, t: Catalogue, p: Payload, ledger: Ledger, titles: Ledger, u: Catalogue, id: string)
    requires CleanRun(h, t, p, ledger, titles, u)
    ensures ComparableIsApproved(u, id) <==>
            if FirstRow(h, p.companies, p.titles, id).Some? then FirstSourced(h, p.companies, p.titles, id) else ComparableIsApproved(t, id)
  {
    hide CleanRun, FirstRow, ComparableFor, Sourced;
    TitleAfter(h, t, p, ledger, titles, u, id);
    var first := FirstRow(h, p.companies, p.titles, id);
    if first.Some? { StateOfComparable(h, p.companies, titles, first.value); }
  }

  /** One title: judged by its first row where the payload has one, by what was
      stored before where it has none. */
  ghost predicate TitleStands(h: Hash, secure: Secure, today: Date, t: Catalogue, p: Payload, titles: Ledger, id: string) {
    && (FirstSourced(h, p.companies, p.titles, id) ==>
          TitleEvidence(secure, today, p.companies, titles, id, FirstRow(h, p.companies, p.titles, id).value))
    && (ComparableIsApproved(t, id) && FirstRow(h, p.companies, p.titles, id).None? ==> GoodComparable(secure, today, t.comparables[id]))
  }

  lemma {:induction false} TitleStandsAfter(h: Hash, secure: Secure, today: Date, t: Catalogue, p: Payload, ledger: Ledger, titles: Ledger,
                                            u: Catalogue, id: string)
    requires CleanRun(h, t, p, ledger, titles, u)
    ensures (ComparableIsApproved(u, id) ==> GoodComparable(secure, today, u.comparables[id])) <==> TitleStands(h, secure, today, t, p, titles, id)
  {
    hide CleanRun, FirstRow, ComparableFor, Sourced, GoodComparable, TitleEvidence, Kept, IdentityOf;
    TitleAfter(h, t, p, ledger, titles, u, id);
    var first := FirstRow(h, p.companies, p.titles, id);
    if first.Some? {
      FirstRowIs(h, p.companies, p.titles, id);
      StateOfComparable(h, p.companies, titles, first.value);
      if Sourced(first.value) { ApprovedTitleReadable(h, secure, today, p.companies, titles, first.value); }
    }
  }

  lemma {:induction false} TitlesStand(h: Hash, secure: Secure, today: Date, t: Catalogue, p: Payload, ledger: Ledger, titles: Ledger, u: Catalogue)
    requires CleanRun(h, t, p, ledger, titles, u)
    ensures (forall id :: ComparableIsApproved(u, id) ==> GoodComparable(secure, today, u.comparables[id])) <==>
            forall id :: TitleStands(h, secure, today, t, p, titles, id)
  {
    hide CleanRun, GoodComparable, TitleStands;
    forall id
      ensures (ComparableIsApproved(u, id) ==> GoodComparable(secure, today, u.comparables[id])) <==> TitleStands(h, secure, today, t, p, titles, id)
    {
      TitleStandsAfter(h, secure, today, t, p, ledger, titles, u, id);
    }
  }

  /** The derived relationships, kept row by kept row. */
  lemma {:induction false} DerivedPairs(h: Hash, p: Payload, ledger: Ledger, titles: Ledger)
    ensures var rows, kept := Build(h, p, ledger, titles).relationships, KeptRows(p.companies, p.titles);
            && |rows| == |kept|
            && (forall k :: 0 <= k < |kept| ==> rows[k] == RelationshipFor(h, p.companies, kept[k], PairApproved(h, p, ledger, kept[k])))
            && (forall k :: 0 <= k < |kept| ==> RelationshipIds(rows)[k] == PairId(h, p, kept[k]))
  {
    hide TitlesFrom, FirstRow, KeptRows, ComparableFor, IdentityOf, Target, RelationshipId, BothApproved;
    TwoPasses(h, p.companies, ApprovedCompanies(p.companies, ledger), titles, p.titles);
  }

  lemma {:induction false} PairsWritten(h: Hash, t: Catalogue, p: Payload, ledger: Ledger, titles: Ledger, u: Catalogue)
    requires CleanRun(h, t, p, ledger, titles, u)
    ensures var rows := Build(h, p, ledger, titles).relationships;
            SyncAll(t.relationships, RelationshipIds(rows), rows) == Some(u.relationships)
  {
    hide SyncAll, Build, Distinct, PairsClash, ReportOf;
  }

  lemma {:induction false} PairAfter(h: Hash, t: Catalogue, p: Payload, ledger: Ledger, titles: Ledger, u: Catalogue)
    requires CleanRun(h, t, p, ledger, titles, u)
    ensures forall id :: !Mentions(h, p, id) ==> (id in u.relationships <==> id in t.relationships)
                                                 && (id in t.relationships ==> u.relationships[id] == t.relationships[id])
  {
    hide AppliedRun, Distinct, Offered, Build, KeptRows, PairId, PairApproved, RelationshipFor;
    RunStores(h, t, p, ledger, titles, u);
    DerivedPairs(h, p, ledger, titles);
    var ids := RelationshipIds(Build(h, p, ledger, titles).relationships);
    forall id ensures id in ids <==> Mentions(h, p, id) { }
  }

  /** A relationship ends up with its lasting row. */
  lemma {:induction false} LastingPair(h: Hash, t: Catalogue, p: Payload, ledger: Ledger, titles: Ledger, u: Catalogue, k: nat)
    requires CleanRun(h, t, p, ledger, titles, u) && PairLasts(h, t, p, ledger, titles, k)
    ensures var kept := KeptRows(p.companies, p.titles);
            && k < |kept| && PairId(h, p, kept[k]) in u.relationships
            && u.relationships[PairId(h, p, kept[k])] == RelationshipFor(h, p.companies, kept[k], PairApproved(h, p, ledger, kept[k]))
  {
    hide CleanRun, Build, KeptRows, PairId, PairApproved, RelationshipFor, SyncAll, Lasting;
    PairsWritten(h, t, p, ledger, titles, u);
    DerivedPairs(h, p, ledger, titles);
    var rows := Build(h, p, ledger, titles).relationships;
    SyncLasts(t.relationships, RelationshipIds(rows), rows, k);
  }

  lemma {:induction false} SomePairLasts(h: Hash, t: Catalogue, p: Payload, ledger: Ledger, titles: Ledger, id: string) returns (k: nat)
    requires Mentions(h, p, id)
    ensures k < |KeptRows(p.companies, p.titles)| && PairLasts(h, t, p, ledger, titles, k) && PairId(h, p, KeptRows(p.companies, p.titles)[k]) == id
  {
    hide Build, KeptRows, PairId, PairApproved, RelationshipFor, Lasting;
    DerivedPairs(h, p, ledger, titles);
    var rows, kept := Build(h, p, ledger, titles).relationships, KeptRows(p.companies, p.titles);
    var x :| x in kept && id == PairId(h, p, x);
    var i :| 0 <= i < |kept| && kept[i] == x;
    assert RelationshipIds(rows)[i] == id;
    k := SomeLasts(t.relationships, RelationshipIds(rows), rows, id);
  }

  ghost predicate PairGood(secure: Secure, today: Date, u: Catalogue, id: string) {
    id in u.relationships && u.relationships[id].state == Approved ==> GoodRelationship(secure, today, u.relationships[id])
  }

  lemma {:induction false} LastingPairGood(h: Hash, secure: Secure, today: Date, t: Catalogue, p: Payload, ledger: Ledger, titles: Ledger,
                                           u: Catalogue, k: nat)
    requires CleanRun(h, t, p, ledger, titles, u) && PairLasts(h, t, p, ledger, titles, k)
    ensures var kept := KeptRows(p.companies, p.titles);
            && k < |kept| && Mentions(h, p, PairId(h, p, kept[k]))
            && (PairGood(secure, today, u, PairId(h, p, kept[k])) <==> PairStands(h, secure, today, t, p, ledger, titles, k))
  {
    hide CleanRun, GoodRelationship, PairEvidence, PairLasts, KeptRows, BothApproved, RelationshipId, IdentityOf, Target, Seen, Kept;
    LastingPair(h, t, p, ledger, titles, u, k);
    KeptRowsAre(p.companies, p.titles);
    var x := KeptRows(p.companies, p.titles)[k];
    assert x in KeptRows(p.companies, p.titles);
    PairReadable(h, secure, today, p.companies, x, PairApproved(h, p, ledger, x));
  }

  lemma {:induction false} PairsGood(h: Hash, secure: Secure, today: Date, t: Catalogue, p: Payload, ledger: Ledger, titles: Ledger, u: Catalogue)
    requires CleanRun(h, t, p, ledger, titles, u)
    ensures (forall id :: PairGood(secure, today, u, id)) <==>
            && (forall k :: PairStands(h, secure, today, t, p, ledger, titles, k))
            && (forall id :: !Mentions(h, p, id) ==> PairGood(secure, today, t, id))
  {
    hide CleanRun, PairStands, GoodRelationship, KeptRows, PairId, PairLasts, Mentions;
    PairAfter(h, t, p, ledger, titles, u);
    forall id | !Mentions(h, p, id) ensures PairGood(secure, today, u, id) <==> PairGood(secure, today, t, id) { }
    if forall id :: PairGood(secure, today, u, id) {
      forall k: nat ensures PairStands(h, secure, today, t, p, ledger, titles, k) {
        PairStandsOrLasts(h, secure, today, t, p, ledger, titles, k);
        if PairLasts(h, t, p, ledger, titles, k) { LastingPairGood(h, secure, today, t, p, ledger, titles, u, k); }
      }
    }
    if forall k :: PairStands(h, secure, today, t, p, ledger, titles, k) {
      forall id | Mentions(h, p, id) ensures PairGood(secure, today, u, id) {
        var k := SomePairLasts(h, t, p, ledger, titles, id);
        LastingPairGood(h, secure, today, t, p, ledger, titles, u, k);
      }
    }
  }

  lemma {:induction false} PairsStand(h: Hash, secure: Secure, today: Date, t: Catalogue, p: Payload, ledger: Ledger, titles: Ledger, u: Catalogue)
    requires CleanRun(h, t, p, ledger, titles, u)
    ensures (forall id :: id in u.relationships && u.relationships[id].state == Approved ==> GoodRelationship(secure, today, u.relationships[id])) <==>
            && (forall k :: PairStands(h, secure, today, t, p, ledger, titles, k))
            && (forall id :: id in t.relationships && t.relationships[id].state == Approved && !Mentions(h, p, id) ==>
                  GoodRelationship(secure, today, t.relationships[id]))
  {
    hide CleanRun, PairStands, Mentions, GoodRelationship;
    PairsGood(h, secure, today, t, p, ledger, titles, u);
    if forall id :: PairGood(secure, today, u, id) {
      forall id | id in u.relationships && u.relationships[id].state == Approved ensures GoodRelationship(secure, today, u.relationships[id]) {
        assert PairGood(secure, today, u, id);
      }
      forall id | id in t.relationships && t.relationships[id].state == Approved && !Mentions(h, p, id)
        ensures GoodRelationship(secure, today, t.relationships[id])
      {
        assert PairGood(secure, today, t, id);
      }
    }
  }

  lemma {:induction false} PairStandsOrLasts(h: Hash, secure: Secure, today: Date, t: Catalogue, p: Payload, ledger: Ledger, titles: Ledger, k: nat)
    ensures PairStands(h, secure, today, t, p, ledger, titles, k) || PairLasts(h, t, p, ledger, titles, k)
  {
    hide PairLasts;
  }

  lemma {:induction false} EndsAfter(h: Hash, t: Catalogue, p: Payload, ledger: Ledger, titles: Ledger, u: Catalogue, r: Relationship)
    requires CleanRun(h, t, p, ledger, titles, u)
    ensures EndsApproved(u, r) <==> EndsWillBe(h, t, p, ledger, r)
  {
    hide CleanRun, FirstRow, FirstSourced, CompanyApproved, ComparableIsApproved, ApprovedCompanies;
    TitleApprovedAfter(h, t, p, ledger, titles, u, r.comparableId);
    CompanyApprovedAfter(h, t, p, ledger, titles, u, r.targetId);
  }

  lemma {:induction false} StaleIsUnmentioned(h: Hash, t: Catalogue, p: Payload, ledger: Ledger, titles: Ledger, id: string)
    ensures Stale(t, Build(h, p, ledger, titles), id) <==> id in t.relationships && !Mentions(h, p, id)
  {
    hide Build, KeptRows, PairId, PairApproved, RelationshipFor;
    DerivedPairs(h, p, ledger, titles);
  }

  /** The stored relationships the payload does not mention keep approved ends. */
  lemma {:induction false} RestIsSafe(h: Hash, t: Catalogue, p: Payload, ledger: Ledger, titles: Ledger, u: Catalogue)
    requires CleanRun(h, t, p, ledger, titles, u)
    ensures Safe(u) <==> forall id :: id in t.relationships && t.relationships[id].state == Approved && !Mentions(h, p, id) ==>
                                        EndsWillBe(h, t, p, ledger, t.relationships[id])
  {
    hide Build, Distinct, AppliedRun, Safe, EndsApproved, EndsWillBe, Mentions, Stale;
    SafeIffStaleRowsAre(h, t, p, ledger, titles, u);
    forall id ensures Stale(t, Build(h, p, ledger, titles), id) <==> id in t.relationships && !Mentions(h, p, id) {
      StaleIsUnmentioned(h, t, p, ledger, titles, id);
    }
    forall id | id in t.relationships ensures EndsApproved(u, t.relationships[id]) <==> EndsWillBe(h, t, p, ledger, t.relationships[id]) {
      EndsAfter(h, t, p, ledger, titles, u, t.relationships[id]);
    }
  }

  /** The reader accepts what an applied run leaves exactly when everything the
      payload gets approved has usable evidence and the stored rows it does not
      mention stand on their own. */
  lemma {:induction false} ReadableExactly(h: Hash, secure: Secure, today: Date, t: Catalogue, p: Payload, ledger: Ledger, titles: Ledger,
                                           u: Catalogue, cs: seq<Company>, ts: seq<Comparable>, rs: seq<Relationship>)
    requires Keyed(t) && CleanRun(h, t, p, ledger, titles, u) && Selected(u, cs, ts, rs)
    ensures Readable(secure, today, cs, ts, rs) <==>
            PayloadStands(h, secure, today, t, p, ledger, titles) && RestStands(h, secure, today, t, p, ledger)
  {
    hide Build, Distinct, AppliedRun, Keyed, Selected, Readable, Safe, GoodCompany, GoodComparable, GoodRelationship, EndsWillBe,
         CompanyEvidence, TitleEvidence, PairEvidence, FirstRow, FirstSourced, KeptRows, PairStands, Mentions, CompanyReview;
    RunKeepsKeys(h, p, t, ledger, titles, u);
    ReadableIff(secure, today, u, cs, ts, rs);
    CompaniesStand(h, secure, today, t, p, ledger, titles, u);
    TitlesStand(h, secure, today, t, p, ledger, titles, u);
    TitlesSplit(h, secure, today, t, p, titles);
    PairsStand(h, secure, today, t, p, ledger, titles, u);
    RestIsSafe(h, t, p, ledger, titles, u);
  }

  lemma {:induction false} TitlesSplit(h: Hash, secure: Secure, today: Date, t: Catalogue, p: Payload, titles: Ledger)
    ensures (forall id :: TitleStands(h, secure, today, t, p, titles, id)) <==>
            && (forall id :: FirstSourced(h, p.companies, p.titles, id) ==>
                  TitleEvidence(secure, today, p.companies, titles, id, FirstRow(h, p.companies, p.titles, id).value))
            && (forall id :: ComparableIsApproved(t, id) && FirstRow(h, p.companies, p.titles, id).None? ==> GoodComparable(secure, today, t.comparables[id]))
  {
    hide GoodComparable, TitleEvidence, FirstRow, Sourced;
    if forall id :: TitleStands(h, secure, today, t, p, titles, id) {
      forall id | FirstSourced(h, p.companies, p.titles, id)
        ensures TitleEvidence(secure, today, p.companies, titles, id, FirstRow(h, p.companies, p.titles, id).value)
      {
        assert TitleStands(h, secure, today, t, p, titles, id);
      }
      forall id | ComparableIsApproved(t, id) && FirstRow(h, p.companies, p.titles, id).None?
        ensures GoodComparable(secure, today, t.comparables[id])
      {
        assert TitleStands(h, secure, today, t, p, titles, id);
      }
    }
  }

  // ---- payloads the importer approves and the reader refuses -------------------------------------------

  const NOTHING := Catalogue(map[], map[], map[])

  /** A company the importer approves whatever its own source. */
  function Seller(source: string): CompanyRow {
    CompanyRow("C1", "Seller", source, Date(2026, 9, 1), None, "YES", "VERIFIED_OFFICIAL", {"sales_agent"}, true, {}, {}, "", "")
  }

  /** The run goes through on empty tables, and the reader refuses what it leaves. */
  ghost predicate AppliedButRefused(h: Hash, secure: Secure, today: Date, p: Payload) {
    var ran := CommercialRun(h, NOTHING, p, map[], map[], true);
    ran.outcome.Done? &&
    forall cs, ts, rs :: Selected(ran.tables, cs, ts, rs) ==> !Readable(secure, today, cs, ts, rs)
  }

  lemma {:induction false} FailsOnEmpty(h: Hash, secure: Secure, today: Date, p: Payload)
    requires Distinct(RawIds(p.companies)) && |p.titles| <= 1
    requires !PayloadStands(h, secure, today, NOTHING, p, map[], map[])
    ensures AppliedButRefused(h, secure, today, p)
  {
    hide CommercialRun, Build, Distinct, PayloadStands, RestStands, Readable, Selected, KeptRows, NoNewTwice;
    DerivedPairs(h, p, map[], map[]);
    FewKept(p.companies, p.titles);
    assert |RelationshipIds(Build(h, p, map[], map[]).relationships)| <= 1;
    ShortDistinct(RelationshipIds(Build(h, p, map[], map[]).relationships));
    AppliedRunAccepted(h, NOTHING, p, map[], map[]);
    DistinctNoNewTwice(NOTHING.companies, RawIds(p.companies));
    DistinctNoNewTwice(NOTHING.relationships, RelationshipIds(Build(h, p, map[], map[]).relationships));
    var u := CommercialRun(h, NOTHING, p, map[], map[], true).tables;
    forall cs, ts, rs | Selected(u, cs, ts, rs) ensures !Readable(secure, today, cs, ts, rs) {
      ReadableExactly(h, secure, today, NOTHING, p, map[], map[], u, cs, ts, rs);
    }
  }

  lemma {:induction false} FirstLasts(h: Hash, p: Payload)
    requires KeptRows(p.companies, p.titles) != []
    ensures PairLasts(h, NOTHING, p, map[], map[], 0)
  {
    hide Build, KeptRows, PairId, PairApproved, RelationshipFor;
    DerivedPairs(h, p, map[], map[]);
  }

  lemma {:induction false} FewKept(cs: seq<CompanyRow>, raws: seq<TitleRow>)
    ensures |KeptRows(cs, raws)| <= |raws|
  {
    hide Kept;
    if raws != [] { FewKept(cs, raws[..|raws| - 1]); }
  }

  lemma {:induction false} ShortDistinct(ids: seq<string>)
    requires |ids| <= 1
    ensures Distinct(ids)
  {
  }

  lemma {:induction false} SellerApproved(source: string)
    ensures CompanyReview(Seller(source), map[]).Passed?
  {
    assert |DIRECTORY| == 34 && |"VERIFIED_OFFICIAL"| == 17;
    assert Upper("YES") == "YES";
    assert "sales_agent" in Seller(source).roles;
  }

  /** One approved company read off an insecure page. */
  lemma {:induction false} InsecureCompanyRefused(h: Hash, secure: Secure, today: Date)
    requires !secure("http://example.org")
    ensures AppliedButRefused(h, secure, today, Payload([Seller("http://example.org")], []))
  {
    hide AppliedButRefused, CompanyReview, FirstRow, KeptRows;
    var c := Seller("http://example.org");
    var p := Payload([c], []);
    SellerApproved("http://example.org");
    assert c in p.companies && !CompanyEvidence(secure, today, c, map[]);
    FailsOnEmpty(h, secure, today, p);
  }

  /** An approved relationship whose own row is no evidence: the importer takes the
      scheme alone for a source, and never looks at the type. */
  lemma {:induction false} PoorPairRefused(h: Hash, secure: Secure, today: Date, raw: TitleRow)
    requires raw.companyName == "Seller" && raw.filmTitle == "Example" && raw.verificationStatus == "VERIFIED"
    requires StartsWith(raw.sourceUrl, "https://") && (raw.relationshipType == "" || !secure(raw.sourceUrl))
    ensures AppliedButRefused(h, secure, today, Payload([Seller("https://example.org")], [raw]))
  {
    hide AppliedButRefused, CompanyReview, FirstRow, IdentityOf, Seen;
    var c := Seller("https://example.org");
    var cs, p := [c], Payload([c], [raw]);
    SellerApproved("https://example.org");
    TitleKept(c, raw);
    FirstOfFront(h, cs, [raw], IdentityOf(h, raw));
    assert [raw][..0] == [] && KeptRows(cs, []) == [];
    assert KeptRows(cs, [raw]) == [] + [raw];
    assert c in cs && "C1" in ApprovedCompanies(cs, map[]);
    assert KeptRows(p.companies, p.titles)[0] == raw && PairApproved(h, p, map[], raw) && !PairEvidence(secure, today, cs, raw);
    FirstLasts(h, p);
    assert !PairStands(h, secure, today, NOTHING, p, map[], map[], 0);
    FailsOnEmpty(h, secure, today, p);
  }

  lemma {:induction false} TitleKept(c: CompanyRow, raw: TitleRow)
    requires c.name == "Seller" == raw.companyName && c.id == "C1" && raw.filmTitle == "Example" && StartsWith(raw.sourceUrl, "https://")
    ensures Target([c], raw) == "C1" && Kept([c], raw)
  {
    StripKeeps("Example");
  }

  /** The two poor rows, concretely. */
  lemma {:induction false} UntypedPairRefused(h: Hash, secure: Secure, today: Date)
    ensures AppliedButRefused(h, secure, today,
              Payload([Seller("https://example.org")], [TitleRow("Seller", "Example", "https://example.org/film", "VERIFIED", "")]))
  {
    hide AppliedButRefused;
    PoorPairRefused(h, secure, today, TitleRow("Seller", "Example", "https://example.org/film", "VERIFIED", ""));
  }

  lemma {:induction false} BareSchemeRefused(h: Hash, secure: Secure, today: Date)
    requires !secure("https://")
    ensures AppliedButRefused(h, secure, today,
              Payload([Seller("https://example.org")], [TitleRow("Seller", "Example", "https://", "VERIFIED", "SALES")]))
  {
    hide AppliedButRefused;
    PoorPairRefused(h, secure, today, TitleRow("Seller", "Example", "https://", "VERIFIED", "SALES"));
  }
}
