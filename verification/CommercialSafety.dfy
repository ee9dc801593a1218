/** Runs of the importer over a changing ledger: no approved relationship is ever
    left with an unapproved end, and withdrawals are reported exactly. */
module CommercialSafety {
  import opened Base
  import opened Identity
  import opened Sync
  import opened Commercial
  import opened CommercialApproval

  ghost predicate CompanyApproved(t: Catalogue, id: string) { id in t.companies && t.companies[id].state == Approved }

  ghost predicate ComparableIsApproved(t: Catalogue, id: string) { id in t.comparables && t.comparables[id].state == Approved }

  ghost predicate EndsApproved(t: Catalogue, r: Relationship) {
    ComparableIsApproved(t, r.comparableId) && (r.targetKind == COMPANY ==> CompanyApproved(t, r.targetId))
  }

  ghost predicate SafeAt(t: Catalogue, id: string) {
    id in t.relationships && t.relationships[id].state == Approved ==> EndsApproved(t, t.relationships[id])
  }

  ghost predicate Safe(t: Catalogue) { forall id :: id in t.relationships ==> SafeAt(t, id) }

  ghost predicate AppliedRun(h: Hash, t: Catalogue, p: Payload, ledger: Ledger, titles: Ledger, u: Catalogue) {
    var ran := CommercialRun(h, t, p, ledger, titles, true);
    ran.outcome.Done? && ran.tables == u
  }

  // ---- one applied run -----------------------------------------------------------------

  lemma {:induction false} OrderIsIds(h: Hash, p: Payload, ledger: Ledger, titles: Ledger)
    ensures var t := TitlesFrom(h, p.companies, ApprovedCompanies(p.companies, ledger), titles, p.titles);
            ComparableIds(ComparablesOf(t)) == t.order && Distinct(t.order)
  {
    hide TitlesFrom, FirstRow, KeptRows, RelationshipFor, Distinct, ComparableFor, IdentityOf, BothApproved, Kept, ApprovedCompanies;
    var approved := ApprovedCompanies(p.companies, ledger);
    var t := TitlesFrom(h, p.companies, approved, titles, p.titles);
    TwoPasses(h, p.companies, approved, titles, p.titles);
    forall i | 0 <= i < |t.order| ensures ComparableIds(ComparablesOf(t))[i] == t.order[i] {
      assert t.order[i] in t.comparables;
      FirstRowIs(h, p.companies, p.titles, t.order[i]);
      StateOfComparable(h, p.companies, titles, FirstRow(h, p.companies, p.titles, t.order[i]).value);
    }
  }

  /** What an applied run stores: the derived companies and comparables exactly,
      and every derived relationship id with one of its derived rows. */
  ghost predicate Stored(t: Catalogue, d: Derived, u: Catalogue) {
    && (forall i :: 0 <= i < |d.companies| ==> d.companies[i].id in u.companies && u.companies[d.companies[i].id] == d.companies[i])
    && (forall i :: 0 <= i < |d.comparables| ==> d.comparables[i].id in u.comparables && u.comparables[d.comparables[i].id] == d.comparables[i])
    && Synced(t.relationships, RelationshipIds(d.relationships), d.relationships, u.relationships)
    && Synced(t.companies, CompanyIds(d.companies), d.companies, u.companies)
    && Synced(t.comparables, ComparableIds(d.comparables), d.comparables, u.comparables)
  }

  lemma {:induction false} RunStores(h: Hash, t: Catalogue, p: Payload, ledger: Ledger, titles: Ledger, u: Catalogue)
    requires Distinct(RawIds(p.companies)) && AppliedRun(h, t, p, ledger, titles, u)
    ensures Stored(t, Build(h, p, ledger, titles), u)
  {
    hide TitlesFrom, SyncAll, Distinct, Synced, ReportOf, CompanyFor;
    var d := Build(h, p, ledger, titles);
    assert CompanyIds(d.companies) == RawIds(p.companies) by { CompanyIdsAre(p.companies, ledger); }
    OrderIsIds(h, p, ledger, titles);
    SyncExact(t.companies, CompanyIds(d.companies), d.companies);
    SyncExact(t.comparables, ComparableIds(d.comparables), d.comparables);
    SyncEffect(t.companies, CompanyIds(d.companies), d.companies);
    SyncEffect(t.comparables, ComparableIds(d.comparables), d.comparables);
    SyncEffect(t.relationships, RelationshipIds(d.relationships), d.relationships);
  }

  lemma {:induction false} CompanyIdsAre(cs: seq<CompanyRow>, ledger: Ledger)
    ensures CompanyIds(Companies(cs, ledger)) == RawIds(cs)
  {
  }

  /** A derived approved relationship has approved ends among the derived rows. */
  lemma {:induction false} DerivedEnds(h: Hash, p: Payload, ledger: Ledger, titles: Ledger, k: nat)
    requires var d := Build(h, p, ledger, titles); k < |d.relationships| && d.relationships[k].state == Approved
    ensures var d := Build(h, p, ledger, titles);
            && (exists c :: c in d.companies && c.id == d.relationships[k].targetId && c.state == Approved)
            && (exists x :: x in d.comparables && x.id == d.relationships[k].comparableId && x.state == Approved)
  {
    hide TitlesFrom, CompanyReview, CompanyClaims, IdentityOf, Target, Sourced, Kept, FirstRow, KeptRows, RelationshipId, ComparableFor;
    var cs, raws, approved := p.companies, p.titles, ApprovedCompanies(p.companies, ledger);
    var d, t := Build(h, p, ledger, titles), TitlesFrom(h, cs, approved, titles, raws);
    TwoPasses(h, cs, approved, titles, raws);
    var x := KeptRows(cs, raws)[k];
    ApprovedCompanyRows(cs, ledger, Target(cs, x));
    var id := IdentityOf(h, x);
    FirstRowIs(h, cs, raws, id);
    StateOfComparable(h, cs, titles, FirstRow(h, cs, raws, id).value);
    assert id in t.order;
    var i :| 0 <= i < |t.order| && t.order[i] == id;
    assert d.comparables[i] == t.comparables[id];
    assert d.comparables[i] in d.comparables;
  }

  lemma {:induction false} EndsStored(t: Catalogue, d: Derived, u: Catalogue, r: Relationship)
    requires Stored(t, d, u)
    requires exists c :: c in d.companies && c.id == r.targetId && c.state == Approved
    requires exists x :: x in d.comparables && x.id == r.comparableId && x.state == Approved
    ensures EndsApproved(u, r)
  {
  }

  lemma {:induction false} DerivedRowSafe(h: Hash, t: Catalogue, p: Payload, ledger: Ledger, titles: Ledger, u: Catalogue, id: string)
    requires Distinct(RawIds(p.companies)) && AppliedRun(h, t, p, ledger, titles, u)
    requires id in RelationshipIds(Build(h, p, ledger, titles).relationships)
    ensures SafeAt(u, id)
  {
    hide AppliedRun, Build, Distinct, Stored, EndsApproved;
    var d := Build(h, p, ledger, titles);
    RunStores(h, t, p, ledger, titles, u);
    var k := StoredAs(t, d, u, id);
    if d.relationships[k].state == Approved {
      DerivedEnds(h, p, ledger, titles, k);
      EndsStored(t, d, u, d.relationships[k]);
    }
  }

  lemma {:induction false} StoredAs(t: Catalogue, d: Derived, u: Catalogue, id: string) returns (k: nat)
    requires Stored(t, d, u) && id in RelationshipIds(d.relationships)
    ensures k < |d.relationships| && id in u.relationships && u.relationships[id] == d.relationships[k]
  {
    assert Offered(RelationshipIds(d.relationships), d.relationships, id, u.relationships[id]);
    k :| 0 <= k < |d.relationships| && d.relationships[k] == u.relationships[id];
  }

  /** A stored relationship the payload says nothing about. */
  ghost predicate Stale(t: Catalogue, d: Derived, id: string) { id in t.relationships && id !in RelationshipIds(d.relationships) }

  /** After an applied run the tables are safe exactly when the relationships the
      payload no longer mentions are. */
  lemma {:induction false} SafeIffStaleRowsAre(h: Hash, t: Catalogue, p: Payload, ledger: Ledger, titles: Ledger, u: Catalogue)
    requires Distinct(RawIds(p.companies)) && AppliedRun(h, t, p, ledger, titles, u)
    ensures Safe(u) <==>
            forall id :: Stale(t, Build(h, p, ledger, titles), id) && t.relationships[id].state == Approved ==> EndsApproved(u, t.relationships[id])
  {
    hide AppliedRun, Build, Distinct, EndsApproved, Offered;
    var d := Build(h, p, ledger, titles);
    RunStores(h, t, p, ledger, titles, u);
    forall id | id in RelationshipIds(d.relationships) ensures SafeAt(u, id) { DerivedRowSafe(h, t, p, ledger, titles, u, id); }
    forall id | Stale(t, d, id) ensures id in u.relationships && u.relationships[id] == t.relationships[id] { }
    if Safe(u) {
      forall id | Stale(t, d, id) && t.relationships[id].state == Approved ensures EndsApproved(u, t.relationships[id]) { assert SafeAt(u, id); }
    }
  }

  // ---- whole sequences of runs -----------------------------------------------------------

  /** Every stored relationship is one the payload yields, whatever the ledger. */
  ghost predicate Ours(h: Hash, p: Payload, t: Catalogue) {
    forall id :: id in t.relationships ==> id in RelationshipIds(Build(h, p, map[], map[]).relationships)
  }

  lemma {:induction false} IdsAreFixed(h: Hash, p: Payload, ledger: Ledger, titles: Ledger)
    ensures RelationshipIds(Build(h, p, ledger, titles).relationships) == RelationshipIds(Build(h, p, map[], map[]).relationships)
  {
    hide Build;
    ApprovalMonotone(h, p, map[], ledger, map[], titles);
  }

  datatype Run = Run(ledger: Ledger, titles: Ledger, apply: bool)

  function After(h: Hash, p: Payload, t: Catalogue, run: Run): Catalogue {
    CommercialRun(h, t, p, run.ledger, run.titles, run.apply).tables
  }

  function Play(h: Hash, p: Payload, t: Catalogue, runs: seq<Run>): Catalogue {
    if runs == [] then t else After(h, p, Play(h, p, t, runs[..|runs| - 1]), runs[|runs| - 1])
  }

  /** Run `k` was applied and went through. */
  ghost predicate WentThrough(h: Hash, p: Payload, t: Catalogue, runs: seq<Run>, k: nat)
    requires k < |runs|
  {
    runs[k].apply && CommercialRun(h, Play(h, p, t, runs[..k]), p, runs[k].ledger, runs[k].titles, true).outcome.Done?
  }

  lemma {:induction false} RunKeepsOurs(h: Hash, p: Payload, t: Catalogue, run: Run)
    requires Distinct(RawIds(p.companies)) && Ours(h, p, t)
    ensures Ours(h, p, After(h, p, t, run))
    ensures Safe(t) || (run.apply && CommercialRun(h, t, p, run.ledger, run.titles, true).outcome.Done?) ==> Safe(After(h, p, t, run))
  {
    hide Build, WriteAll, ReportOf, Safe, Distinct, EndsApproved;
    var u := After(h, p, t, run);
    if u != t || (run.apply && CommercialRun(h, t, p, run.ledger, run.titles, true).outcome.Done?) {
      assert AppliedRun(h, t, p, run.ledger, run.titles, u);
      RunStores(h, t, p, run.ledger, run.titles, u);
      IdsAreFixed(h, p, run.ledger, run.titles);
      SafeIffStaleRowsAre(h, t, p, run.ledger, run.titles, u);
    }
  }

  /** For one payload and any sequence of runs, each against its own ledger: once
      the tables are safe, or one run was applied, no approved relationship has an
      unapproved end, however approvals come and go. */
  lemma {:induction false} EveryRunSafe(h: Hash, p: Payload, t: Catalogue, runs: seq<Run>)
    requires Distinct(RawIds(p.companies)) && Ours(h, p, t)
    ensures Ours(h, p, Play(h, p, t, runs))
    ensures Safe(t) || (exists k :: 0 <= k < |runs| && WentThrough(h, p, t, runs, k)) ==> Safe(Play(h, p, t, runs))
  {
    hide After, Safe, Ours, Distinct, CommercialRun;
    if runs != [] {
      var n := |runs| - 1;
      var front := runs[..n];
      EveryRunSafe(h, p, t, front);
      RunKeepsOurs(h, p, Play(h, p, t, front), runs[n]);
      if k :| 0 <= k < |runs| && WentThrough(h, p, t, runs, k) {
        if k < n {
          assert front[..k] == runs[..k];
          assert WentThrough(h, p, t, front, k);
        }
      }
    }
  }

  // ---- withdrawals -----------------------------------------------------------------------

  lemma {:induction false} WithdrawnMembers(table: map<string, Company>, rows: seq<Company>, id: string)
    ensures id in Withdrawn(table, rows) <==>
            exists row :: row in rows && row.id == id && id in table && table[id].state == Approved && row.state != Approved
  {
    if rows != [] {
      var n := |rows| - 1;
      assert rows == rows[..n] + [rows[n]];
      WithdrawnMembers(table, rows[..n], id);
    }
  }

  /** An applied run reports as withdrawn exactly the companies that were approved
      and no longer are. */
  lemma {:induction false} WithdrawnExactly(h: Hash, t: Catalogue, p: Payload, ledger: Ledger, titles: Ledger, u: Catalogue, id: string)
    requires Distinct(RawIds(p.companies)) && AppliedRun(h, t, p, ledger, titles, u)
    ensures id in CommercialRun(h, t, p, ledger, titles, true).outcome.report.withdrawn <==> CompanyApproved(t, id) && !CompanyApproved(u, id)
  {
    hide TitlesFrom, WriteAll, Distinct, CompanyFor, Offered, Withdrawn, Missing, CountMoved, CountApproved, HeldBackOf;
    var d := Build(h, p, ledger, titles);
    RunStores(h, t, p, ledger, titles, u);
    WithdrawnMembers(t.companies, d.companies, id);
    if id in CompanyIds(d.companies) {
      var i :| 0 <= i < |d.companies| && d.companies[i].id == id;
      assert d.companies[i] in d.companies;
    }
  }

  /** While the ledger only grows, the next run over the same payload withdraws nothing. */
  lemma {:induction false} GrowthWithdrawsNothing(h: Hash, t: Catalogue, p: Payload, a: Ledger, titles: Ledger, u: Catalogue,
                                                  b: Ledger, later: Ledger, apply: bool)
    requires Distinct(RawIds(p.companies)) && AppliedRun(h, t, p, a, titles, u) && Extends(a, b)
    ensures ReportOf(u, p, b, Build(h, p, b, later), apply).withdrawn == []
  {
    hide TitlesFrom, Build, AppliedRun, Distinct, Withdrawn, Missing, CountMoved, CountApproved, HeldBackOf, Synced;
    var d, e := Build(h, p, a, titles), Build(h, p, b, later);
    RunStores(h, t, p, a, titles, u);
    ApprovalMonotone(h, p, a, b, titles, later);
    var gone := Withdrawn(u.companies, e.companies);
    if gone != [] {
      WithdrawnMembers(u.companies, e.companies, gone[0]);
    }
  }

  // ---- when an applied run goes through ------------------------------------------------------

  lemma {:induction false} NothingToUpdate(table: map<string, Relationship>, current: map<string, Relationship>, ids: seq<string>,
                                           rows: seq<Relationship>)
    requires |ids| == |rows| && forall i :: 0 <= i < |ids| ==> ids[i] in table && table[ids[i]] == rows[i]
    ensures !UpdatesClash(table, current, ids, rows)
  {
    hide PairTaken, WriteMoved;
    if rows != [] { NothingToUpdate(table, current, ids[..|ids| - 1], rows[..|rows| - 1]); }
  }

  lemma {:induction false} SettledPairs(table: map<string, Relationship>, rows: seq<Relationship>)
    requires forall i :: 0 <= i < |rows| ==> rows[i].id in table && table[rows[i].id] == rows[i]
    ensures !PairsClash(table, rows)
  {
    hide PairTaken, UpdatesClash, SyncAll;
    var ids := RelationshipIds(rows);
    SyncSettled(table, ids, rows);
    InsertNothing(table);
    NothingToUpdate(table, table, ids, rows);
    assert NewRows(table, ids, rows) == [] by { assert |Missing(table, ids)| == 0; }
  }

  lemma {:induction false} InsertNothing(table: map<string, Relationship>)
    ensures InsertAll(table, [], []) == Some(table)
  {
  }

  /** Stored relationships are known by their ends and their type. */
  ghost predicate PairsIdentified(h: Hash, table: map<string, Relationship>) {
    forall k :: k in table ==> table[k].id == k && PairIdentified(h, table[k])
  }

  ghost predicate PairIdentified(h: Hash, r: Relationship) {
    r.id == RelationshipId(h, r.comparableId, r.targetKind, r.targetId, r.relationshipType)
  }

  lemma {:induction false} IdentifiedPairFree(h: Hash, table: map<string, Relationship>, r: Relationship)
    requires PairsIdentified(h, table) && PairIdentified(h, r)
    ensures !PairTaken(table, r)
  {
    hide RelationshipId;
  }

  lemma {:induction false} IdentifiedPairUpdates(h: Hash, prior: map<string, Relationship>, current: map<string, Relationship>, ids: seq<string>,
                                                 rows: seq<Relationship>)
    requires |ids| == |rows| && forall i :: 0 <= i < |rows| ==> ids[i] == rows[i].id && PairIdentified(h, rows[i])
    requires PairsIdentified(h, current)
    ensures PairsIdentified(h, WriteMoved(prior, current, ids, rows)) && !UpdatesClash(prior, current, ids, rows)
  {
    hide PairTaken, PairIdentified;
    if rows != [] {
      var n := |rows| - 1;
      IdentifiedPairUpdates(h, prior, current, ids[..n], rows[..n]);
      IdentifiedPairFree(h, WriteMoved(prior, current, ids, rows), rows[n]);
    }
  }

  lemma {:induction false} IdentifiedPairsWrite(h: Hash, table: map<string, Relationship>, rows: seq<Relationship>)
    requires PairsIdentified(h, table) && forall r :: r in rows ==> PairIdentified(h, r)
    requires NoNewTwice(table, RelationshipIds(rows))
    ensures !PairsClash(table, rows)
    ensures SyncAll(table, RelationshipIds(rows), rows).Some? && PairsIdentified(h, SyncAll(table, RelationshipIds(rows), rows).value)
  {
    hide PairTaken, PairIdentified, InsertAll, Missing, NewRows, WriteMoved, NoNewTwice, UpdatesClash, Offered;
    var ids := RelationshipIds(rows);
    var ms, rs := Missing(table, ids), NewRows(table, ids, rows);
    SyncSucceeds(table, ids, rows);
    var t := InsertAll(table, ms, rs).value;
    InsertAllEffect(table, ms, rs);
    NewRowsOffered(table, ids, rows);
    forall k | 0 <= k < |rs| ensures rs[k] in rows && rs[k].id == ms[k] { OfferedIn(ids, rows, ms[k], rs[k]); }
    assert PairsIdentified(h, t);
    forall r | r in rs ensures !PairTaken(t, r) { IdentifiedPairFree(h, t, r); }
    IdentifiedPairUpdates(h, table, t, ids, rows);
  }

  lemma {:induction false} OfferedIn(ids: seq<string>, rows: seq<Relationship>, id: string, r: Relationship)
    requires ids == RelationshipIds(rows) && Offered(ids, rows, id, r)
    ensures r in rows && r.id == id
  {
  }

  lemma {:induction false} DerivedIdentified(h: Hash, p: Payload, ledger: Ledger, titles: Ledger)
    ensures forall r :: r in Build(h, p, ledger, titles).relationships ==> PairIdentified(h, r)
  {
    hide TitlesFrom, FirstRow, RelationshipId, IdentityOf, Target;
    TwoPasses(h, p.companies, ApprovedCompanies(p.companies, ledger), titles, p.titles);
  }

  /** An applied run goes through exactly when no company and no relationship that is
      not stored yet comes twice. */
  lemma {:induction false} AppliedRunAccepted(h: Hash, t: Catalogue, p: Payload, ledger: Ledger, titles: Ledger)
    requires PairsIdentified(h, t.relationships)
    ensures CommercialRun(h, t, p, ledger, titles, true).outcome.Done? <==>
            NoNewTwice(t.companies, RawIds(p.companies))
            && NoNewTwice(t.relationships, RelationshipIds(Build(h, p, ledger, titles).relationships))
  {
    hide TitlesFrom, SyncAll, NoNewTwice, PairsClash, ReportOf, CompanyFor, PairsIdentified;
    var d := Build(h, p, ledger, titles);
    CompanyIdsAre(p.companies, ledger);
    OrderIsIds(h, p, ledger, titles);
    SyncSucceeds(t.companies, CompanyIds(d.companies), d.companies);
    SyncSucceeds(t.comparables, ComparableIds(d.comparables), d.comparables);
    SyncSucceeds(t.relationships, RelationshipIds(d.relationships), d.relationships);
    DistinctNoNewTwice(t.comparables, ComparableIds(d.comparables));
    DerivedIdentified(h, p, ledger, titles);
    if NoNewTwice(t.relationships, RelationshipIds(d.relationships)) { IdentifiedPairsWrite(h, t.relationships, d.relationships); }
  }

  /** Runs keep it so: from empty tables on, stored relationships are known by their
      ends and type. */
  lemma {:induction false} RunKeepsPairs(h: Hash, p: Payload, t: Catalogue, run: Run)
    requires PairsIdentified(h, t.relationships)
    ensures PairsIdentified(h, After(h, p, t, run).relationships)
  {
    hide Build, SyncAll, NoNewTwice, PairsClash, ReportOf, PairIdentified;
    var d := Build(h, p, run.ledger, run.titles);
    if run.apply && WriteAll(t, d).Some? {
      DerivedIdentified(h, p, run.ledger, run.titles);
      SyncSucceeds(t.relationships, RelationshipIds(d.relationships), d.relationships);
      IdentifiedPairsWrite(h, t.relationships, d.relationships);
    }
  }

  lemma {:induction false} DistinctNoNewTwice<V>(table: map<string, V>, ids: seq<string>)
    requires Distinct(ids)
    ensures NoNewTwice(table, ids)
  {
  }

  /** An applied run leaves nothing to do: repeated, it writes nothing and every
      counter of change is zero. */
  lemma {:induction false} RunSettles(h: Hash, t: Catalogue, p: Payload, ledger: Ledger, titles: Ledger, u: Catalogue)
    requires Distinct(RawIds(p.companies)) && Distinct(RelationshipIds(Build(h, p, ledger, titles).relationships))
    requires AppliedRun(h, t, p, ledger, titles, u)
    ensures var ran := CommercialRun(h, u, p, ledger, titles, true);
            && ran.tables == u && ran.outcome.Done?
            && ran.outcome.report.inserted == Counts(0, 0, 0) && ran.outcome.report.updated == Counts(0, 0, 0)
            && ran.outcome.report.withdrawn == []
  {
    hide Build, Distinct, SyncAll, Missing, CountMoved, CountApproved, HeldBackOf, Synced, Withdrawn;
    var d := Build(h, p, ledger, titles);
    RunStores(h, t, p, ledger, titles, u);
    SyncExact(t.relationships, RelationshipIds(d.relationships), d.relationships);
    SyncSettled(u.companies, CompanyIds(d.companies), d.companies);
    SyncSettled(u.comparables, ComparableIds(d.comparables), d.comparables);
    SyncSettled(u.relationships, RelationshipIds(d.relationships), d.relationships);
    SettledPairs(u.relationships, d.relationships);
    GrowthWithdrawsNothing(h, t, p, ledger, titles, u, ledger, titles, true);
  }
}
