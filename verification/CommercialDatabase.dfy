/** The commercial staging tables as one object, and the importer as its method. */
module CommercialDatabase {
  import opened Base
  import opened Identity
  import opened Sync
  import opened Commercial

  class Database {
    var companies: map<string, Company>
    var comparables: map<string, Comparable>
    var relationships: map<string, Relationship>

    ghost function Contents(): Catalogue
      reads this
    {
      Catalogue(companies, comparables, relationships)
    }

    /** stage_commercial_catalogue: derive the rows, then sync companies,
        comparables and relationships in one transaction. */
    method Stage(h: Hash, payload: Payload, ledger: Ledger, titles: Ledger, apply: bool) returns (outcome: Outcome)
      modifies this
      ensures Ran(Contents(), outcome) == CommercialRun(h, old(Contents()), payload, ledger, titles, apply)
    {
      hide TitlesFrom, HeldBackOf, CountApproved, Missing, NewRows, CountMoved, Withdrawn, WriteMoved, InsertAll, CompanyReview, CompanyClaims, PairsClash;
      var rows, held := BuildCompanies(payload.companies, ledger);
      var t := BuildTitles(h, payload, ApprovedCompanies(payload.companies, ledger), titles);
      var comparableRows := ComparablesOf(t);
      var a, b, c := CompanyIds(rows), ComparableIds(comparableRows), RelationshipIds(t.relationships);

      var newA, written, movedA := SyncTable(companies, a, rows);
      var gone := FindWithdrawn(companies, rows);
      var newB, comparablesWritten, movedB := SyncTable(comparables, b, comparableRows);
      var newC, relationshipsWritten, movedC := SyncTable(relationships, c, t.relationships);

      outcome := Done(Report(
        Counts(|payload.companies|, |comparableRows|, |payload.titles|),
        Counts(CountApproved(CompanyStates(rows)), CountApproved(ComparableStates(comparableRows)),
               CountApproved(RelationshipStates(t.relationships))),
        held, Counts(newA, newB, newC), Counts(movedA, movedB, movedC), gone, apply));
      if apply {
        if written.None? || comparablesWritten.None? || relationshipsWritten.None? || PairsClash(relationships, t.relationships) {
          return DuplicateKey;
        }
        companies, comparables, relationships := written.value, comparablesWritten.value, relationshipsWritten.value;
      }
    }
  }

  /** _company_rows, with the tally of held-back reasons. */
  method BuildCompanies(cs: seq<CompanyRow>, ledger: Ledger) returns (rows: seq<Company>, held: multiset<Reason>)
    ensures rows == Companies(cs, ledger) && held == HeldBackOf(cs, ledger)
  {
    hide CompanyReview, CompanyClaims;
    rows, held := [], multiset{};
    for i := 0 to |cs|
      invariant rows == Companies(cs[..i], ledger) && held == HeldBackOf(cs[..i], ledger)
    {
      assert cs[..i + 1][..i] == cs[..i];
      var review := CompanyReview(cs[i], ledger);
      if review.HeldBack? { held := held + multiset{review.reason}; }
      rows := rows + [CompanyFor(cs[i], ledger)];
    }
    assert cs[..|cs|] == cs;
  }

  /** _title_rows: the first row of a title fixes its comparable. */
  method BuildTitles(h: Hash, payload: Payload, approved: set<string>, titles: Ledger) returns (t: Titles)
    ensures t == TitlesFrom(h, payload.companies, approved, titles, payload.titles)
  {
    hide Kept, IdentityOf, Target, Seen, TitleClaims, Sourced, ComparableFor, RelationshipFor;
    var raws, cs := payload.titles, payload.companies;
    var order: seq<string>, comparables: map<string, Comparable>, relationships: seq<Relationship> := [], map[], [];
    for i := 0 to |raws|
      invariant Titles(order, comparables, relationships) == TitlesFrom(h, cs, approved, titles, raws[..i])
    {
      assert raws[..i + 1][..i] == raws[..i];
      var raw := raws[i];
      if !Kept(cs, raw) { continue; }
      var id := IdentityOf(h, raw);
      if id !in comparables {
        order := order + [id];
        comparables := comparables[id := ComparableFor(h, cs, titles, raw)];
      }
      var both := Sourced(raw) && Target(cs, raw) in approved && comparables[id].state == Approved;
      relationships := relationships + [RelationshipFor(h, cs, raw, both)];
    }
    assert raws[..|raws|] == raws;
    t := Titles(order, comparables, relationships);
  }

  /** _sync: sort the rows into inserts and updates, then write them. */
  method SyncTable<V(==)>(table: map<string, V>, ids: seq<string>, rows: seq<V>)
    returns (inserted: nat, written: Option<map<string, V>>, updated: nat)
    requires |ids| == |rows|
    ensures inserted == |Missing(table, ids)| && updated == CountMoved(table, ids, rows)
    ensures written == SyncAll(table, ids, rows)
  {
    hide Missing, CountMoved, NewRows, MovedIds, MovedRows, UpdateAll, WriteMoved, InsertAll;
    var insertIds, inserts, updateIds, updates := SortRows(table, ids, rows);
    inserted, updated := |inserts|, |updates|;
    var current := InsertAll(table, insertIds, inserts);
    if current.None? { return inserted, None, updated; }
    var t := WriteUpdates(current.value, updateIds, updates);
    MovedWritten(table, current.value, ids, rows);
    written := Some(t);
  }

  method SortRows<V(==)>(table: map<string, V>, ids: seq<string>, rows: seq<V>)
    returns (insertIds: seq<string>, inserts: seq<V>, updateIds: seq<string>, updates: seq<V>)
    requires |ids| == |rows|
    ensures insertIds == Missing(table, ids) && inserts == NewRows(table, ids, rows)
    ensures updateIds == MovedIds(table, ids, rows) && updates == MovedRows(table, ids, rows)
  {
    insertIds, inserts, updateIds, updates := [], [], [], [];
    for i := 0 to |ids|
      invariant insertIds == Missing(table, ids[..i]) && inserts == NewRows(table, ids[..i], rows[..i])
      invariant updateIds == MovedIds(table, ids[..i], rows[..i]) && updates == MovedRows(table, ids[..i], rows[..i])
    {
      assert ids[..i + 1][..i] == ids[..i] && rows[..i + 1][..i] == rows[..i];
      if ids[i] !in table {
        insertIds, inserts := insertIds + [ids[i]], inserts + [rows[i]];
      } else if table[ids[i]] != rows[i] {
        updateIds, updates := updateIds + [ids[i]], updates + [rows[i]];
      }
    }
    assert ids[..|ids|] == ids && rows[..|rows|] == rows;
  }

  method WriteUpdates<V>(current: map<string, V>, ids: seq<string>, rows: seq<V>) returns (t: map<string, V>)
    requires |ids| == |rows|
    ensures t == UpdateAll(current, ids, rows)
  {
    t := current;
    for i := 0 to |rows|
      invariant t == UpdateAll(current, ids[..i], rows[..i])
    {
      assert ids[..i + 1][..i] == ids[..i] && rows[..i + 1][..i] == rows[..i];
      if ids[i] in t { t := t[ids[i] := rows[i]]; }
    }
    assert ids[..|ids|] == ids && rows[..|rows|] == rows;
  }

  /** The companies whose approval the sync withdraws. */
  method FindWithdrawn(table: map<string, Company>, rows: seq<Company>) returns (gone: seq<string>)
    ensures gone == Withdrawn(table, rows)
  {
    gone := [];
    for i := 0 to |rows|
      invariant gone == Withdrawn(table, rows[..i])
    {
      assert rows[..i + 1][..i] == rows[..i];
      var row := rows[i];
      if Moved(table, row.id, row) && table[row.id].state == Approved && row.state != Approved { gone := gone + [row.id]; }
    }
    assert rows[..|rows|] == rows;
  }

  // ---- the list of updates ---------------------------------------------------------------

  function MovedIds<V(==)>(table: map<string, V>, ids: seq<string>, rows: seq<V>): (r: seq<string>)
    requires |ids| == |rows|
    ensures |r| == CountMoved(table, ids, rows)
  {
    if rows == [] then []
    else
      var n := |rows| - 1;
      MovedIds(table, ids[..n], rows[..n]) + if Moved(table, ids[n], rows[n]) then [ids[n]] else []
  }

  function MovedRows<V(==)>(table: map<string, V>, ids: seq<string>, rows: seq<V>): (r: seq<V>)
    requires |ids| == |rows|
    ensures |r| == CountMoved(table, ids, rows)
  {
    if rows == [] then []
    else
      var n := |rows| - 1;
      MovedRows(table, ids[..n], rows[..n]) + if Moved(table, ids[n], rows[n]) then [rows[n]] else []
  }

  /** One UPDATE by primary key after another. */
  function UpdateAll<V>(current: map<string, V>, ids: seq<string>, rows: seq<V>): map<string, V>
    requires |ids| == |rows|
  {
    if rows == [] then current
    else
      var n := |rows| - 1;
      var t := UpdateAll(current, ids[..n], rows[..n]);
      if ids[n] in t then t[ids[n] := rows[n]] else t
  }

  lemma {:induction false} UpdateSnoc<V>(current: map<string, V>, ids: seq<string>, rows: seq<V>, id: string, row: V)
    requires |ids| == |rows|
    ensures var t := UpdateAll(current, ids, rows); UpdateAll(current, ids + [id], rows + [row]) == if id in t then t[id := row] else t
  {
  }

  lemma {:induction false} MovedWritten<V>(prior: map<string, V>, current: map<string, V>, ids: seq<string>, rows: seq<V>)
    requires |ids| == |rows|
    ensures UpdateAll(current, MovedIds(prior, ids, rows), MovedRows(prior, ids, rows)) == WriteMoved(prior, current, ids, rows)
  {
    if rows != [] {
      var n := |rows| - 1;
      MovedWritten(prior, current, ids[..n], rows[..n]);
      UpdateSnoc(current, MovedIds(prior, ids[..n], rows[..n]), MovedRows(prior, ids[..n], rows[..n]), ids[n], rows[n]);
      assert MovedIds(prior, ids[..n], rows[..n]) + [] == MovedIds(prior, ids[..n], rows[..n]);
      assert MovedRows(prior, ids[..n], rows[..n]) + [] == MovedRows(prior, ids[..n], rows[..n]);
    }
  }
}
