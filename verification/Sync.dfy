/** The upsert of the commercial importer: insert what is missing, rewrite the
    stored rows that moved, leave everything else alone. */
module Sync {
  import opened Base

  /** The rows whose id is not stored yet, beside `Missing`. */
  function NewRows<V>(table: map<string, V>, ids: seq<string>, rows: seq<V>): (r: seq<V>)
    requires |ids| == |rows|
    ensures |r| == |Missing(table, ids)|
  {
    if rows == [] then []
    else
      var n := |rows| - 1;
      NewRows(table, ids[..n], rows[..n]) + if ids[n] in table then [] else [rows[n]]
  }

  predicate Moved<V(==)>(table: map<string, V>, id: string, row: V) { id in table && table[id] != row }

  function CountMoved<V(==)>(table: map<string, V>, ids: seq<string>, rows: seq<V>): nat
    requires |ids| == |rows|
  {
    if rows == [] then 0
    else
      var n := |rows| - 1;
      CountMoved(table, ids[..n], rows[..n]) + if Moved(table, ids[n], rows[n]) then 1 else 0
  }

  /** UPDATE for every row that differs from the stored one, in order: `prior` is
      what was read before writing, `current` what is being written. */
  function WriteMoved<V(==)>(prior: map<string, V>, current: map<string, V>, ids: seq<string>, rows: seq<V>): map<string, V>
    requires |ids| == |rows|
  {
    if rows == [] then current
    else
      var n := |rows| - 1;
      var t := WriteMoved(prior, current, ids[..n], rows[..n]);
      if Moved(prior, ids[n], rows[n]) && ids[n] in t then t[ids[n] := rows[n]] else t
  }

  /** None when an insert clashes: the transaction is rolled back. */
  function SyncAll<V(==)>(table: map<string, V>, ids: seq<string>, rows: seq<V>): Option<map<string, V>>
    requires |ids| == |rows|
  {
    match InsertAll(table, Missing(table, ids), NewRows(table, ids, rows))
    case None => None
    case Some(t) => Some(WriteMoved(table, t, ids, rows))
  }

  // ---- what a sync leaves behind -------------------------------------------------

  /** `row` is what the batch holds for `id`. */
  ghost predicate Offered<V>(ids: seq<string>, rows: seq<V>, id: string, row: V)
    requires |ids| == |rows|
  {
    exists i :: 0 <= i < |ids| && ids[i] == id && rows[i] == row
  }

  lemma {:induction false} OfferedSnoc<V>(ids: seq<string>, rows: seq<V>, id: string, row: V)
    requires |ids| == |rows| > 0
    ensures Offered(ids, rows, id, row) <==>
            Offered(ids[..|ids| - 1], rows[..|ids| - 1], id, row) || (ids[|ids| - 1] == id && rows[|ids| - 1] == row)
  {
  }

  lemma {:induction false} NewRowsOffered<V>(table: map<string, V>, ids: seq<string>, rows: seq<V>)
    requires |ids| == |rows|
    ensures forall k :: 0 <= k < |Missing(table, ids)| ==> Offered(ids, rows, Missing(table, ids)[k], NewRows(table, ids, rows)[k])
  {
    hide Offered;
    if rows != [] {
      var n := |rows| - 1;
      NewRowsOffered(table, ids[..n], rows[..n]);
      var ms, rs := Missing(table, ids[..n]), NewRows(table, ids[..n], rows[..n]);
      forall k | 0 <= k < |Missing(table, ids)|
        ensures Offered(ids, rows, Missing(table, ids)[k], NewRows(table, ids, rows)[k])
      {
        OfferedSnoc(ids, rows, Missing(table, ids)[k], NewRows(table, ids, rows)[k]);
        if k < |ms| {
          assert Missing(table, ids)[k] == ms[k] && NewRows(table, ids, rows)[k] == rs[k];
        }
      }
    }
  }

  /** Where a written id ends up: with a row of the batch if one of them moved,
      with what it was otherwise. */
  lemma {:induction false} WriteMovedAt<V>(prior: map<string, V>, current: map<string, V>, ids: seq<string>, rows: seq<V>, id: string)
    requires |ids| == |rows| && forall k :: k in prior ==> k in current
    ensures WriteMoved(prior, current, ids, rows).Keys == current.Keys
    ensures id !in prior || id !in ids ==> (id in current ==> WriteMoved(prior, current, ids, rows)[id] == current[id])
    ensures id in prior && id in ids && current[id] == prior[id] ==> Offered(ids, rows, id, WriteMoved(prior, current, ids, rows)[id])
  {
    hide Offered;
    if rows != [] {
      var n := |rows| - 1;
      assert ids == ids[..n] + [ids[n]];
      WriteMovedAt(prior, current, ids[..n], rows[..n], id);
      var t := WriteMoved(prior, current, ids, rows);
      if id in current { OfferedSnoc(ids, rows, id, t[id]); }
    }
  }

  /** A sync keeps every id, adds exactly the batch's, leaves rows outside the
      batch alone, and leaves every id of the batch with one of its rows. */
  ghost predicate Synced<V>(table: map<string, V>, ids: seq<string>, rows: seq<V>, result: map<string, V>)
    requires |ids| == |rows|
  {
    && (forall id :: id in result <==> id in table || id in ids)
    && (forall id :: id in table && id !in ids ==> result[id] == table[id])
    && (forall id :: id in ids ==> Offered(ids, rows, id, result[id]))
  }

  lemma {:induction false} SyncEffect<V>(table: map<string, V>, ids: seq<string>, rows: seq<V>)
    requires |ids| == |rows|
    ensures SyncAll(table, ids, rows).Some? ==> Synced(table, ids, rows, SyncAll(table, ids, rows).value)
  {
    hide Offered, WriteMoved, NewRows, Missing, InsertAll;
    var ms, rs := Missing(table, ids), NewRows(table, ids, rows);
    if InsertAll(table, ms, rs).Some? {
      var t := InsertAll(table, ms, rs).value;
      InsertAllEffect(table, ms, rs);
      MissingMembers(table, ids);
      NewRowsOffered(table, ids, rows);
      var result := WriteMoved(table, t, ids, rows);
      forall id ensures id in result <==> id in table || id in ids { WriteMovedAt(table, t, ids, rows, id); }
      forall id | id in table && id !in ids ensures result[id] == table[id] { WriteMovedAt(table, t, ids, rows, id); }
      forall id | id in ids ensures Offered(ids, rows, id, result[id]) {
        WriteMovedAt(table, t, ids, rows, id);
        if id !in table {
          var k :| 0 <= k < |ms| && ms[k] == id;
          assert t[ms[k]] == rs[k];
        }
      }
    }
  }

  /** A sync goes through exactly when no id that is not stored comes twice. */
  lemma {:induction false} SyncSucceeds<V>(table: map<string, V>, ids: seq<string>, rows: seq<V>)
    requires |ids| == |rows|
    ensures SyncAll(table, ids, rows).Some? <==> NoNewTwice(table, ids)
  {
    InsertMissing(table, ids, NewRows(table, ids, rows));
  }

  /** Row `k` is the one its id ends up with: no later row of the id is written over
      it, and it is written itself or none of its id is. */
  ghost predicate Lasting<V>(table: map<string, V>, ids: seq<string>, rows: seq<V>, k: nat)
    requires k < |ids| == |rows|
  {
    && (forall j :: k < j < |ids| && ids[j] == ids[k] ==> !Moved(table, ids[j], rows[j]))
    && (Moved(table, ids[k], rows[k]) || forall j :: 0 <= j < k && ids[j] == ids[k] ==> !Moved(table, ids[j], rows[j]))
  }

  lemma {:induction false} SomeLasts<V>(table: map<string, V>, ids: seq<string>, rows: seq<V>, id: string) returns (k: nat)
    requires |ids| == |rows| && id in ids
    ensures k < |ids| && ids[k] == id && Lasting(table, ids, rows, k)
  {
    hide Moved;
    var n := |rows| - 1;
    assert ids == ids[..n] + [ids[n]];
    k := n;
    if id in ids[..n] {
      var m := SomeLasts(table, ids[..n], rows[..n], id);
      if ids[n] != id || !Moved(table, ids[n], rows[n]) { k := m; }
    }
  }

  lemma {:induction false} NoneMoves<V>(prior: map<string, V>, current: map<string, V>, ids: seq<string>, rows: seq<V>, id: string)
    requires |ids| == |rows| && id in current && forall j :: 0 <= j < |ids| && ids[j] == id ==> !Moved(prior, ids[j], rows[j])
    ensures id in WriteMoved(prior, current, ids, rows) && WriteMoved(prior, current, ids, rows)[id] == current[id]
  {
    hide Moved;
    if rows != [] { NoneMoves(prior, current, ids[..|ids| - 1], rows[..|rows| - 1], id); }
  }

  lemma {:induction false} WrittenLast<V>(prior: map<string, V>, current: map<string, V>, ids: seq<string>, rows: seq<V>, k: nat)
    requires k < |ids| == |rows| && ids[k] in prior && ids[k] in current && current[ids[k]] == prior[ids[k]]
    requires Lasting(prior, ids, rows, k)
    ensures ids[k] in WriteMoved(prior, current, ids, rows) && WriteMoved(prior, current, ids, rows)[ids[k]] == rows[k]
  {
    var n := |rows| - 1;
    if !Moved(prior, ids[k], rows[k]) {
      NoneMoves(prior, current, ids, rows, ids[k]);
    } else if k < n {
      WrittenLast(prior, current, ids[..n], rows[..n], k);
    } else {
      WriteMovedKeeps(prior, current, ids[..n], rows[..n], ids[n]);
    }
  }

  lemma {:induction false} WriteMovedKeeps<V>(prior: map<string, V>, current: map<string, V>, ids: seq<string>, rows: seq<V>, id: string)
    requires |ids| == |rows|
    ensures id in WriteMoved(prior, current, ids, rows) <==> id in current
  {
    if rows != [] { WriteMovedKeeps(prior, current, ids[..|ids| - 1], rows[..|rows| - 1], id); }
  }

  /** Repeated or not, every id ends up with its lasting row. */
  lemma {:induction false} SyncLasts<V>(table: map<string, V>, ids: seq<string>, rows: seq<V>, k: nat)
    requires k < |ids| == |rows| && SyncAll(table, ids, rows).Some? && Lasting(table, ids, rows, k)
    ensures ids[k] in SyncAll(table, ids, rows).value && SyncAll(table, ids, rows).value[ids[k]] == rows[k]
  {
    hide WriteMoved, NewRows, Missing, InsertAll, Lasting;
    SyncEffect(table, ids, rows);
    SyncSucceeds(table, ids, rows);
    assert ids[k] in ids;
    if ids[k] in table {
      InsertAllEffect(table, Missing(table, ids), NewRows(table, ids, rows));
      MissingMembers(table, ids);
      WrittenLast(table, InsertAll(table, Missing(table, ids), NewRows(table, ids, rows)).value, ids, rows, k);
    }
  }

  lemma {:induction false} DistinctOffer<V>(ids: seq<string>, rows: seq<V>, i: nat, row: V)
    requires |ids| == |rows| && Distinct(ids) && i < |ids| && Offered(ids, rows, ids[i], row)
    ensures row == rows[i]
  {
  }

  /** With distinct ids the batch is stored exactly. */
  lemma {:induction false} SyncExact<V>(table: map<string, V>, ids: seq<string>, rows: seq<V>)
    requires |ids| == |rows| && Distinct(ids)
    ensures SyncAll(table, ids, rows).Some?
    ensures var t := SyncAll(table, ids, rows).value; forall i :: 0 <= i < |ids| ==> ids[i] in t && t[ids[i]] == rows[i]
  {
    hide SyncAll, Offered;
    SyncSucceeds(table, ids, rows);
    SyncEffect(table, ids, rows);
    var t := SyncAll(table, ids, rows).value;
    forall i | 0 <= i < |ids| ensures ids[i] in t && t[ids[i]] == rows[i] {
      assert ids[i] in ids;
      DistinctOffer(ids, rows, i, t[ids[i]]);
    }
  }

  /** Nothing to write: a second sync of the same batch changes nothing. */
  lemma {:induction false} SyncSettled<V>(table: map<string, V>, ids: seq<string>, rows: seq<V>)
    requires |ids| == |rows| && forall i :: 0 <= i < |ids| ==> ids[i] in table && table[ids[i]] == rows[i]
    ensures SyncAll(table, ids, rows) == Some(table)
    ensures Missing(table, ids) == [] && CountMoved(table, ids, rows) == 0
  {
    if rows != [] {
      var n := |rows| - 1;
      SyncSettled(table, ids[..n], rows[..n]);
    }
  }
}
