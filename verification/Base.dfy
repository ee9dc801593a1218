/** Option and the row-insertion primitive every staging script relies on. */
module Base {

  datatype Option<+T> = None | Some(value: T)

  ghost predicate Distinct<K>(keys: seq<K>) {
    forall i, j :: 0 <= i < j < |keys| ==> keys[i] != keys[j]
  }

  ghost predicate Fresh<K, V>(table: map<K, V>, keys: seq<K>) {
    forall k :: k in keys ==> k !in table
  }

  /** INSERT of several rows into a table with a primary key; row `i` has key
      `keys[i]`. One clash, with a stored row or inside the batch, raises and
      the transaction is rolled back: there is no partial result. */
  function InsertAll<K(==), V>(table: map<K, V>, keys: seq<K>, rows: seq<V>): (r: Option<map<K, V>>)
    requires |keys| == |rows|
    decreases |rows|
  {
    if rows == [] then Some(table)
    else
      var n := |rows| - 1;
      match InsertAll(table, keys[..n], rows[..n])
      case None => None
      case Some(t) => if keys[n] in t then None else Some(t[keys[n] := rows[n]])
  }

  /** What an INSERT that went through did: the stored rows are kept, each new
      row is found under its key, and nothing else appears. */
  ghost predicate Inserted<K, V>(table: map<K, V>, keys: seq<K>, rows: seq<V>, result: map<K, V>)
    requires |keys| == |rows|
  {
    && (forall k :: k in keys ==> k in result)
    && (forall k :: k in result ==> k in table || k in keys)
    && (forall k :: k in table ==> k in result && result[k] == table[k])
    && (forall i :: 0 <= i < |rows| ==> keys[i] in result && result[keys[i]] == rows[i])
    && |result| == |table| + |rows|
  }

  lemma {:induction false} InsertedSnoc<K, V>(table: map<K, V>, keys: seq<K>, rows: seq<V>, k: K, v: V, t: map<K, V>)
    requires |keys| == |rows| && Inserted(table, keys, rows, t) && k !in t
    ensures Inserted(table, keys + [k], rows + [v], t[k := v])
  {
  }

  lemma {:induction false} ClashSnoc<K, V>(table: map<K, V>, keys: seq<K>, k: K)
    ensures Fresh(table, keys + [k]) && Distinct(keys + [k]) <==>
            Fresh(table, keys) && Distinct(keys) && k !in table && k !in keys
  {
    var ks := keys + [k];
    assert ks[|keys|] == k && forall i :: 0 <= i < |keys| ==> ks[i] == keys[i];
    if Fresh(table, ks) && Distinct(ks) {
      assert forall q :: q in keys ==> q in ks;
      forall i | 0 <= i < |keys| ensures keys[i] != k { assert ks[i] != ks[|keys|]; }
    }
  }

  /** An INSERT goes through exactly when no key clashes. */
  lemma {:induction false} InsertAllSucceeds<K, V>(table: map<K, V>, keys: seq<K>, rows: seq<V>)
    requires |keys| == |rows|
    ensures InsertAll(table, keys, rows).Some? <==> Fresh(table, keys) && Distinct(keys)
    decreases |rows|
  {
    if rows != [] {
      var n := |rows| - 1;
      assert keys == keys[..n] + [keys[n]];
      InsertAllSucceeds(table, keys[..n], rows[..n]);
      ClashSnoc(table, keys[..n], keys[n]);
      InsertAllEffect(table, keys[..n], rows[..n]);
    }
  }

  lemma {:induction false} InsertAllEffect<K, V>(table: map<K, V>, keys: seq<K>, rows: seq<V>)
    requires |keys| == |rows|
    ensures InsertAll(table, keys, rows).Some? ==> Inserted(table, keys, rows, InsertAll(table, keys, rows).value)
    decreases |rows|
  {
    if rows != [] {
      var n := |rows| - 1;
      assert keys == keys[..n] + [keys[n]] && rows == rows[..n] + [rows[n]];
      InsertAllEffect(table, keys[..n], rows[..n]);
      if InsertAll(table, keys, rows).Some? {
        InsertedSnoc(table, keys[..n], rows[..n], keys[n], rows[n], InsertAll(table, keys[..n], rows[..n]).value);
      }
    }
  }

  // ---- keys that are not stored yet --------------------------------------------------

  /** The keys a script would insert: those it does not find. */
  function Missing<K(==), V>(table: map<K, V>, keys: seq<K>): seq<K> {
    if keys == [] then []
    else
      var n := |keys| - 1;
      Missing(table, keys[..n]) + if keys[n] in table then [] else [keys[n]]
  }

  /** No key that is not stored occurs twice. */
  ghost predicate NoNewTwice<K, V>(table: map<K, V>, keys: seq<K>) {
    forall i, j :: 0 <= i < j < |keys| && keys[i] !in table ==> keys[i] != keys[j]
  }

  lemma {:induction false} MissingMembers<K, V>(table: map<K, V>, keys: seq<K>)
    ensures forall k :: k in Missing(table, keys) <==> k in keys && k !in table
  {
    if keys != [] {
      var n := |keys| - 1;
      MissingMembers(table, keys[..n]);
      assert keys == keys[..n] + [keys[n]];
    }
  }

  lemma {:induction false} DistinctSnoc<K>(keys: seq<K>, k: K)
    ensures Distinct(keys + [k]) <==> Distinct(keys) && k !in keys
  {
    var ks := keys + [k];
    assert ks[|keys|] == k && forall i :: 0 <= i < |keys| ==> ks[i] == keys[i];
    if Distinct(ks) {
      forall i | 0 <= i < |keys| ensures keys[i] != k { assert ks[i] != ks[|keys|]; }
    }
  }

  /** Distinct keys are as many as the set of them. */
  lemma {:induction false} DistinctCount<K>(keys: seq<K>, s: set<K>)
    requires Distinct(keys) && forall k :: k in keys <==> k in s
    ensures |keys| == |s|
  {
    if keys == [] {
      assert s == {};
    } else {
      var n := |keys| - 1;
      assert keys == keys[..n] + [keys[n]];
      DistinctSnoc(keys[..n], keys[n]);
      DistinctCount(keys[..n], s - {keys[n]});
    }
  }

  lemma {:induction false} DistinctAppend<K>(xs: seq<K>, ys: seq<K>)
    requires Distinct(xs) && Distinct(ys) && forall y :: y in ys ==> y !in xs
    ensures Distinct(xs + ys)
  {
    var zs := xs + ys;
    forall i, j | 0 <= i < j < |zs| ensures zs[i] != zs[j] {
      if i < |xs| <= j { assert zs[j] in ys; } else if |xs| <= i { assert ys[i - |xs|] != ys[j - |xs|]; }
    }
  }

  lemma {:induction false} NoNewTwiceSnoc<K, V>(table: map<K, V>, keys: seq<K>, k: K)
    ensures NoNewTwice(table, keys + [k]) <==> NoNewTwice(table, keys) && (k in table || k !in keys)
  {
    var ks := keys + [k];
    assert ks[|keys|] == k && forall i :: 0 <= i < |keys| ==> ks[i] == keys[i];
    if NoNewTwice(table, ks) && k !in table {
      forall i | 0 <= i < |keys| ensures keys[i] != k { assert ks[i] in table || ks[i] != ks[|keys|]; }
    }
  }

  lemma {:induction false} MissingDistinct<K, V>(table: map<K, V>, keys: seq<K>)
    ensures Distinct(Missing(table, keys)) <==> NoNewTwice(table, keys)
  {
    if keys != [] {
      var n := |keys| - 1;
      var front := keys[..n];
      assert keys == front + [keys[n]];
      MissingDistinct(table, front);
      MissingMembers(table, front);
      NoNewTwiceSnoc(table, front, keys[n]);
      DistinctSnoc(Missing(table, front), keys[n]);
      if keys[n] in table { assert Missing(table, keys) == Missing(table, front); }
    }
  }

  /** Inserting what was not found goes through exactly when no new key comes twice. */
  lemma {:induction false} InsertMissing<K, V>(table: map<K, V>, keys: seq<K>, rows: seq<V>)
    requires |rows| == |Missing(table, keys)|
    ensures InsertAll(table, Missing(table, keys), rows).Some? <==> NoNewTwice(table, keys)
  {
    InsertAllSucceeds(table, Missing(table, keys), rows);
    MissingMembers(table, keys);
    MissingDistinct(table, keys);
  }
}
