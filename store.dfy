/**
 * The two repository tables, as the ORM presents them to the services: a map
 * from the composite primary key to the row stored under it. `save` inserts
 * new keys and updates existing ones; `find` with a `Between` filter on
 * `updated_time` and an ascending `(updated_time, station_id)` order returns
 * the rows of the window in key order.
 */
module Store {
  import opened Outcomes
  import opened Entities

  /** The keys the entities of a batch carry. */
  ghost function BatchKeys<R>(batch: seq<R>, keyOf: R -> Key): set<Key> {
    set i | 0 <= i < |batch| :: keyOf(batch[i])
  }

  /**
   * Saving a batch entity by entity: a key already present is updated, a new key
   * inserted. Afterwards the table holds its old keys and the batch's keys, no others.
   */
  function Upsert<R>(rows: map<Key, R>, batch: seq<R>, keyOf: R -> Key): (r: map<Key, R>)
    ensures r.Keys == rows.Keys + BatchKeys(batch, keyOf)
    decreases |batch|
  {
    if batch == [] then rows
    else
      var front := batch[..|batch| - 1];
      var last := batch[|batch| - 1];
      var r := Upsert(rows, front, keyOf)[keyOf(last) := last];
      assert BatchKeys(batch, keyOf) == BatchKeys(front, keyOf) + {keyOf(last)} by {
        forall k | k in BatchKeys(batch, keyOf)
          ensures k in BatchKeys(front, keyOf) + {keyOf(last)}
        {
          var i :| 0 <= i < |batch| && keyOf(batch[i]) == k;
          if i < |batch| - 1 { assert keyOf(front[i]) == k; }
        }
        forall k | k in BatchKeys(front, keyOf)
          ensures k in BatchKeys(batch, keyOf)
        {
          var i :| 0 <= i < |front| && keyOf(front[i]) == k;
          assert keyOf(batch[i]) == k;
        }
      }
      r
  }

  /** The last entity of `batch` whose key is `k`, if there is one. */
  function LastWithKey<R>(batch: seq<R>, k: Key, keyOf: R -> Key): (r: Option<R>)
    ensures r.Some? ==> keyOf(r.value) == k
    ensures r.Some? ==>
      exists i :: (0 <= i < |batch| && batch[i] == r.value
                   && forall j :: i < j < |batch| ==> keyOf(batch[j]) != k)
    ensures r.None? <==> forall i :: 0 <= i < |batch| ==> keyOf(batch[i]) != k
    decreases |batch|
  {
    if batch == [] then None
    else if keyOf(batch[|batch| - 1]) == k then Some(batch[|batch| - 1])
    else
      var front := batch[..|batch| - 1];
      var r := LastWithKey(front, k, keyOf);
      assert forall i :: 0 <= i < |batch| - 1 ==> front[i] == batch[i];
      assert r.Some? ==>
        exists i :: (0 <= i < |batch| && batch[i] == r.value
                     && forall j :: i < j < |batch| ==> keyOf(batch[j]) != k) by {
        if r.Some? {
          var i :| 0 <= i < |front| && front[i] == r.value && forall j :: i < j < |front| ==> keyOf(front[j]) != k;
          assert batch[i] == r.value && forall j :: i < j < |batch| ==> keyOf(batch[j]) != k;
        }
      }
      r
  }

  /** Every row is stored under its own key. */
  ghost predicate Consistent<R>(rows: map<Key, R>, keyOf: R -> Key) {
    forall k :: k in rows ==> keyOf(rows[k]) == k
  }

  /**
   * What a key holds after saving a batch: the last entity of the batch with
   * that key, or, when the batch has none, whatever it held before.
   */
  lemma {:induction false} UpsertAt<R>(rows: map<Key, R>, batch: seq<R>, keyOf: R -> Key, k: Key)
    ensures var u := Upsert(rows, batch, keyOf);
      match LastWithKey(batch, k, keyOf)
      case Some(e) => k in u && u[k] == e
      case None => (k in u <==> k in rows) && (k in rows ==> u[k] == rows[k])
    decreases |batch|
  {
    if batch != [] {
      UpsertAt(rows, batch[..|batch| - 1], keyOf, k);
    }
  }

  /** Keys that no entity of the batch carries are left exactly as they were. */
  lemma UpsertFrame<R>(rows: map<Key, R>, batch: seq<R>, keyOf: R -> Key, k: Key)
    requires forall i :: 0 <= i < |batch| ==> keyOf(batch[i]) != k
    ensures k in Upsert(rows, batch, keyOf) <==> k in rows
    ensures k in rows ==> Upsert(rows, batch, keyOf)[k] == rows[k]
  {
    UpsertAt(rows, batch, keyOf, k);
  }

  /** Every key of the batch is present afterwards, holding the batch's last entity with that key. */
  lemma UpsertStoresBatch<R>(rows: map<Key, R>, batch: seq<R>, keyOf: R -> Key, i: nat)
    requires i < |batch|
    ensures keyOf(batch[i]) in Upsert(rows, batch, keyOf)
    ensures LastWithKey(batch, keyOf(batch[i]), keyOf).Some?
    ensures Upsert(rows, batch, keyOf)[keyOf(batch[i])] == LastWithKey(batch, keyOf(batch[i]), keyOf).value
  {
    UpsertAt(rows, batch, keyOf, keyOf(batch[i]));
  }

  /** Saving the same batch a second time leaves the table as saving it once. */
  lemma UpsertIdempotent<R>(rows: map<Key, R>, batch: seq<R>, keyOf: R -> Key)
    ensures Upsert(Upsert(rows, batch, keyOf), batch, keyOf) == Upsert(rows, batch, keyOf)
  {
    var once := Upsert(rows, batch, keyOf);
    var twice := Upsert(once, batch, keyOf);
    forall k
      ensures (k in twice <==> k in once) && (k in once ==> twice[k] == once[k])
    {
      UpsertAt(rows, batch, keyOf, k);
      UpsertAt(once, batch, keyOf, k);
    }
    assert twice.Keys == once.Keys;
  }

  /** Saving keeps every row under its own key. */
  lemma UpsertConsistent<R>(rows: map<Key, R>, batch: seq<R>, keyOf: R -> Key)
    requires Consistent(rows, keyOf)
    ensures Consistent(Upsert(rows, batch, keyOf), keyOf)
  {
    var u := Upsert(rows, batch, keyOf);
    forall k | k in u
      ensures keyOf(u[k]) == k
    {
      UpsertAt(rows, batch, keyOf, k);
    }
  }

  /** Strictly ascending in key order, hence also free of duplicates. */
  ghost predicate Increasing(s: seq<Key>) {
    forall i, j :: 0 <= i < j < |s| ==> KeyLess(s[i], s[j])
  }

  ghost predicate IsLeast(m: Key, s: set<Key>) {
    m in s && forall k :: k in s ==> m == k || KeyLess(m, k)
  }

  lemma {:induction false} LeastExists(s: set<Key>)
    requires s != {}
    ensures exists m :: IsLeast(m, s)
    decreases |s|
  {
    var x :| x in s;
    if s != {x} {
      LeastExists(s - {x});
      var m :| IsLeast(m, s - {x});
      if KeyLess(x, m) {
        forall k | k in s
          ensures x == k || KeyLess(x, k)
        {
          if k != x && k != m {
            KeyLessTransitive(x, m, k);
          }
        }
        assert IsLeast(x, s);
      } else {
        KeyLessTotal(x, m);
        assert IsLeast(m, s);
      }
    } else {
      assert IsLeast(x, s);
    }
  }

  /** The keys of `s` in ascending order. */
  ghost function SortedKeys(s: set<Key>): (r: seq<Key>)
    ensures Increasing(r)
    ensures forall k :: k in r <==> k in s
    ensures |r| == |s|
    decreases |s|
  {
    if s == {} then []
    else
      LeastExists(s);
      var m :| IsLeast(m, s);
      var rest := SortedKeys(s - {m});
      assert forall j :: 0 <= j < |rest| ==> rest[j] in s - {m};
      [m] + rest
  }

  lemma HeadIsElement(s: seq<Key>)
    requires |s| != 0
    ensures s[0] in s
  {
  }

  /** Two ascending sequences with the same elements are the same sequence. */
  lemma {:induction false} IncreasingUnique(a: seq<Key>, b: seq<Key>)
    requires Increasing(a) && Increasing(b)
    requires forall k :: k in a <==> k in b
    ensures a == b
    decreases |a|
  {
    if a != [] && b != [] {
      assert a[0] in b && b[0] in a;
      if a[0] != b[0] {
        var i :| 0 <= i < |a| && a[i] == b[0];
        var j :| 0 <= j < |b| && b[j] == a[0];
        assert KeyLess(a[0], b[0]) && KeyLess(b[0], a[0]);
        KeyLessAsymmetric(a[0], b[0]);
      }
      forall k
        ensures k in a[1..] <==> k in b[1..]
      {
        if k in a[1..] {
          var i :| 1 <= i < |a| && a[i] == k;
          KeyLessIrreflexive(a[0]);
          assert k in b && k != b[0];
        }
        if k in b[1..] {
          var j :| 1 <= j < |b| && b[j] == k;
          KeyLessIrreflexive(b[0]);
          assert k in a && k != a[0];
        }
      }
      IncreasingUnique(a[1..], b[1..]);
      assert a == [a[0]] + a[1..] && b == [b[0]] + b[1..];
    } else if |a| != 0 {
      HeadIsElement(a);
      assert false;
    } else if |b| != 0 {
      HeadIsElement(b);
      assert false;
    }
  }

  /** `updated_time: Between(lo, hi)`: both bounds inclusive. */
  predicate InWindow(k: Key, lo: int, hi: int) {
    lo <= k.updated_time <= hi
  }

  ghost function SelectedKeys<R>(rows: map<Key, R>, lo: int, hi: int): set<Key> {
    set k | k in rows && InWindow(k, lo, hi)
  }

  /** The rows of the window, in ascending key order: what the ordered `find` returns. */
  ghost function WindowQuery<R>(rows: map<Key, R>, lo: int, hi: int): (r: seq<R>)
    ensures |r| == |SelectedKeys(rows, lo, hi)|
  {
    var keys := SortedKeys(SelectedKeys(rows, lo, hi));
    seq(|keys|, i requires 0 <= i < |keys| => rows[keys[i]])
  }

  /**
   * The query result holds exactly the rows of the window, each once, in strictly
   * ascending key order.
   */
  lemma WindowQueryMeaning<R>(rows: map<Key, R>, keyOf: R -> Key, lo: int, hi: int)
    requires Consistent(rows, keyOf)
    ensures var r := WindowQuery(rows, lo, hi);
      && (forall i :: 0 <= i < |r| ==> keyOf(r[i]) in rows && rows[keyOf(r[i])] == r[i] && InWindow(keyOf(r[i]), lo, hi))
      && (forall i, j :: 0 <= i < j < |r| ==> KeyLess(keyOf(r[i]), keyOf(r[j])))
      && (forall k :: k in rows && InWindow(k, lo, hi) ==> exists i :: 0 <= i < |r| && r[i] == rows[k])
  {
    var keys := SortedKeys(SelectedKeys(rows, lo, hi));
    var r := WindowQuery(rows, lo, hi);
    forall i | 0 <= i < |r|
      ensures keyOf(r[i]) in rows && rows[keyOf(r[i])] == r[i] && InWindow(keyOf(r[i]), lo, hi)
      ensures keyOf(r[i]) == keys[i]
    {
      assert keys[i] in SelectedKeys(rows, lo, hi);
    }
    forall k | k in rows && InWindow(k, lo, hi)
      ensures exists i :: 0 <= i < |r| && r[i] == rows[k]
    {
      assert k in SelectedKeys(rows, lo, hi);
      var i :| 0 <= i < |keys| && keys[i] == k;
      assert r[i] == rows[k];
    }
  }

  /** A repository table: rows keyed on `(updated_time, station_id)`. */
  class Table<R> {
    const keyOf: R -> Key
    var rows: map<Key, R>

    ghost predicate Valid()
      reads this
    {
      Consistent(rows, keyOf)
    }

    constructor (keyOf: R -> Key)
      ensures Valid() && this.keyOf == keyOf && rows == map[]
    {
      this.keyOf := keyOf;
      rows := map[];
    }

    /**
     * `repository.save(entities)`, run in one transaction: on success every entity
     * is inserted or updated; when the store rejects (`failure`), nothing changes.
     */
    method Save(batch: seq<R>, failure: Option<string>) returns (r: Result<nat>)
      requires Valid()
      modifies this
      ensures Valid()
      ensures rows == if failure.None? then Upsert(old(rows), batch, keyOf) else old(rows)
      ensures r == if failure.None? then Ok(|batch|) else Err(failure.value)
    {
      if failure.Some? {
        return Err(failure.value);
      }
      UpsertConsistent(rows, batch, keyOf);
      rows := Upsert(rows, batch, keyOf);
      r := Ok(|batch|);
    }

    /**
     * `find({ where: { updated_time: Between(lo, hi) }, order: { updated_time: 'ASC',
     * station_id: 'ASC' } })`: the window's keys are read in ascending order.
     */
    method Find(lo: int, hi: int) returns (r: seq<R>)
      requires Valid()
      ensures r == WindowQuery(rows, lo, hi)
    {
      var selected := set k | k in rows.Keys && InWindow(k, lo, hi);
      assert selected == SelectedKeys(rows, lo, hi);
      var pending := selected;
      var keys: seq<Key> := [];
      while pending != {}
        invariant pending <= selected
        invariant forall k :: k in keys <==> k in selected && k !in pending
        invariant Increasing(keys)
        invariant forall i, k :: 0 <= i < |keys| && k in pending ==> KeyLess(keys[i], k)
        decreases |pending|
      {
        LeastExists(pending);
        var m :| m in pending && forall k :: k in pending ==> m == k || KeyLess(m, k);
        keys := keys + [m];
        pending := pending - {m};
      }
      IncreasingUnique(keys, SortedKeys(selected));
      var table := rows;
      assert forall i :: 0 <= i < |keys| ==> keys[i] in selected;
      assert forall i :: 0 <= i < |keys| ==> keys[i] in table;
      r := seq(|keys|, i requires 0 <= i < |keys| => table[keys[i]]);
      assert forall i :: 0 <= i < |r| ==> r[i] == WindowQuery(rows, lo, hi)[i];
    }
  }
}
