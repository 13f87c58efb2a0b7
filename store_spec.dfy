/**
 * The key-value contract of a store as pure state transitions. A `Snapshot`
 * is everything the operations read or write apart from the iteration cursor:
 * the rows of the backing table, the in-process cache `$data`, and the
 * `$loaded` flag. Each `...Step` function gives an operation's reply together
 * with the snapshot it leaves behind; the class `Store` is proved to follow them.
 */
module StoreSpec {
  import opened Wrappers
  import opened Php
  import opened Rows

  /** Failures of the store: PHP's `InvalidArgumentException`, the database refusing a statement, and a cursor that was never opened. */
  datatype Error = InvalidArgument(message: string) | ConstraintViolation | NoCursor

  const KeyNotString := "Expected string as key"
  const ValueComposite := "Object and Array value is not allowed"
  const ValueNotString := "Expected string as value"
  const ValueNotInt := "Expected integer as value"
  /** The message the source raises when `setBoolean` gets a non-boolean. */
  const ValueNotBool := "Expected float as value"
  const AmountNotInt := "Expected integer as amount"

  datatype Snapshot = Snapshot(table: map<string, string>, cache: map<string, string>, loaded: bool)

  /** Cache coherence: every cached entry is the table's entry for its key. */
  ghost predicate Coherent(s: Snapshot) {
    forall k :: k in s.cache ==> k in s.table && s.cache[k] == s.table[k]
  }

  /** What a point `SELECT` on key `k` finds in table `t`. */
  function TableValue(t: map<string, string>, k: string): Option<string> {
    if k in t then Some(t[k]) else None
  }

  /**
   * `get($key)`: the cache first; on a miss, while the store is not fully
   * loaded, the table, caching the row it finds.
   */
  function GetStep(s: Snapshot, key: Mixed): (r: (Result<Option<string>, Error>, Snapshot))
    ensures !key.Str? ==> r == (Err(InvalidArgument(KeyNotString)), s)
    ensures r.1.table == s.table && r.1.loaded == s.loaded
    ensures key.Str? && key.s in s.cache ==> r == (Ok(Some(s.cache[key.s])), s)
    ensures key.Str? && key.s !in s.cache && !s.loaded ==>
      r.0 == Ok(TableValue(s.table, key.s)) &&
      r.1.cache == (if key.s in s.table then s.cache[key.s := s.table[key.s]] else s.cache)
    ensures key.Str? && key.s !in s.cache && s.loaded ==> r == (Ok(None), s)
    ensures key.Str? && Coherent(s) && !s.loaded ==>
      r.0 == Ok(TableValue(s.table, key.s)) && Coherent(r.1)
  {
    if !key.Str? then (Err(InvalidArgument(KeyNotString)), s)
    else if key.s in s.cache then (Ok(Some(s.cache[key.s])), s)
    else if !s.loaded && key.s in s.table then
      (Ok(Some(s.table[key.s])), s.(cache := s.cache[key.s := s.table[key.s]]))
    else (Ok(None), s)
  }

  /**
   * `_set($key, $value)`: `UPDATE` when the key is cached, `INSERT` otherwise;
   * the cache is written only once the statement succeeded. An `INSERT` of a
   * key the table already holds is refused by its `PRIMARY KEY`.
   */
  function SetStep(s: Snapshot, key: Mixed, value: string): (r: (Result<string, Error>, Snapshot))
    ensures r.0.Ok? ==> r.0.value == value
    ensures r.0.Err? ==> r.1 == s
    ensures r.0.Err? <==> !key.Str? || (key.s !in s.cache && key.s in s.table)
    ensures !key.Str? ==> r.0 == Err(InvalidArgument(KeyNotString))
    ensures r.1.loaded == s.loaded
    ensures r.0.Ok? && Coherent(s) ==>
      Coherent(r.1) &&
      r.1.table == s.table[key.s := value] && r.1.cache == s.cache[key.s := value]
  {
    if !key.Str? then (Err(InvalidArgument(KeyNotString)), s)
    else if key.s in s.cache then
      // UPDATE <store> SET value = :value WHERE key = :key
      var t := if key.s in s.table then s.table[key.s := value] else s.table;
      (Ok(value), s.(table := t, cache := s.cache[key.s := value]))
    else if key.s in s.table then (Err(ConstraintViolation), s)
    else
      // INSERT INTO <store> VALUES (:key, :value)
      (Ok(value), s.(table := s.table[key.s := value], cache := s.cache[key.s := value]))
  }

  /** `delete($key)`: removes the row, present or not, and the cached entry. */
  function DeleteStep(s: Snapshot, key: string): (r: Snapshot)
    ensures key !in r.table && key !in r.cache && r.loaded == s.loaded
    ensures forall k :: k != key ==> TableValue(r.table, k) == TableValue(s.table, k)
    ensures r.cache == s.cache - {key}
    ensures Coherent(s) ==> Coherent(r)
  {
    s.(table := s.table - {key}, cache := s.cache - {key})
  }

  /** `deleteAll()`: empties the table and the cache; `$loaded` is left as it was. */
  function DeleteAllStep(s: Snapshot): (r: Snapshot)
    ensures |r.table| == 0 && r.cache == map[] && r.loaded == s.loaded
    ensures Coherent(r)
  {
    s.(table := map[], cache := map[])
  }

  /**
   * `getAll()`: unless fully loaded, merges every table row into the cache;
   * the reply is the cache.
   */
  function GetAllStep(s: Snapshot): (r: Snapshot)
    ensures r.table == s.table && r.loaded == s.loaded
    ensures s.cache.Keys <= r.cache.Keys
    ensures Coherent(s) ==> Coherent(r) && (!s.loaded ==> r.cache == s.table)
  {
    if s.loaded then s else s.(cache := s.cache + s.table)
  }

  /**
   * The integer `increment` writes: the current value plus `amount` when the
   * current value is non-empty and numeric, otherwise `amount` itself.
   */
  function IncrementedTotal(current: Option<string>, amount: Int64): (total: int)
    ensures total == (if current.Some? && IsNumeric(current.value) then IntVal(current.value) else 0) + amount
  {
    assert IntVal("0") == 0 by { assert "0"[1..] == ""; assert AllDigits("0"); }
    if ToBool(current) && IsNumeric(current.value) then IntVal(current.value) + amount else amount
  }

  /**
   * `increment($key, $amount)`: a `get`, then a `setInt` of the new total.
   * A total outside PHP's integer range becomes a float, which `setInt` rejects.
   */
  function IncrementStep(s: Snapshot, key: Mixed, amount: Mixed): (r: (Result<(), Error>, Snapshot))
    ensures !amount.Int? ==> r == (Err(InvalidArgument(AmountNotInt)), s)
    ensures amount.Int? && !key.Str? ==> r == (Err(InvalidArgument(KeyNotString)), s)
    ensures r.1.loaded == s.loaded
    ensures key.Str? && amount.Int? && Coherent(s) && !s.loaded ==>
      var total := IncrementedTotal(TableValue(s.table, key.s), amount.i);
      Coherent(r.1) &&
      (r.0.Ok? <==> InInt64(total)) &&
      (r.0.Ok? ==> r.1.table == s.table[key.s := IntToString(total)]) &&
      (r.0.Ok? ==> r.1.cache == s.cache[key.s := IntToString(total)]) &&
      (r.0.Err? ==> r.0.error == InvalidArgument(ValueNotInt) && r.1 == GetStep(s, key).1)
  {
    if !amount.Int? then (Err(InvalidArgument(AmountNotInt)), s)
    else
      var (got, s1) := GetStep(s, key);
      if got.Err? then (Err(got.error), s1)
      else
        var total := IncrementedTotal(got.value, amount.i);
        if !InInt64(total) then (Err(InvalidArgument(ValueNotInt)), s1)
        else
          var (put, s2) := SetStep(s1, key, IntToString(total));
          (if put.Ok? then Ok(()) else Err(put.error), s2)
  }

  /** Incrementing a stored integer adds to it, also when it is zero. */
  lemma IncrementStoredInt(n: Int64, amount: Int64)
    ensures IncrementedTotal(Some(IntToString(n)), amount) == n + amount
  {
    IntStringRoundTrip(n);
  }

  /** A successful `_set` is read back by `get`, and no other key changes. */
  lemma GetAfterSet(s: Snapshot, k: string, v: string, other: string)
    requires Coherent(s) && !s.loaded
    requires SetStep(s, Str(k), v).0.Ok?
    ensures GetStep(SetStep(s, Str(k), v).1, Str(k)).0 == Ok(Some(v))
    ensures other != k ==>
      GetStep(SetStep(s, Str(k), v).1, Str(other)).0 == GetStep(s, Str(other)).0
  {
  }

  /** Setting a key twice leaves the second value: the second write is an `UPDATE`. */
  lemma SetTwice(s: Snapshot, k: string, v1: string, v2: string)
    requires Coherent(s) && !s.loaded
    requires SetStep(s, Str(k), v1).0.Ok?
    ensures var s1 := SetStep(s, Str(k), v1).1;
      SetStep(s1, Str(k), v2).0 == Ok(v2) &&
      GetStep(SetStep(s1, Str(k), v2).1, Str(k)).0 == Ok(Some(v2))
  {
  }

  /** On a store that has not read key `k`, a write to a stored `k` is refused and changes nothing. */
  lemma SetUncachedStoredKeyFails(s: Snapshot, k: string, v: string)
    requires k in s.table && k !in s.cache
    ensures SetStep(s, Str(k), v) == (Err(ConstraintViolation), s)
  {
  }

  /** Once `get` has read `k`, a write to it succeeds. */
  lemma SetAfterGetSucceeds(s: Snapshot, k: string, v: string)
    requires Coherent(s) && !s.loaded
    ensures SetStep(GetStep(s, Str(k)).1, Str(k), v).0 == Ok(v)
  {
  }

  /** After `delete`, `get` finds nothing, whether or not the key existed. */
  lemma GetAfterDelete(s: Snapshot, k: string)
    requires Coherent(s) && !s.loaded
    ensures GetStep(DeleteStep(s, k), Str(k)).0 == Ok(None)
  {
  }

  /** After `deleteAll`, `getAll` returns the empty map, the table has no rows and `get` finds nothing. */
  lemma GetAllAfterDeleteAll(s: Snapshot, k: string)
    ensures GetAllStep(DeleteAllStep(s)).cache == map[]
    ensures |DeleteAllStep(s).table| == 0
    ensures GetStep(DeleteAllStep(s), Str(k)).0 == Ok(None)
  {
  }

  /** The store after `increment($key, $a)` for each amount in turn; a failed step changes nothing further. */
  function IncrementAll(s: Snapshot, k: string, amounts: seq<Int64>): Snapshot {
    if amounts == [] then s
    else IncrementStep(IncrementAll(s, k, amounts[..|amounts| - 1]), Str(k), Int(amounts[|amounts| - 1])).1
  }

  function Sum(xs: seq<int>): int {
    if xs == [] then 0 else Sum(xs[..|xs| - 1]) + xs[|xs| - 1]
  }

  /**
   * Increments of an absent key accumulate: as long as no running total leaves
   * PHP's integer range, the key ends up holding the sum of the amounts.
   */
  lemma {:induction false} IncrementsAccumulate(s: Snapshot, k: string, amounts: seq<Int64>)
    requires Coherent(s) && !s.loaded && k !in s.table
    requires forall i :: 0 < i <= |amounts| ==> InInt64(Sum(amounts[..i]))
    ensures Coherent(IncrementAll(s, k, amounts)) && !IncrementAll(s, k, amounts).loaded
    ensures TableValue(IncrementAll(s, k, amounts).table, k) ==
      if amounts == [] then None else Some(IntToString(Sum(amounts)))
  {
    if amounts != [] {
      var n := |amounts| - 1;
      var prefix := amounts[..n];
      forall i | 0 < i <= |prefix| ensures InInt64(Sum(prefix[..i])) {
        assert prefix[..i] == amounts[..i];
      }
      IncrementsAccumulate(s, k, prefix);
      var mid := IncrementAll(s, k, prefix);
      var a := amounts[n];
      assert amounts[..|amounts|] == amounts;
      assert Sum(amounts) == Sum(prefix) + a;
      var total := IncrementedTotal(TableValue(mid.table, k), a);
      assert total == Sum(amounts) by {
        if prefix != [] {
          IncrementStoredInt(Sum(prefix), a);
        }
      }
      assert InInt64(total);
      var after := IncrementStep(mid, Str(k), Int(a));
      assert IncrementAll(s, k, amounts) == after.1;
      assert after.0.Ok? && after.1.table == mid.table[k := IntToString(total)];
    }
  }

  /** `increment($key)` with the default amount, `n` times from an absent key, leaves `"n"`. */
  lemma DefaultIncrements(s: Snapshot, k: string, n: nat)
    requires Coherent(s) && !s.loaded && k !in s.table
    requires 0 < n <= 0x7fff_ffff_ffff_ffff
    ensures TableValue(IncrementAll(s, k, seq(n, _ => 1)).table, k) == Some(IntToString(n))
  {
    var ones: seq<Int64> := seq(n, _ => 1);
    forall i | 0 < i <= n ensures InInt64(Sum(ones[..i])) {
      SumOfOnes(ones[..i]);
    }
    IncrementsAccumulate(s, k, ones);
    SumOfOnes(ones);
  }

  lemma {:induction false} SumOfOnes(xs: seq<int>)
    requires forall i :: 0 <= i < |xs| ==> xs[i] == 1
    ensures Sum(xs) == |xs|
  {
    if xs != [] {
      SumOfOnes(xs[..|xs| - 1]);
    }
  }

  /** The store after `set($key, $value)` for each row in turn. */
  function SetAll(s: Snapshot, rows: seq<Row>): Snapshot {
    if rows == [] then s
    else
      var last := rows[|rows| - 1];
      SetStep(SetAll(s, rows[..|rows| - 1]), Str(last.0), last.1).1
  }

  /**
   * Writing rows under keys that are new and distinct inserts every one of
   * them, and the cache stays coherent.
   */
  lemma {:induction false} InsertsAll(s: Snapshot, rows: seq<Row>)
    requires Coherent(s)
    requires DistinctKeys(rows)
    requires forall i :: 0 <= i < |rows| ==> rows[i].0 !in s.table
    ensures Coherent(SetAll(s, rows))
    ensures SetAll(s, rows).table == s.table + RowsToMap(rows)
  {
    if rows != [] {
      var n := |rows| - 1;
      var prefix := rows[..n];
      var (k, v) := rows[n];
      assert DistinctKeys(prefix) && forall i :: 0 <= i < |prefix| ==> prefix[i].0 !in s.table by {
        forall i | 0 <= i < |prefix| ensures prefix[i] == rows[i] { }
      }
      InsertsAll(s, prefix);
      var mid := SetAll(s, prefix);
      assert k !in RowsToMap(prefix) by {
        if k in RowsToMap(prefix) {
          var i := KeyHasRow(prefix, k);
          assert false;
        }
      }
      assert SetAll(s, rows) == SetStep(mid, Str(k), v).1;
      assert SetAll(s, rows).table == mid.table[k := v];
      assert RowsToMap(rows) == RowsToMap(prefix)[k := v];
    }
  }

  /** Inserting rows under new, distinct keys grows the row count by the number of rows. */
  lemma CountAfterInserts(s: Snapshot, rows: seq<Row>)
    requires Coherent(s)
    requires DistinctKeys(rows)
    requires forall i :: 0 <= i < |rows| ==> rows[i].0 !in s.table
    ensures |SetAll(s, rows).table| == |s.table| + |rows|
  {
    InsertsAll(s, rows);
    var added := RowsToMap(rows);
    ScanSize(rows, added);
    assert s.table.Keys !! added.Keys by {
      forall k | k in added ensures k !in s.table {
        var i := KeyHasRow(rows, k);
      }
    }
    assert (s.table + added).Keys == s.table.Keys + added.Keys;
  }
}
