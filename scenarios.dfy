/**
 * Client programs that drive a `Store` the way the repository's test suite
 * does, each on a freshly opened store, with what the tests assert proved as
 * postconditions.
 */
module StoreScenarios {
  import opened Wrappers
  import opened Php
  import opened Rows
  import opened StoreSpec
  import opened NoSQLite

  /**
   * PHP's `foreach ($store as $key => $value)`: `rewind`, then while `valid`,
   * read `key` and `current` and move on with `next`.
   */
  method ForEach(store: Store, scan: seq<Row>) returns (seen: seq<Row>)
    requires store.Consistent() && IsScanOf(scan, store.table)
    modifies store
    ensures store.Consistent() && store.State() == old(store.State())
    ensures seen == scan
  {
    store.Rewind(scan);
    seen := [];
    var more := store.Valid();
    while more
      invariant store.Consistent() && store.State() == old(store.State())
      invariant store.cursor.Open? && store.cursor.rows == scan
      invariant seen == scan[..store.cursor.pos]
      invariant more <==> store.cursor.pos < |scan|
      decreases |scan| - store.cursor.pos
    {
      var value := store.Current();
      var key := store.Key();
      seen := seen + [(key.value, value.value)];
      var _ := store.Next();
      more := store.Valid();
    }
  }

  /** A value written through one store object is read by a new store object over the same table. */
  method FirstGet(existing: map<string, string>, key: string, value: string) returns (got: Result<Option<string>, Error>)
    requires key !in existing
    ensures got == Ok(Some(value))
  {
    var first := new Store(existing);
    var _ := first.Set(Str(key), Str(value));
    var second := new Store(first.table);
    got := second.Get(Str(key));
  }

  /** After `deleteAll` and two writes, `getAll` returns exactly the two pairs. */
  method GetAllAfterWrites(existing: map<string, string>, scan: seq<Row>) returns (all: map<string, string>)
    requires IsScanOf(scan, map["_1" := "value1", "_2" := "value2"])
    ensures all == map["_1" := "value1", "_2" := "value2"]
  {
    var store := new Store(existing);
    store.DeleteAll();
    var _ := store.Set(Str("_1"), Str("value1"));
    var _ := store.Set(Str("_2"), Str("value2"));
    all := store.GetAll(scan);
  }

  /** A scalar written with `set` reads back as its string form. */
  method SetGetValue(existing: map<string, string>, key: string, value: Mixed) returns (got: Result<Option<string>, Error>)
    requires key !in existing && IsScalar(value)
    ensures got == Ok(Some(ToPhpString(value)))
  {
    var store := new Store(existing);
    var _ := store.Set(Str(key), value);
    got := store.Get(Str(key));
  }

  /** A second `set` of the same key replaces the first value. */
  method UpdateValue(existing: map<string, string>, key: string, v1: string, v2: string) returns (got: Result<Option<string>, Error>)
    requires key !in existing
    ensures got == Ok(Some(v2))
  {
    var store := new Store(existing);
    var _ := store.Set(Str(key), Str(v1));
    var _ := store.Set(Str(key), Str(v2));
    got := store.Get(Str(key));
  }

  /** `set` with a non-string key, or with an array value, fails before writing anything. */
  method SetExceptions(existing: map<string, string>) returns (badKey: Result<string, Error>, badValue: Result<string, Error>, rows: map<string, string>)
    ensures badKey == Err(InvalidArgument(KeyNotString))
    ensures badValue == Err(InvalidArgument(ValueComposite))
    ensures rows == existing
  {
    var store := new Store(existing);
    badKey := store.Set(Int(0), Str("value"));
    badValue := store.Set(Str("array"), Arr);
    rows := store.table;
  }

  /** `get` with a non-string key fails. */
  method GetExceptions(existing: map<string, string>) returns (got: Result<Option<string>, Error>)
    ensures got == Err(InvalidArgument(KeyNotString))
  {
    var store := new Store(existing);
    got := store.Get(Int(10));
  }

  /** An integer written with `setInt` reads back as its decimal form, which parses back to it. */
  method SetGetInt(existing: map<string, string>, key: string, n: Int64) returns (got: Result<Option<string>, Error>)
    requires key !in existing
    ensures got.Ok? && got.value.Some? && IsNumeric(got.value.value) && IntVal(got.value.value) == n
  {
    var store := new Store(existing);
    var _ := store.SetInt(Str(key), Int(n));
    got := store.Get(Str(key));
    IntStringRoundTrip(n);
  }

  /** A flag written with `setBoolean` reads back unchanged through `getBoolean`. */
  method SetGetBoolean(existing: map<string, string>, key: string, b: bool) returns (got: Result<bool, Error>)
    requires key !in existing
    ensures got == Ok(b)
  {
    var store := new Store(existing);
    var _ := store.SetBoolean(Str(key), Bool(b));
    got := store.GetBoolean(Str(key));
    BooleanRoundTrip(b);
  }

  /** `times` default increments of an absent key leave `"times"` stored. */
  method IncrementCount(existing: map<string, string>, key: string, times: nat) returns (got: Result<Option<string>, Error>)
    requires key !in existing && 0 < times <= 0x7fff_ffff_ffff_ffff
    ensures got == Ok(Some(IntToString(times)))
  {
    var store := new Store(existing);
    var i := 0;
    while i < times
      invariant 0 <= i <= times
      invariant store.Consistent()
      invariant TableValue(store.table, key) == if i == 0 then None else Some(IntToString(i))
    {
      if i > 0 {
        IncrementStoredInt(i, 1);
      }
      var _ := store.Increment(Str(key), Int(1));
      i := i + 1;
    }
    got := store.Get(Str(key));
  }

  /**
   * A second store object over the same table has not cached the key the
   * first one wrote, so its `set` is an `INSERT` that the `PRIMARY KEY`
   * refuses; once it has read the key with `get`, the same `set` succeeds.
   */
  method SecondStoreWrite(existing: map<string, string>, key: string, v1: string, v2: string)
    returns (refused: Result<string, Error>, accepted: Result<string, Error>, got: Result<Option<string>, Error>)
    requires key !in existing
    ensures refused == Err(ConstraintViolation)
    ensures accepted == Ok(v2) && got == Ok(Some(v2))
  {
    var first := new Store(existing);
    var _ := first.Set(Str(key), Str(v1));
    var second := new Store(first.table);
    refused := second.Set(Str(key), Str(v2));
    var _ := second.Get(Str(key));
    accepted := second.Set(Str(key), Str(v2));
    got := second.Get(Str(key));
  }

  /** After `delete`, `get` finds nothing. */
  method DeleteThenGet(existing: map<string, string>, key: string) returns (got: Result<Option<string>, Error>)
    ensures got == Ok(None)
  {
    var store := new Store(existing);
    var _ := store.Set(Str(key), Str("value"));
    store.Delete(key);
    got := store.Get(Str(key));
  }

  /** After `deleteAll`, `getAll` returns nothing and `count` is zero. */
  method DeleteAllThenGetAll(existing: map<string, string>, key: string, scan: seq<Row>) returns (all: map<string, string>, n: nat)
    requires IsScanOf(scan, map[])
    ensures all == map[] && n == 0
  {
    var store := new Store(existing);
    var _ := store.Set(Str(key), Str("value"));
    store.DeleteAll();
    all := store.GetAll(scan);
    n := store.Count();
  }

  /** Writing `rows` under new, distinct keys into an empty table makes `count` equal the number of rows. */
  method CountAfterSets(rows: seq<Row>) returns (n: nat)
    requires DistinctKeys(rows)
    ensures n == |rows|
  {
    var store := new Store(map[]);
    var i := 0;
    while i < |rows|
      invariant 0 <= i <= |rows|
      invariant store.Consistent()
      invariant store.State() == SetAll(Snapshot(map[], map[], false), rows[..i])
    {
      assert rows[..i + 1][..i] == rows[..i];
      var _ := store.Set(Str(rows[i].0), Str(rows[i].1));
      i := i + 1;
    }
    assert rows[..|rows|] == rows;
    CountAfterInserts(Snapshot(map[], map[], false), rows);
    n := store.Count();
  }

  /** After writing one pair to an empty table, iterating the store yields exactly that pair. */
  method Iteration(scan: seq<Row>) returns (seen: seq<Row>)
    requires IsScanOf(scan, map["key1" := "value1"])
    ensures seen == [("key1", "value1")]
  {
    var store := new Store(map[]);
    var _ := store.Set(Str("key1"), Str("value1"));
    seen := ForEach(store, scan);
    ScanSize(scan, map["key1" := "value1"]);
    ScanRowInTable(scan, map["key1" := "value1"], 0);
  }
}
