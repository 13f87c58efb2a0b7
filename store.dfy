/**
 * The class `Store`: one key-value store over one table of an SQLite
 * database. The table is owned by the model as a map; the engine's scan order
 * arrives as a sequence of rows where the source fetches from a cursor.
 */
module NoSQLite {
  import opened Wrappers
  import opened Php
  import opened Rows
  import opened StoreSpec

  /**
   * `$iterator` together with `$current`: before the first `rewind` there is
   * no statement and `$current` is null; afterwards the rows of the scan and
   * the position of the current row (`$current` is false past the last row).
   */
  datatype Cursor = Unstarted | Open(rows: seq<Row>, pos: nat)

  class Store {
    /** The rows of the backing table, key column to value column. */
    var table: map<string, string>
    /** `$data`, the in-process cache. */
    var data: map<string, string>
    /** `$loaded`; it starts false and nothing ever sets it. */
    var loaded: bool
    var cursor: Cursor

    function State(): Snapshot
      reads this
    {
      Snapshot(table, data, loaded)
    }

    ghost predicate Consistent()
      reads this
    {
      Coherent(State()) && !loaded && (cursor.Open? ==> cursor.pos <= |cursor.rows|)
    }

    /** A store over a table that already holds `existing` (empty when `CREATE TABLE IF NOT EXISTS` has just made it). */
    constructor (existing: map<string, string>)
      ensures Consistent()
      ensures table == existing && data == map[] && cursor == Unstarted
    {
      table := existing;
      data := map[];
      loaded := false;
      cursor := Unstarted;
    }

    method Get(key: Mixed) returns (r: Result<Option<string>, Error>)
      requires Consistent()
      modifies this`data
      ensures Consistent()
      ensures (r, State()) == GetStep(old(State()), key)
    {
      if !key.Str? {
        return Err(InvalidArgument(KeyNotString));
      }
      var k := key.s;
      if k in data {
        return Ok(Some(data[k]));
      } else if !loaded {
        // SELECT * FROM <store> WHERE key = :key
        if k in table {
          data := data[k := table[k]];
          return Ok(Some(data[k]));
        }
      }
      return Ok(None);
    }

    method GetAll(scan: seq<Row>) returns (all: map<string, string>)
      requires Consistent() && IsScanOf(scan, table)
      modifies this`data
      ensures Consistent()
      ensures State() == GetAllStep(old(State())) && all == data
    {
      if !loaded {
        // SELECT * FROM <store>, fetched row by row
        var i := 0;
        while i < |scan|
          invariant 0 <= i <= |scan|
          invariant data == old(data) + RowsToMap(scan[..i])
        {
          assert scan[..i + 1][..i] == scan[..i];
          data := data[scan[i].0 := scan[i].1];
          i := i + 1;
        }
        assert scan[..|scan|] == scan;
      }
      all := data;
    }

    /** `_set`, the upsert every setter ends in. */
    method Put(key: Mixed, value: string) returns (r: Result<string, Error>)
      requires Consistent()
      modifies this`table, this`data
      ensures Consistent()
      ensures (r, State()) == SetStep(old(State()), key, value)
    {
      if !key.Str? {
        return Err(InvalidArgument(KeyNotString));
      }
      var k := key.s;
      if k in data {
        // UPDATE <store> SET value = :value WHERE key = :key
        if k in table {
          table := table[k := value];
        }
      } else {
        // INSERT INTO <store> VALUES (:key, :value), refused by the PRIMARY KEY for a stored key
        if k in table {
          return Err(ConstraintViolation);
        }
        table := table[k := value];
      }
      data := data[k := value];
      r := Ok(value);
    }

    method Set(key: Mixed, value: Mixed) returns (r: Result<string, Error>)
      requires Consistent()
      modifies this`table, this`data
      ensures Consistent()
      ensures !IsScalar(value) ==> r == Err(InvalidArgument(ValueComposite)) && State() == old(State())
      ensures IsScalar(value) ==> (r, State()) == SetStep(old(State()), key, ToPhpString(value))
    {
      if !IsScalar(value) {
        return Err(InvalidArgument(ValueComposite));
      }
      r := Put(key, ToPhpString(value));
    }

    method SetString(key: Mixed, value: Mixed) returns (r: Result<string, Error>)
      requires Consistent()
      modifies this`table, this`data
      ensures Consistent()
      ensures !value.Str? ==> r == Err(InvalidArgument(ValueNotString)) && State() == old(State())
      ensures value.Str? ==> (r, State()) == SetStep(old(State()), key, value.s)
    {
      if !value.Str? {
        return Err(InvalidArgument(ValueNotString));
      }
      r := Put(key, value.s);
    }

    method SetInt(key: Mixed, value: Mixed) returns (r: Result<string, Error>)
      requires Consistent()
      modifies this`table, this`data
      ensures Consistent()
      ensures !value.Int? ==> r == Err(InvalidArgument(ValueNotInt)) && State() == old(State())
      ensures value.Int? ==> (r, State()) == SetStep(old(State()), key, IntToString(value.i))
    {
      if !value.Int? {
        return Err(InvalidArgument(ValueNotInt));
      }
      r := Put(key, IntToString(value.i));
    }

    method SetBoolean(key: Mixed, value: Mixed) returns (r: Result<string, Error>)
      requires Consistent()
      modifies this`table, this`data
      ensures Consistent()
      ensures !value.Bool? ==> r == Err(InvalidArgument(ValueNotBool)) && State() == old(State())
      ensures value.Bool? ==> (r, State()) == SetStep(old(State()), key, if value.b then "1" else "0")
    {
      if !value.Bool? {
        return Err(InvalidArgument(ValueNotBool));
      }
      BooleanRoundTrip(value.b);
      r := SetInt(key, Int(if value.b then 1 else 0));
    }

    method GetBoolean(key: Mixed) returns (r: Result<bool, Error>)
      requires Consistent()
      modifies this`data
      ensures Consistent()
      ensures var (got, after) := GetStep(old(State()), key);
        State() == after && r == (if got.Ok? then Ok(ToBool(got.value)) else Err(got.error))
    {
      var got := Get(key);
      r := if got.Ok? then Ok(ToBool(got.value)) else Err(got.error);
    }

    /**
     * `increment($key, $amount)`. The source's default `$amount = 1` has no
     * counterpart here: a caller passes `Int(1)`.
     */
    method Increment(key: Mixed, amount: Mixed) returns (r: Result<(), Error>)
      requires Consistent()
      modifies this`table, this`data
      ensures Consistent()
      ensures (r, State()) == IncrementStep(old(State()), key, amount)
    {
      if !amount.Int? {
        return Err(InvalidArgument(AmountNotInt));
      }
      var got := Get(key);
      if got.Err? {
        return Err(got.error);
      }
      var total := IncrementedTotal(got.value, amount.i);
      if !InInt64(total) {
        // PHP turns the overflowing sum into a float, which setInt rejects
        return Err(InvalidArgument(ValueNotInt));
      }
      var put := SetInt(key, Int(total));
      r := if put.Ok? then Ok(()) else Err(put.error);
    }

    method Delete(key: string)
      requires Consistent()
      modifies this`table, this`data
      ensures Consistent()
      ensures State() == DeleteStep(old(State()), key)
    {
      // DELETE FROM <store> WHERE key = :key
      table := table - {key};
      data := data - {key};
    }

    method DeleteAll()
      requires Consistent()
      modifies this`table, this`data
      ensures Consistent()
      ensures State() == DeleteAllStep(old(State()))
    {
      // DELETE FROM <store>
      table := map[];
      data := map[];
    }

    /** Opens a fresh scan of the table and moves to its first row. */
    method Rewind(scan: seq<Row>)
      requires Consistent() && IsScanOf(scan, table)
      modifies this`cursor
      ensures Consistent()
      ensures cursor == Open(scan, 0) && |cursor.rows| == |table|
    {
      ScanSize(scan, table);
      cursor := Open(scan, 0);
    }

    /** Fetches the next row; past the last row the cursor stays exhausted. */
    method Next() returns (r: Result<(), Error>)
      requires Consistent()
      modifies this`cursor
      ensures Consistent()
      ensures old(cursor).Unstarted? ==> r == Err(NoCursor) && cursor == Unstarted
      ensures old(cursor).Open? ==>
        r == Ok(()) &&
        cursor == old(cursor).(pos := if old(cursor).pos < |old(cursor).rows| then old(cursor).pos + 1 else old(cursor).pos)
    {
      if cursor.Unstarted? {
        // there is no statement to fetch from yet
        return Err(NoCursor);
      }
      if cursor.pos < |cursor.rows| {
        cursor := cursor.(pos := cursor.pos + 1);
      }
      r := Ok(());
    }

    /** `$current !== false`: true before the first `rewind` and on a row, false once the rows are spent. */
    method Valid() returns (b: bool)
      ensures b <==> cursor.Unstarted? || cursor.pos < |cursor.rows|
    {
      b := !(cursor.Open? && cursor.pos >= |cursor.rows|);
    }

    method Key() returns (k: Option<string>)
      ensures k.Some? <==> cursor.Open? && cursor.pos < |cursor.rows|
      ensures k.Some? ==> k.value == cursor.rows[cursor.pos].0
    {
      if cursor.Open? && cursor.pos < |cursor.rows| {
        k := Some(cursor.rows[cursor.pos].0);
      } else {
        k := None;
      }
    }

    method Current() returns (v: Option<string>)
      ensures v.Some? <==> cursor.Open? && cursor.pos < |cursor.rows|
      ensures v.Some? ==> v.value == cursor.rows[cursor.pos].1
    {
      if cursor.Open? && cursor.pos < |cursor.rows| {
        v := Some(cursor.rows[cursor.pos].1);
      } else {
        v := None;
      }
    }

    /** `SELECT COUNT(*)`: the number of rows, never taken from the cache. */
    method Count() returns (n: nat)
      ensures n == |table|
    {
      n := |table|;
    }
  }
}
