# NoSQLite `Store` in Dafny

NoSQLite is a key-value store for PHP on top of SQLite. Each named store is
one two-column table (`key TEXT PRIMARY KEY`, `value TEXT`). The class
`Store` translates `get`, the setters, `increment`, `delete`, `deleteAll`,
iteration and `count` into statements against that table. It keeps three
things beside it:

- `$data`, an in-process cache of rows it has read or written;
- `$loaded`, a flag meant to say that the cache holds the whole table;
- `$iterator`/`$current`, a cursor over a full-table scan.

This project models that class.

- `wrappers.dfy`: `Option` (PHP's `null`) and `Result` (its exceptions).
- `php.dfy`: the PHP semantics the store relies on:
  - 64-bit integers;
  - the `(string)` cast of a scalar;
  - `is_numeric`/`intval`, restricted to integer strings;
  - the `(bool)` cast behind `getBoolean` and `!empty`.

  It also proves that the decimal form of an integer parses back to it.
- `rows.dfy`: the full-table scan. The SQL engine returns every row once, in
  its own order. The model takes that order as a sequence of rows
  (`IsScanOf(scan, table)`), as the PDO cursor would deliver them.
- `store_spec.dfy`: each operation as a pure transition on a `Snapshot`,
  which holds the table, the cache and `$loaded`. Here are the lemmas on
  cache coherence, read-after-write, delete, increment accumulation and
  row counts.
- `store.dfy`: the class `Store`. The cache, the flag, the cursor and the
  table stand-in are fields, and each method changes them in place. Each
  method is proved to follow its transition function and to keep the
  invariant `Consistent()`. That invariant says three things:
  - every cached entry equals the table's entry for that key;
  - `loaded` is false;
  - the cursor is in range.
- `scenarios.dfy`: client programs that drive fresh `Store` objects the way
  the test suite does. What the tests assert is proved as postconditions.
  These include PHP's `foreach` protocol over the iterator.

How the model reads the code:

- `$loaded` is never set to true. It is initialised false and only read.
  So `getAll` rescans the table on every call. `get`'s branch that trusts a
  fully loaded cache cannot run. The model keeps the flag, keeps both
  branches, and proves that the flag stays false. The field's doc comment
  ("Data were loaded from DB", src/NoSQLite/Store.php:60-63) suggests that
  `getAll` would set it, but no line does; the model follows the code.
- `_set` chooses `UPDATE` or `INSERT` by looking at the cache, not the
  table. The model reproduces this, including what follows from it. A store
  object that has not read a key makes an `INSERT` for it, and the table's
  `PRIMARY KEY` refuses that `INSERT` when the key is already stored (see
  `SetUncachedStoredKeyFails` and `SecondStoreWrite`). The model assumes
  PDO runs in exception mode, so a refused statement throws before the
  cache is written. That error leaves table and cache unchanged.
- `increment` reads the key with `get` before it writes. So its `setInt`
  is always an `UPDATE` of a cached key or an `INSERT` of an absent one, and
  it never meets that refusal. Apart from its argument checks, it fails only
  when the new total leaves PHP's integer range (`IncrementStep`); the
  cache is then left as `get` filled it.
- `setBoolean` reports a wrong type with the message "Expected float as
  value". The model keeps that text.
- `valid()` compares `$current` with `false`. It is therefore true before
  the first `rewind`, when `$current` is still null. `next()` before any
  `rewind` has no statement to fetch from, and the model returns
  `NoCursor` for it.

## Model

| member | source | states |
|---|---|---|
| `Php.IntToString` | src/NoSQLite/Store.php:184-189 | the `(string)` form of an integer is non-empty, starts with `-` exactly for negatives, and is `"0"` exactly for zero |
| `Php.Digits` | src/NoSQLite/Store.php:188 | decimal digits of a natural number are all digits, and there is no leading zero except for 0 itself |
| `Php.Saturate` | src/NoSQLite/Store.php:230 | `intval` keeps in-range values and clamps larger ones to PHP_INT_MIN/PHP_INT_MAX |
| `Php.IsNumeric` | src/NoSQLite/Store.php:229 | a numeric string is non-empty and ends in a digit; a string of digits alone is numeric exactly when it is non-empty |
| `Php.IntVal` | src/NoSQLite/Store.php:230 | `intval` is non-negative without a leading `-` and non-positive with one; for an in-range string of digits it is the digits' value |
| `Php.ToBool` | src/NoSQLite/Store.php:211 | only a non-empty string can be true, and every string of two or more characters is true |
| `Php.ToPhpString` | src/NoSQLite/Store.php:172 | null becomes `""`; a boolean becomes a string whose truthiness is the boolean; an integer becomes a numeric string that `intval` reads back as the integer; a string stays as is |
| `Php.ParseDigitsOfDigits` | src/NoSQLite/Store.php:230 | parsing the digits of `n` gives back `n` |
| `Php.IntStringRoundTrip` | src/NoSQLite/Store.php:184-189 | what `setInt` stores is numeric, and `intval` of it is the original integer |
| `Php.BooleanRoundTrip` | src/NoSQLite/Store.php:203-212 | `setBoolean` stores `"1"`/`"0"`, and `getBoolean`'s cast of that gives the original flag |
| `Php.IntTruthiness` | src/NoSQLite/Store.php:229 | a stored integer is truthy (`!empty`) exactly when it is non-zero |
| `Rows.KeyHasRow` | src/NoSQLite/Store.php:150-152 | every key the fetched rows define comes from one of the rows |
| `Rows.RowIsMapped` | src/NoSQLite/Store.php:150-152 | with distinct keys, each fetched row is the entry the rows define for its key |
| `Rows.ScanSize` | src/NoSQLite/Store.php:298-302 | a full scan yields exactly as many rows as the table has |
| `Rows.ScanHasRow` | test/NoSQLite/Tests/StoreTest.php:256-264 | every stored pair `(k, table[k])` occurs in a full scan |
| `Rows.ScanRowInTable` | src/NoSQLite/Store.php:329-342 | each row a scan yields is a row of the table |
| `StoreSpec.GetStep` | src/NoSQLite/Store.php:114-137 | non-string key: error, nothing changes. Cache hit: the cached value, nothing changes. Miss while not loaded: the table's value, and the found row is added to the cache. Miss while loaded: null, nothing changes. Under coherence the reply is the table's value and coherence is kept |
| `StoreSpec.SetStep` | src/NoSQLite/Store.php:238-259 | fails exactly for a non-string key or an uncached key the table holds, changing nothing. On success it returns the value, sets key to value in table and cache, and keeps coherence |
| `StoreSpec.DeleteStep` | src/NoSQLite/Store.php:269-279 | the key leaves the table and every other key keeps its table value; the cache becomes exactly the old cache without the key. Coherence is kept |
| `StoreSpec.GetAllStep` | src/NoSQLite/Store.php:144-156 | the table is unchanged and no cached key is lost. From a coherent, not loaded store the cache becomes exactly the table |
| `StoreSpec.DeleteAllStep` | src/NoSQLite/Store.php:286-291 | the table has no rows and the cache is empty, so they are coherent; `loaded` keeps its value |
| `StoreSpec.IncrementStep` | src/NoSQLite/Store.php:224-235 | a non-int amount or non-string key fails with nothing changed. Otherwise, under coherence, it succeeds exactly when the new total is a PHP integer, and then table and cache both map the key to that total's decimal form. On overflow the table is unchanged and the cache is the one `get` left |
| `StoreSpec.IncrementedTotal` | src/NoSQLite/Store.php:229-233 | the total is the current value plus the amount, where a missing or non-numeric current value counts as zero |
| `StoreSpec.IncrementStoredInt` | src/NoSQLite/Store.php:228-231 | incrementing a stored integer `n` by `a` gives `n + a`, including when `n` is 0 |
| `StoreSpec.GetAfterSet` | test/NoSQLite/Tests/StoreTest.php:100-104 | after a successful write `get(k)` returns the written value, and `get` of any other key is unaffected |
| `StoreSpec.SetTwice` | test/NoSQLite/Tests/StoreTest.php:111-119 | a second write of the same key succeeds and `get` then returns the second value |
| `StoreSpec.SetUncachedStoredKeyFails` | src/NoSQLite/Store.php:244-255 | writing a stored key that is not cached is refused by the primary key and changes nothing |
| `StoreSpec.SetAfterGetSucceeds` | src/NoSQLite/Store.php:120-131 | after `get(k)` a write to `k` always succeeds |
| `StoreSpec.GetAfterDelete` | test/NoSQLite/Tests/StoreTest.php:217-223 | after `delete(k)`, `get(k)` returns null whether or not `k` existed |
| `StoreSpec.GetAllAfterDeleteAll` | test/NoSQLite/Tests/StoreTest.php:230-235 | after `deleteAll`, `getAll` returns the empty map, the table has no rows and `get` finds nothing |
| `StoreSpec.IncrementsAccumulate` | test/NoSQLite/Tests/StoreTest.php:198-209 | from an absent key, increments by amounts `a1..an` leave the decimal form of their sum, provided no running total overflows, and coherence is kept |
| `StoreSpec.DefaultIncrements` | test/NoSQLite/Tests/StoreTest.php:204-207 | `n` default increments from an absent key leave `"n"` |
| `StoreSpec.SumOfOnes` | test/NoSQLite/Tests/StoreTest.php:204 | a sequence of default amounts sums to its length |
| `StoreSpec.InsertsAll` | src/NoSQLite/Store.php:244-256 | writing rows under new, distinct keys inserts every one of them and keeps coherence |
| `StoreSpec.CountAfterInserts` | test/NoSQLite/Tests/StoreTest.php:242-249 | writing C new, distinct keys grows the row count by exactly C |
| `NoSQLite.Store.constructor` | src/NoSQLite/Store.php:86-91 | a new store has an empty cache, is not loaded, has no cursor, and sees the rows the table already holds |
| `NoSQLite.Store.Get` | src/NoSQLite/Store.php:114-137 | reply and new state are those of `GetStep`; the table and cursor are untouched |
| `NoSQLite.Store.GetAll` | src/NoSQLite/Store.php:144-156 | the fetch loop merges every scanned row into the cache, so the state is that of `GetAllStep`, and the returned map is the cache |
| `NoSQLite.Store.Put` | src/NoSQLite/Store.php:238-259 | `_set`: the `UPDATE`/`INSERT` choice by cache membership yields exactly `SetStep`'s reply and state |
| `NoSQLite.Store.Set` | src/NoSQLite/Store.php:167-173 | an array or object value fails with nothing changed. A scalar is written as its `(string)` form |
| `NoSQLite.Store.SetString` | src/NoSQLite/Store.php:176-182 | a non-string value fails with nothing changed. A string is written as is |
| `NoSQLite.Store.SetInt` | src/NoSQLite/Store.php:184-189 | a non-integer value fails with nothing changed. An integer is written as its decimal form |
| `NoSQLite.Store.SetBoolean` | src/NoSQLite/Store.php:203-208 | a non-boolean fails with nothing changed. A flag is written as `"1"` or `"0"` |
| `NoSQLite.Store.GetBoolean` | src/NoSQLite/Store.php:210-212 | `get`'s effect on the state, and the truthiness of its reply |
| `NoSQLite.Store.Increment` | src/NoSQLite/Store.php:224-235 | the read-modify-write yields exactly `IncrementStep`'s reply and state |
| `NoSQLite.Store.Delete` | src/NoSQLite/Store.php:269-279 | the state becomes `DeleteStep`'s |
| `NoSQLite.Store.DeleteAll` | src/NoSQLite/Store.php:286-291 | table and cache become empty; `loaded` is untouched |
| `NoSQLite.Store.Rewind` | src/NoSQLite/Store.php:298-302 | the cursor is on the first row of a fresh scan, which has as many rows as the table. The cache is untouched |
| `NoSQLite.Store.Next` | src/NoSQLite/Store.php:309-312 | advances one row, or stays exhausted; without a prior `rewind` it fails |
| `NoSQLite.Store.Valid` | src/NoSQLite/Store.php:319-322 | false exactly when a scan's rows are spent |
| `NoSQLite.Store.Key` | src/NoSQLite/Store.php:339-342 | the current row's key, or null when there is no current row |
| `NoSQLite.Store.Current` | src/NoSQLite/Store.php:329-332 | the current row's value, or null when there is no current row |
| `NoSQLite.Store.Count` | src/NoSQLite/Store.php:349-352 | the number of table rows, whatever the cache holds |
| `StoreScenarios.ForEach` | test/NoSQLite/Tests/StoreTest.php:260-263 | `foreach` over the store yields exactly the scanned rows, in order, and changes neither table nor cache |
| `StoreScenarios.FirstGet` | test/NoSQLite/Tests/StoreTest.php:60-68 | a value written by one store object is read by a new store object over the same table |
| `StoreScenarios.GetAllAfterWrites` | test/NoSQLite/Tests/StoreTest.php:75-89 | `deleteAll`, then two `set`s: `getAll` returns exactly the two pairs |
| `StoreScenarios.SetGetValue` | test/NoSQLite/Tests/StoreTest.php:100-104 | a scalar written with `set` reads back as its `(string)` form |
| `StoreScenarios.UpdateValue` | test/NoSQLite/Tests/StoreTest.php:111-119 | after two `set`s of one key, `get` returns the second value |
| `StoreScenarios.SetExceptions` | test/NoSQLite/Tests/StoreTest.php:131-135 | a non-string key and an array value are both rejected with their messages, and the table is unchanged |
| `StoreScenarios.GetExceptions` | test/NoSQLite/Tests/StoreTest.php:146-149 | `get` with an integer key is rejected |
| `StoreScenarios.SetGetInt` | test/NoSQLite/Tests/StoreTest.php:161-164 | an integer written with `setInt` reads back as a numeric string whose value is that integer |
| `StoreScenarios.SetGetBoolean` | test/NoSQLite/Tests/StoreTest.php:175-178 | a flag written with `setBoolean` reads back unchanged through `getBoolean` |
| `StoreScenarios.IncrementCount` | test/NoSQLite/Tests/StoreTest.php:198-209 | `n` default increments of an absent key leave `"n"` |
| `StoreScenarios.SecondStoreWrite` | src/NoSQLite/Store.php:244-255 | a second store object's write of a key it has not read is refused. After a `get` of that key the same write succeeds and reads back |
| `StoreScenarios.DeleteThenGet` | test/NoSQLite/Tests/StoreTest.php:217-223 | after `set` and `delete`, `get` returns null |
| `StoreScenarios.DeleteAllThenGetAll` | test/NoSQLite/Tests/StoreTest.php:230-235 | after `deleteAll`, `getAll` is empty and `count` is 0 |
| `StoreScenarios.CountAfterSets` | test/NoSQLite/Tests/StoreTest.php:242-249 | `set` of C distinct keys into an empty table makes `count` return C |
| `StoreScenarios.Iteration` | test/NoSQLite/Tests/StoreTest.php:256-264 | after writing one pair to an empty table, iteration yields exactly that pair |

## Left out

- The SQL text and the database calls are not modelled: `createTable` (src/NoSQLite/Store.php:98-104), the table-name interpolation, and PDO's prepare/bind/execute/fetch. Each store owns its table as a map, and the constructor receives the rows the table already holds.
- `loaded`'s trust rule is kept in `get` and `getAll` but is never exercised, because the source never sets the flag.
- Failure of a statement is modelled as an error that changes nothing. This assumes PDO's exception error mode. That mode is set in the `NoSQLite` class, and `NoSQLite` is not part of this model. In PDO's silent mode `_set` would write the cache even after a refused `INSERT`.
- Other database failures are not modelled: I/O errors, a locked database, a missing table. Only the primary-key refusal is.
- `setFloat`, `setDouble` and `setDate` are not modelled. `setFloat` needs PHP's float-to-string conversion. `setDouble` calls itself with no arguments and cannot succeed. `setDate` depends on `strtotime`/`date` and the timezone database. Floats are also absent from `Mixed`, so `set` with a float value is not covered.
- `StoreSpec.IncrementedTotal`: numeric strings are only an optional sign followed by decimal digits. PHP's `is_numeric` also accepts decimals, exponents and surrounding whitespace, which `intval` then truncates. So a non-integer numeric string that `set`/`setString` wrote, such as `"2.5"` or `" 7"`, counts as 0 here (`Php.IsNumeric` rejects it, so `Php.IntVal` is not consulted), while PHP uses its integer part.
- `NoSQLite.Store.Delete` takes a string key. PHP would bind a non-string key as text and coerce it as an array key. That PHP coercion is not modelled.
- PHP's conversion of numeric-string array keys to integers in `$data` is not modelled; keys stay strings.
- A `NULL` value column is not modelled. The table holds only strings, as the store writes only strings.
- Each `Store` object owns its own copy of the table. So two live store objects over one table, and concurrent writers, are not modelled. The scenarios open a second store only after the first has finished writing.
- The scan behind `rewind` is a snapshot taken at `rewind`. Rows written during an iteration are not seen by it, whereas SQLite's lazy cursor might show them.
- The `NoSQLite` database-handle class (opening the file, `getStore`) is not part of this model. Neither is the test suite's file handling.
- `NoSQLite.Store.Increment`: the source's default `$amount = 1` is not represented; callers pass `Int(1)` explicitly.
- `next()` before any `rewind` is a fatal PHP error (a call on null). The model reports it as the error `NoCursor` and leaves the state alone.
