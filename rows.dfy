/**
 * Stand-in for the SQL engine's full-table scan (`SELECT * FROM <store>`).
 * The engine returns every row of the table once, in an order of its own
 * choosing; the model receives that order as a sequence of rows.
 */
module Rows {

  /** One fetched row, `[key, value]` as `PDO::FETCH_NUM` gives it. */
  type Row = (string, string)

  /** The map a sequence of rows spells out; a later row for a key wins. */
  function RowsToMap(rows: seq<Row>): map<string, string>
  {
    if rows == [] then map[]
    else RowsToMap(rows[..|rows| - 1])[rows[|rows| - 1].0 := rows[|rows| - 1].1]
  }

  /** No two rows share a key, as the table's `PRIMARY KEY` guarantees. */
  ghost predicate DistinctKeys(rows: seq<Row>) {
    forall i, j :: 0 <= i < j < |rows| ==> rows[i].0 != rows[j].0
  }

  /** `rows` is a possible result of a full scan of table `t`. */
  ghost predicate IsScanOf(rows: seq<Row>, t: map<string, string>) {
    DistinctKeys(rows) && RowsToMap(rows) == t
  }

  /** Every key the rows map is the key of one of the rows. */
  lemma {:induction false} KeyHasRow(rows: seq<Row>, k: string) returns (i: nat)
    requires k in RowsToMap(rows)
    ensures i < |rows| && rows[i].0 == k
  {
    var n := |rows| - 1;
    if rows[n].0 == k {
      i := n;
    } else {
      i := KeyHasRow(rows[..n], k);
    }
  }

  /** With distinct keys, each row is what the map holds for its key. */
  lemma {:induction false} RowIsMapped(rows: seq<Row>, i: nat)
    requires DistinctKeys(rows) && i < |rows|
    ensures rows[i].0 in RowsToMap(rows) && RowsToMap(rows)[rows[i].0] == rows[i].1
  {
    var n := |rows| - 1;
    if i < n {
      RowIsMapped(rows[..n], i);
      assert rows[i].0 != rows[n].0;
    }
  }

  /** A scan yields exactly as many rows as the table holds. */
  lemma {:induction false} ScanSize(rows: seq<Row>, t: map<string, string>)
    requires IsScanOf(rows, t)
    ensures |rows| == |t|
  {
    if rows != [] {
      var n := |rows| - 1;
      var prefix := rows[..n];
      ScanSize(prefix, RowsToMap(prefix));
      if rows[n].0 in RowsToMap(prefix) {
        var i := KeyHasRow(prefix, rows[n].0);
        assert false;
      }
    }
  }

  /** A scan lists every row of the table: key `k` comes with its value. */
  lemma ScanHasRow(rows: seq<Row>, t: map<string, string>, k: string) returns (i: nat)
    requires IsScanOf(rows, t) && k in t
    ensures i < |rows| && rows[i] == (k, t[k])
  {
    i := KeyHasRow(rows, k);
    RowIsMapped(rows, i);
  }

  /** Each row of a scan is a row of the table. */
  lemma ScanRowInTable(rows: seq<Row>, t: map<string, string>, i: nat)
    requires IsScanOf(rows, t) && i < |rows|
    ensures rows[i].0 in t && t[rows[i].0] == rows[i].1
  {
    RowIsMapped(rows, i);
  }
}
