/**
  Ordering rows by their converted shipment date, as `sort_values` does. The
  sort below is an insertion sort; its contract promises only what
  `sort_values` promises: ascending order and a permutation of the rows
  (not the relative order of rows with equal dates).
*/
module DateSort {
  import opened Dates
  import opened Frames

  /** The cell in column `k` holds a parsed date. */
  predicate HasDate(row: Row, k: nat) {
    k < |row| && row[k].Stamp?
  }

  predicate Stamped(rows: seq<Row>, k: nat) {
    forall i | 0 <= i < |rows| :: HasDate(rows[i], k)
  }

  /** Ascending by the date in column `k`. */
  predicate SortedBy(rows: seq<Row>, k: nat)
    requires Stamped(rows, k)
  {
    forall i, j | 0 <= i < j < |rows| :: DateLe(rows[i][k].date, rows[j][k].date)
  }

  /** Places `x` before the first row whose date is not earlier than its own. */
  function Insert(x: Row, rows: seq<Row>, k: nat): (r: seq<Row>)
    requires HasDate(x, k) && Stamped(rows, k)
    ensures multiset(r) == multiset(rows) + multiset{x}
    ensures Stamped(r, k)
  {
    if rows == [] then [x]
    else if DateLe(x[k].date, rows[0][k].date) then [x] + rows
    else
      assert rows == [rows[0]] + rows[1..];
      [rows[0]] + Insert(x, rows[1..], k)
  }

  /** The rows ordered ascending by the date in column `k`. */
  function SortByDate(rows: seq<Row>, k: nat): (r: seq<Row>)
    requires Stamped(rows, k)
    ensures multiset(r) == multiset(rows)
    ensures Stamped(r, k)
  {
    if rows == [] then []
    else
      assert rows == [rows[0]] + rows[1..];
      Insert(rows[0], SortByDate(rows[1..], k), k)
  }

  lemma {:induction false} InsertSorted(x: Row, rows: seq<Row>, k: nat)
    requires HasDate(x, k) && Stamped(rows, k) && SortedBy(rows, k)
    ensures SortedBy(Insert(x, rows, k), k)
  {
    if rows != [] && !DateLe(x[k].date, rows[0][k].date) {
      var tail: seq<Row> := Insert(x, rows[1..], k);
      InsertSorted(x, rows[1..], k);
      forall i | 0 <= i < |tail| ensures DateLe(rows[0][k].date, tail[i][k].date) {
        assert tail[i] in multiset(rows[1..]) + multiset{x};
        if tail[i] != x {
          var j :| 0 <= j < |rows[1..]| && rows[1..][j] == tail[i];
          assert rows[j + 1] == tail[i];
        }
      }
    }
  }

  /** SortByDate returns its rows in ascending date order. */
  lemma {:induction false} SortByDateSorted(rows: seq<Row>, k: nat)
    requires Stamped(rows, k)
    ensures SortedBy(SortByDate(rows, k), k)
  {
    if rows != [] {
      SortByDateSorted(rows[1..], k);
      InsertSorted(rows[0], SortByDate(rows[1..], k), k);
    }
  }
}
