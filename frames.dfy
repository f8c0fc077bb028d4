/**
  The order table: a header of column names and rows of cells, one cell per
  column, as `pd.read_csv` builds it.
*/
module Frames {
  import opened Wrappers
  import opened Dates

  /**
    A table cell: the text read from the file, a parsed date once the
    shipment-date column has been converted, or a missing value (NaN for an
    empty field, NaT for a date that would not parse).
  */
  datatype Cell = Text(text: string) | Stamp(date: CalendarDate) | Missing

  type Row = seq<Cell>

  datatype Table = Table(columns: seq<string>, rows: seq<Row>)

  /** Every row has one cell per column. */
  predicate Rectangular(rows: seq<Row>, width: nat) {
    forall i | 0 <= i < |rows| :: |rows[i]| == width
  }

  /** What every data frame satisfies: distinct column labels, and a cell per column in every row. */
  predicate WellFormed(t: Table) {
    (forall i, j | 0 <= i < j < |t.columns| :: t.columns[i] != t.columns[j]) &&
    Rectangular(t.rows, |t.columns|)
  }

  type Frame = t: Table | WellFormed(t) witness Table([], [])

  /** `df.empty`: no rows, or no columns, so the frame holds no cell at all. */
  predicate IsEmpty(t: Table)
    ensures IsEmpty(t) <==> |t.rows| * |t.columns| == 0
    ensures !IsEmpty(t) && WellFormed(t) ==> |t.rows[0]| >= 1
  {
    |t.rows| == 0 || |t.columns| == 0
  }

  /** The position of the first column labelled `name`, if there is one. */
  function IndexOf(columns: seq<string>, name: string): (r: Option<nat>)
    ensures r.None? <==> name !in columns
    ensures r.Some? ==> r.value < |columns| && columns[r.value] == name
    ensures r.Some? ==> forall j | 0 <= j < r.value :: columns[j] != name
  {
    if |columns| == 0 then None
    else if columns[0] == name then Some(0)
    else match IndexOf(columns[1..], name)
      case None => None
      case Some(k) => Some(k + 1)
  }

  /** Permuting the rows keeps them rectangular. */
  lemma RectangularPermutation(rows: seq<Row>, rows': seq<Row>, width: nat)
    requires Rectangular(rows, width) && multiset(rows') == multiset(rows)
    ensures Rectangular(rows', width)
  {
    forall i | 0 <= i < |rows'| ensures |rows'[i]| == width {
      assert rows'[i] in multiset(rows);
    }
  }
}
