/**
  `prepare_freight_queue`: check for the shipment-date column, convert that
  column under `%d/%m/%Y` with invalid cells coerced to NaT, reject the whole
  table if any cell became NaT, and otherwise order the rows by date.
*/
module FreightQueue {
  import opened Wrappers
  import opened Dates
  import opened Frames
  import opened Errors
  import opened DateSort

  const DateColumn := "data_embarque"

  /**
    The date a cell denotes under `%d/%m/%Y`, or None where the conversion
    yields NaT: a converted cell keeps its date, a missing one has none, and
    a text cell denotes what ShipmentDateGrammar says.
  */
  function ShipmentDate(c: Cell): (r: Option<CalendarDate>)
    ensures c.Stamp? ==> r == Some(c.date)
    ensures c.Missing? ==> r.None?
  {
    match c
    case Text(s) => ParseDate(s)
    case Stamp(d) => Some(d)
    case Missing => None
  }

  /**
    One cell of `pd.to_datetime(..., errors='coerce')`: the result is always
    a date or NaT; a converted cell is kept, NaN stays missing, and a text
    cell becomes what ToDatetimeGrammar says.
  */
  function ToDatetime(c: Cell): (r: Cell)
    ensures r.Stamp? || r.Missing?
    ensures c.Stamp? ==> r == c
    ensures c.Missing? ==> r == Missing
  {
    match ShipmentDate(c)
    case Some(d) => Stamp(d)
    case None => Missing
  }

  /**
    A text cell denotes `d` exactly when it is a D/M/YYYY spelling of the
    calendar date `d`.
  */
  lemma ShipmentDateGrammar(c: Cell, d: Date)
    requires c.Text?
    ensures ShipmentDate(c) == Some(d) <==> ValidDate(d) && c.text in Spellings(d)
  {
    ParseDateExact(c.text, d);
  }

  /**
    A text cell becomes the stamp `d` exactly when it is a D/M/YYYY spelling
    of the calendar date `d`, and NaT exactly when it spells no calendar date.
  */
  lemma ToDatetimeGrammar(c: Cell, d: Date)
    requires c.Text?
    ensures ToDatetime(c).Stamp? && ToDatetime(c).date == d <==> ValidDate(d) && c.text in Spellings(d)
    ensures ToDatetime(c) == Missing <==> forall e: Date {:trigger Spellings(e)} :: !(ValidDate(e) && c.text in Spellings(e))
  {
    ShipmentDateGrammar(c, d);
    ParseDateBySpelling(c.text);
    assert ToDatetime(c).Stamp? && ToDatetime(c).date == d <==> ShipmentDate(c) == Some(d);
    assert ToDatetime(c) == Missing <==> ShipmentDate(c).None?;
  }

  /**
    The rows after the assignment that overwrites column `k` with its
    converted values: as many rows, each as wide, column `k` converted and
    every other cell untouched.
  */
  function ConvertColumn(rows: seq<Row>, k: nat): (r: seq<Row>)
    requires forall i | 0 <= i < |rows| :: k < |rows[i]|
    ensures |r| == |rows|
    ensures forall i | 0 <= i < |r| :: |r[i]| == |rows[i]| && r[i][k] == ToDatetime(rows[i][k])
    ensures forall i, c | 0 <= i < |r| && 0 <= c < |r[i]| && c != k :: r[i][c] == rows[i][c]
    ensures forall i | 0 <= i < |r| :: r[i][k].Stamp? || r[i][k].Missing?
  {
    seq(|rows|, i requires 0 <= i < |rows| => rows[i][k := ToDatetime(rows[i][k])])
  }

  /**
    `df[column].isnull().any()`. On a converted column (dates or NaT only),
    no null means every row holds a date, so the rows can be ordered.
  */
  predicate AnyNull(rows: seq<Row>, k: nat)
    requires forall i | 0 <= i < |rows| :: k < |rows[i]|
    ensures !AnyNull(rows, k) && (forall i | 0 <= i < |rows| :: rows[i][k].Stamp? || rows[i][k].Missing?)
      ==> Stamped(rows, k)
  {
    exists i | 0 <= i < |rows| :: rows[i][k].Missing?
  }

  function PrepareFreightQueue(t: Frame): (r: Result<Frame, Exception>)
    ensures r.Failure? ==> r.error == ColumnNotFound || r.error == InvalidDate
    ensures r.Success? ==> r.value.columns == t.columns && |r.value.rows| == |t.rows|
  {
    match IndexOf(t.columns, DateColumn)
    case None => Failure(ColumnNotFound)
    case Some(k) =>
      var converted := ConvertColumn(t.rows, k);
      if AnyNull(converted, k) then Failure(InvalidDate)
      else
        var ordered := SortByDate(converted, k);
        assert Rectangular(converted, |t.columns|);
        RectangularPermutation(converted, ordered, |t.columns|);
        assert |ordered| == |multiset(ordered)| == |multiset(converted)|;
        Success(Table(t.columns, ordered))
  }

  // ---- the specification the lemmas below are stated in ----

  /** The position of the shipment-date column. */
  function DateIndex(t: Frame): (k: nat)
    requires DateColumn in t.columns
    ensures k < |t.columns| && t.columns[k] == DateColumn
  {
    IndexOf(t.columns, DateColumn).value
  }

  /** Every shipment-date cell denotes a real calendar date. */
  predicate AllDatesValid(t: Frame)
    requires DateColumn in t.columns
  {
    forall i | 0 <= i < |t.rows| :: ShipmentDate(t.rows[i][DateIndex(t)]).Some?
  }

  /** Row `o` is input row `row` with its shipment date converted and every other cell kept. */
  predicate ConvertedFrom(o: Row, row: Row, k: nat)
    requires k < |row|
  {
    |o| == |row| && HasDate(o, k) && ShipmentDate(row[k]) == Some(o[k].date) &&
    forall c | 0 <= c < |row| && c != k :: o[c] == row[c]
  }

  // ---- properties ----

  /**
    The three outcomes and exactly when each happens. The column check comes
    first: without the column the result is COLUMN_NOT_FOUND whatever the
    cells hold; with it, one cell that does not denote a date makes the whole
    table fail with INVALID_DATE.
  */
  lemma PrepareOutcomes(t: Frame)
    ensures PrepareFreightQueue(t) == Failure(ColumnNotFound) <==> DateColumn !in t.columns
    ensures PrepareFreightQueue(t) == Failure(InvalidDate) <==>
      DateColumn in t.columns && exists i | 0 <= i < |t.rows| :: ShipmentDate(t.rows[i][DateIndex(t)]).None?
    ensures PrepareFreightQueue(t).Success? <==> DateColumn in t.columns && AllDatesValid(t)
  {
    if DateColumn in t.columns {
      var k := DateIndex(t);
      var converted := ConvertColumn(t.rows, k);
      if AnyNull(converted, k) {
        var i :| 0 <= i < |converted| && converted[i][k].Missing?;
        assert ShipmentDate(t.rows[i][k]).None?;
      } else {
        forall i | 0 <= i < |t.rows| ensures ShipmentDate(t.rows[i][k]).Some? {
          assert !converted[i][k].Missing?;
        }
      }
    }
  }

  /** The column check does not look at any cell: tables with the same header and no date column fail alike. */
  lemma ColumnCheckIgnoresCells(t: Frame, u: Frame)
    requires t.columns == u.columns && DateColumn !in t.columns
    ensures PrepareFreightQueue(t) == PrepareFreightQueue(u) == Failure(ColumnNotFound)
  {
  }

  /**
    On success every row holds a converted date in the shipment-date column,
    the rows are in ascending date order, and they are a permutation of the
    input rows with that column converted.
  */
  lemma PrepareSuccess(t: Frame)
    requires PrepareFreightQueue(t).Success?
    ensures DateColumn in t.columns
    ensures Stamped(PrepareFreightQueue(t).value.rows, DateIndex(t))
    ensures SortedBy(PrepareFreightQueue(t).value.rows, DateIndex(t))
    ensures multiset(PrepareFreightQueue(t).value.rows) == multiset(ConvertColumn(t.rows, DateIndex(t)))
  {
    var k := DateIndex(t);
    SortByDateSorted(ConvertColumn(t.rows, k), k);
  }

  /** Each output row comes from an input row, with only its shipment date converted. */
  lemma PrepareKeepsOtherCells(t: Frame, i: nat) returns (j: nat)
    requires PrepareFreightQueue(t).Success? && i < |PrepareFreightQueue(t).value.rows|
    ensures DateColumn in t.columns && j < |t.rows|
    ensures ConvertedFrom(PrepareFreightQueue(t).value.rows[i], t.rows[j], DateIndex(t))
  {
    PrepareSuccess(t);
    var k := DateIndex(t);
    var converted := ConvertColumn(t.rows, k);
    var o := PrepareFreightQueue(t).value.rows[i];
    assert o in multiset(converted);
    j :| 0 <= j < |converted| && converted[j] == o;
  }

  /** Each input row reaches the output, with only its shipment date converted. */
  lemma PrepareLosesNoRow(t: Frame, j: nat) returns (i: nat)
    requires PrepareFreightQueue(t).Success? && j < |t.rows|
    ensures DateColumn in t.columns && i < |PrepareFreightQueue(t).value.rows|
    ensures ConvertedFrom(PrepareFreightQueue(t).value.rows[i], t.rows[j], DateIndex(t))
  {
    PrepareSuccess(t);
    var k := DateIndex(t);
    var converted := ConvertColumn(t.rows, k);
    var out := PrepareFreightQueue(t).value.rows;
    assert converted[j] in multiset(out);
    i :| 0 <= i < |out| && out[i] == converted[j];
  }

  /** With the date column at `k` and no coerced cell, the result is the converted rows sorted. */
  lemma PrepareAccepted(t: Frame, k: nat)
    requires IndexOf(t.columns, DateColumn) == Some(k)
    requires !AnyNull(ConvertColumn(t.rows, k), k)
    ensures PrepareFreightQueue(t).Success?
    ensures PrepareFreightQueue(t).value == Table(t.columns, SortByDate(ConvertColumn(t.rows, k), k))
  {
  }

  lemma ExampleCellsConverted()
    ensures ToDatetime(Text("05/01/2025")) == Stamp(Date(2025, 1, 5))
    ensures ToDatetime(Text("01/01/2025")) == Stamp(Date(2025, 1, 1))
  {
    ParseDateAcceptsPadded();
  }

  lemma ExampleConverted()
    ensures ConvertColumn([[Text("1"), Text("05/01/2025")], [Text("2"), Text("01/01/2025")]], 1)
         == [[Text("1"), Stamp(Date(2025, 1, 5))], [Text("2"), Stamp(Date(2025, 1, 1))]]
  {
    var rows: seq<Row> := [[Text("1"), Text("05/01/2025")], [Text("2"), Text("01/01/2025")]];
    ExampleCellsConverted();
    var converted := ConvertColumn(rows, 1);
    assert |converted| == 2 && |converted[0]| == 2 && |converted[1]| == 2;
    assert converted[0][0] == Text("1") && converted[1][0] == Text("2");
    assert converted[0][1] == Stamp(Date(2025, 1, 5)) && converted[1][1] == Stamp(Date(2025, 1, 1));
    assert converted[0] == [Text("1"), Stamp(Date(2025, 1, 5))];
    assert converted[1] == [Text("2"), Stamp(Date(2025, 1, 1))];
  }

  /** Two orders with their shipment dates out of sequence come back in date order. */
  lemma PrepareExample()
    ensures PrepareFreightQueue(Table(["id", "data_embarque"],
                                      [[Text("1"), Text("05/01/2025")], [Text("2"), Text("01/01/2025")]]))
         == Success(Table(["id", "data_embarque"],
                          [[Text("2"), Stamp(Date(2025, 1, 1))], [Text("1"), Stamp(Date(2025, 1, 5))]]))
  {
    var t: Frame := Table(["id", "data_embarque"], [[Text("1"), Text("05/01/2025")], [Text("2"), Text("01/01/2025")]]);
    var r1: Row := [Text("1"), Stamp(Date(2025, 1, 5))];
    var r2: Row := [Text("2"), Stamp(Date(2025, 1, 1))];
    assert IndexOf(t.columns, DateColumn) == Some(1);
    ExampleConverted();
    assert !AnyNull([r1, r2], 1);
    assert SortByDate([r1, r2], 1) == [r2, r1] by {
      assert SortByDate([r2], 1) == [r2];
      assert Insert(r1, [r2], 1) == [r2, r1];
    }
    PrepareAccepted(t, 1);
  }

  /** A single impossible date, 31 February, rejects the table. */
  lemma PrepareRejectsImpossibleDate()
    ensures PrepareFreightQueue(Table(["id", "data_embarque"],
                                      [[Text("1"), Text("05/01/2025")], [Text("2"), Text("31/02/2024")]]))
         == Failure(InvalidDate)
  {
    var t: Frame := Table(["id", "data_embarque"], [[Text("1"), Text("05/01/2025")], [Text("2"), Text("31/02/2024")]]);
    assert IndexOf(t.columns, DateColumn) == Some(1);
    ParseDateRejectsDayOverflow();
    assert ShipmentDate(t.rows[1][DateIndex(t)]).None?;
    PrepareOutcomes(t);
  }
}
