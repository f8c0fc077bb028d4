/**
  `main`: one pass through load, transform and export, logging a marker as
  each stage starts and, when a stage raises, one error line chosen by the
  class of the exception; nothing runs after the error line.
*/
module Driver {
  import opened Wrappers
  import opened Frames
  import opened Errors
  import opened Loader
  import opened FreightQueue
  import opened Exporter
  import DateSort

  datatype LogLine = Info(message: string) | Error(message: string)

  /** The stage markers, in the order `main` logs them. */
  const Markers: seq<string> := ["START", "LOAD", "TRANSFORM", "EXPORT", "END"]

  /**
    The line the `except` clause that catches `e` logs. The clause is chosen
    by class alone, so every FileNotFoundError and every KeyError gets the
    fixed line, whatever its text; a ValueError is logged as its text, and
    an exception of any other class as its text behind `ERROR: `. Each
    exception the pipeline raises is therefore logged under its own text.
  */
  function Report(e: Exception): (line: string)
    ensures e.cls == FileNotFoundError ==> line == "FILE_NOT_FOUND"
    ensures e.cls == KeyError ==> line == "COLUMN_NOT_FOUND"
    ensures e.cls == ValueError ==> line == e.text
    ensures e.cls == OtherError ==> line == "ERROR: " + e.text
    ensures e in {FileNotFound, EmptyFile, ColumnNotFound, InvalidDate} ==> line == e.text
  {
    match e.cls
    case FileNotFoundError => "FILE_NOT_FOUND"
    case KeyError => "COLUMN_NOT_FOUND"
    case ValueError => e.text
    case OtherError => "ERROR: " + e.text
  }

  /** The markers of the first `n` stages, logged as each stage starts. */
  function Reached(n: nat): (log: seq<LogLine>)
    requires n <= |Markers|
    ensures |log| == n && forall i | 0 <= i < n :: log[i] == Info(Markers[i])
  {
    if n == 0 then [] else Reached(n - 1) + [Info(Markers[n - 1])]
  }

  lemma ReachedLiterals()
    ensures Reached(2) == [Info("START"), Info("LOAD")]
    ensures Reached(3) == [Info("START"), Info("LOAD"), Info("TRANSFORM")]
    ensures Reached(4) == [Info("START"), Info("LOAD"), Info("TRANSFORM"), Info("EXPORT")]
  {
    assert Reached(0) == [];
    assert Reached(1) == [Info("START")];
  }

  /** Which of the later markers the first `n` stages have logged. */
  lemma ReachedMarks(n: nat)
    requires 2 <= n <= |Markers|
    ensures Info("TRANSFORM") in Reached(n) <==> n >= 3
    ensures Info("EXPORT") in Reached(n) <==> n >= 4
    ensures Info("END") in Reached(n) <==> n == 5
  {
    ReachedLiterals();
    assert Reached(5) == Reached(4) + [Info("END")];
  }

  /** One run: the log it leaves and the frame written to the output file, if the export completed. */
  datatype Run = Run(log: seq<LogLine>, written: Option<Frame>)

  /**
    `file` is what the input path holds; `exportFault` is what `df.to_excel`
    raises, if anything. Every log is the stage markers in order, cut off by
    exactly one final line, which is an error exactly when nothing was
    written and END exactly when the export completed.
  */
  function Main(file: CsvFile, exportFault: Option<Exception>): (run: Run)
    ensures 3 <= |run.log| <= 5
    ensures forall i | 0 <= i < |run.log| - 1 :: run.log[i] == Info(Markers[i])
    ensures run.written.None? <==> run.log[|run.log| - 1].Error?
    ensures run.written.Some? <==> run.log[|run.log| - 1] == Info("END")
  {
    match LoadCsv(file)
    case Failure(e) => Run(Reached(2) + [Error(Report(e))], None)
    case Success(df) =>
      match PrepareFreightQueue(df)
      case Failure(e) => Run(Reached(3) + [Error(Report(e))], None)
      case Success(queue) =>
        match SaveToExcel(queue, exportFault)
        case Failure(e) => Run(Reached(4) + [Error(Report(e))], None)
        case Success(_) => Run(Reached(5), Some(queue))
  }

  // ---- properties ----

  /**
    Each exception of the pipeline is reported by its own line, and an
    unexpected exception's line can be mistaken for none of them.
  */
  lemma ReportMessages(text: string)
    ensures Report(FileNotFound) == "FILE_NOT_FOUND"
    ensures Report(EmptyFile) == "EMPTY_FILE"
    ensures Report(ColumnNotFound) == "COLUMN_NOT_FOUND"
    ensures Report(InvalidDate) == "INVALID_DATE"
    ensures Report(Exception(OtherError, text)) == "ERROR: " + text
    ensures Report(Exception(OtherError, text)) !in
      {Report(FileNotFound), Report(EmptyFile), Report(ColumnNotFound), Report(InvalidDate)}
  {
    var line := Report(Exception(OtherError, text));
    assert line[0] == 'E' && line[1] == 'R';
    assert "FILE_NOT_FOUND"[0] == 'F' && "COLUMN_NOT_FOUND"[0] == 'C';
    assert "EMPTY_FILE"[1] == 'M' && "INVALID_DATE"[0] == 'I';
  }

  /**
    The log of a run by the stage that ended it: the markers of every stage
    started, then the failing stage's error line, or all five markers.
  */
  lemma MainLogByStage(file: CsvFile, exportFault: Option<Exception>)
    ensures LoadCsv(file).Failure? ==>
      Main(file, exportFault).log == Reached(2) + [Error(Report(LoadCsv(file).error))]
    ensures LoadCsv(file).Success? && PrepareFreightQueue(LoadCsv(file).value).Failure? ==>
      Main(file, exportFault).log == Reached(3) + [Error(Report(PrepareFreightQueue(LoadCsv(file).value).error))]
    ensures LoadCsv(file).Success? && PrepareFreightQueue(LoadCsv(file).value).Success? && exportFault.Some? ==>
      Main(file, exportFault).log == Reached(4) + [Error(Report(exportFault.value))]
    ensures LoadCsv(file).Success? && PrepareFreightQueue(LoadCsv(file).value).Success? && exportFault.None? ==>
      Main(file, exportFault).log == Reached(5)
  {
  }

  /**
    Each stage starts exactly when every earlier stage succeeded: transform
    only after a successful load, export only after a successful transform.
  */
  lemma MainStageOrder(file: CsvFile, exportFault: Option<Exception>)
    ensures Info("TRANSFORM") in Main(file, exportFault).log <==> LoadCsv(file).Success?
    ensures Info("EXPORT") in Main(file, exportFault).log <==>
      LoadCsv(file).Success? && PrepareFreightQueue(LoadCsv(file).value).Success?
    ensures Info("END") in Main(file, exportFault).log <==>
      LoadCsv(file).Success? && PrepareFreightQueue(LoadCsv(file).value).Success? && exportFault.None?
  {
    MainLogByStage(file, exportFault);
    ReachedMarks(2);
    ReachedMarks(3);
    ReachedMarks(4);
    ReachedMarks(5);
  }

  /**
    Only a frame that was loaded and fully validated is ever written, and it
    is the transformed frame: every shipment date converted, rows in
    ascending date order, a permutation of the loaded rows.
  */
  lemma MainWritesOnlyValidatedFrames(file: CsvFile, exportFault: Option<Exception>)
    ensures Main(file, exportFault).written.Some? <==>
      LoadCsv(file).Success? && PrepareFreightQueue(LoadCsv(file).value).Success? && exportFault.None?
    ensures Main(file, exportFault).written.Some? ==>
      var loaded := LoadCsv(file).value;
      var queue := Main(file, exportFault).written.value;
      queue == PrepareFreightQueue(loaded).value &&
      DateColumn in loaded.columns && queue.columns == loaded.columns &&
      DateSort.Stamped(queue.rows, DateIndex(loaded)) &&
      DateSort.SortedBy(queue.rows, DateIndex(loaded)) &&
      multiset(queue.rows) == multiset(ConvertColumn(loaded.rows, DateIndex(loaded)))
  {
    if Main(file, exportFault).written.Some? {
      PrepareSuccess(LoadCsv(file).value);
    }
  }

  /**
    The line each failure leaves, after the markers of the stages started
    up to and including the failing one (`Reached(2)` is START, LOAD;
    `Reached(3)` adds TRANSFORM; `Reached(4)` adds EXPORT).
  */
  lemma MainFailureMessages(file: CsvFile, exportFault: Option<Exception>, text: string)
    ensures file.Absent? ==>
      Main(file, exportFault) == Run(Reached(2) + [Error("FILE_NOT_FOUND")], None)
    ensures file == Unreadable(Exception(ValueError, text)) ==>
      Main(file, exportFault) == Run(Reached(2) + [Error(text)], None)
    ensures file.Readable? && IsEmpty(file.frame) ==>
      Main(file, exportFault) == Run(Reached(2) + [Error("EMPTY_FILE")], None)
    ensures file.Readable? && !IsEmpty(file.frame) && DateColumn !in file.frame.columns ==>
      Main(file, exportFault) == Run(Reached(3) + [Error("COLUMN_NOT_FOUND")], None)
    ensures file.Readable? && !IsEmpty(file.frame) && DateColumn in file.frame.columns &&
            !AllDatesValid(file.frame) ==>
      Main(file, exportFault) == Run(Reached(3) + [Error("INVALID_DATE")], None)
    ensures file.Readable? && !IsEmpty(file.frame) && DateColumn in file.frame.columns &&
            AllDatesValid(file.frame) && exportFault == Some(Exception(OtherError, text)) ==>
      Main(file, exportFault) == Run(Reached(4) + [Error("ERROR: " + text)], None)
  {
    if file.Readable? && !IsEmpty(file.frame) {
      PrepareOutcomes(file.frame);
    }
  }

  /**
    The handlers go by exception class only: a FileNotFoundError raised by
    the spreadsheet writer (say, a missing output directory) is logged as
    FILE_NOT_FOUND, the same line as a missing input file.
  */
  lemma ExportFileNotFoundLooksLikeMissingInput(t: Frame, text: string)
    requires LoadCsv(Readable(t)).Success? && PrepareFreightQueue(t).Success?
    ensures Main(Readable(t), Some(Exception(FileNotFoundError, text))).log ==
      [Info("START"), Info("LOAD"), Info("TRANSFORM"), Info("EXPORT"), Error("FILE_NOT_FOUND")]
    ensures Main(Readable(t), Some(Exception(FileNotFoundError, text))).log[4] ==
      Main(Absent, None).log[2]
  {
  }
}
