/**
  `load_csv`: the existence and emptiness guards around `pd.read_csv`. The file
  system and the CSV tokeniser are abstracted into what they hand back: the
  path is absent, the tokeniser raised, or it produced a frame.
*/
module Loader {
  import opened Wrappers
  import opened Frames
  import opened Errors

  /** What the input path holds, as far as `load_csv` can observe it. */
  datatype CsvFile =
    | Absent                          // `os.path.exists` is false
    | Unreadable(raised: Exception)   // `pd.read_csv` raised
    | Readable(frame: Frame)          // `pd.read_csv` returned this frame

  function LoadCsv(file: CsvFile): (r: Result<Frame, Exception>)
    ensures r.Success? ==> |r.value.rows| >= 1 && |r.value.columns| >= 1
  {
    match file
    case Absent => Failure(FileNotFound)
    case Unreadable(e) => Failure(e)
    case Readable(t) => if IsEmpty(t) then Failure(EmptyFile) else Success(t)
  }

  /**
    The guards in order: a missing path fails with FILE_NOT_FOUND before
    anything is read; a frame without rows (or without columns) fails with
    EMPTY_FILE; any other frame is handed on unchanged.
  */
  lemma LoadOutcomes(file: CsvFile)
    ensures file.Absent? ==> LoadCsv(file) == Failure(FileNotFound)
    ensures file.Unreadable? ==> LoadCsv(file) == Failure(file.raised)
    ensures file.Readable? ==> (LoadCsv(file) == Failure(EmptyFile) <==> IsEmpty(file.frame))
    ensures LoadCsv(file).Success? <==> file.Readable? && !IsEmpty(file.frame)
    ensures LoadCsv(file).Success? ==> LoadCsv(file).value == file.frame
  {
  }

  /** A file holding only its header row is rejected as empty. */
  lemma HeaderOnlyIsEmpty(columns: seq<string>)
    requires forall i, j | 0 <= i < j < |columns| :: columns[i] != columns[j]
    ensures LoadCsv(Readable(Table(columns, []))) == Failure(EmptyFile)
  {
  }
}
