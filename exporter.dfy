/**
  `save_to_excel`, as an abstract final step: the spreadsheet writer is not
  modelled, only that it either raises or leaves the file at the fixed output
  path and returns that path.
*/
module Exporter {
  import opened Wrappers
  import opened Frames
  import opened Errors

  /** The output file, relative to the project root. */
  const OutputPath := "data/fila-fretes.xlsx"

  /** `fault` is the exception `df.to_excel` raises on this run, if any. */
  function SaveToExcel(t: Frame, fault: Option<Exception>): (r: Result<string, Exception>)
    ensures r.Success? <==> fault.None?
    ensures r.Success? ==> r.value == OutputPath
    ensures r.Failure? ==> r.error == fault.value
  {
    match fault
    case None => Success(OutputPath)
    case Some(e) => Failure(e)
  }
}
