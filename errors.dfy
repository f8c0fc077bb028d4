/**
  The exceptions that cross the pipeline. The driver's handlers dispatch on the
  exception's class, so each exception carries the class that decides which
  `except` clause catches it, and its text (`str(e)`).
*/
module Errors {

  /** The handler classes of the driver, most specific first; `OtherError` is any other `Exception`. */
  datatype ExceptionClass = FileNotFoundError | KeyError | ValueError | OtherError

  datatype Exception = Exception(cls: ExceptionClass, text: string)

  /** Raised by `load_csv` when the input path does not exist. */
  const FileNotFound := Exception(FileNotFoundError, "FILE_NOT_FOUND")
  /** Raised by `load_csv` when the parsed table is empty. */
  const EmptyFile := Exception(ValueError, "EMPTY_FILE")
  /** Raised by `prepare_freight_queue` when the shipment-date column is absent. */
  const ColumnNotFound := Exception(KeyError, "COLUMN_NOT_FOUND")
  /** Raised by `prepare_freight_queue` when some shipment date does not parse. */
  const InvalidDate := Exception(ValueError, "INVALID_DATE")
}
