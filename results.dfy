/** Error reporting shared by the property graph model: the error kinds the
    graph's operations return, and the Option / Result / Outcome wrappers that
    stand for `std::shared_ptr` nullability, `Result<T>` and `Result<void>`. */
module Results {

  /** The error kinds the property graph's operations can report. */
  datatype ErrorCode =
    | InvalidArgument  // bad request: missing or ambiguous property, row-count or name clash
    | OutOfRange       // a column index outside the schema
    | IoError          // the backing store refused, e.g. the target name already exists
    | InvalidState     // Write() on a graph that was built in memory and never named
    | Corruption       // a loaded graph failed its post-load sanity check

  datatype Option<+T> = None | Some(value: T)

  /** `Result<T>`: a value or an error. */
  datatype Result<+T> = Ok(value: T) | Err(error: ErrorCode)

  /** `Result<void>`: success or an error. */
  datatype Outcome = Pass | Fail(error: ErrorCode)
}
