/** The outcomes of the stores' operations, with the Java exceptions made explicit. */
module Outcomes {

  datatype Option<T> = None | Some(value: T)

  /** What goes wrong in the spreadsheet stores. */
  datatype DaoError =
    | ReadFailed(path: string)    // an IOException other than a missing file, while reading
    | WriteFailed(path: string)   // an IOException while writing the workbook
    | MalformedRow(row: nat)      // a data row whose cells are missing or of the wrong type
    | IdOverflow                  // no int id is larger than every stored id

  datatype Result<T> = Ok(value: T) | Err(error: DaoError)

  /** The outcome of an operation that returns nothing when it succeeds. */
  datatype Outcome = Done | Failed(error: DaoError)
}
