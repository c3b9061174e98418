/** The exceptions the library raises (src/sqlite_integrated/errors.py) and the Python runtime
    errors its code can run into, with `Result` standing for "returns normally or raises". */
module Errors {

  datatype Option<T> = None | Some(value: T)

  /** Why a `QueryError` or a `DatabaseError` was raised. */
  datatype Reason =
    | BadPrefix        // a clause called after a clause it may not follow
    | BadSelection     // SELECT given neither a string nor a list
    | UnknownFields    // names that are not columns of the table
    | NoSuchTable      // the table is not in the database
    | NoDatabase       // `run` with neither an explicit nor an attached database
    | ExecutionFailed  // the engine rejected the statement (sqlite3.OperationalError)
    | PrimaryKeyType   // a primary-key column whose type is not INTEGER
    | NoIdField        // a table without a PRIMARY KEY column
    | NoTableGiven     // a plain dict passed without a table name
    | FieldMismatch    // the entry's keys and the table's columns differ
    | WidthMismatch    // a raw row whose width differs from the number of field names
    | NoEntry          // no row has the requested id
    | ManyEntries      // more than one row has the requested id

  datatype Error =
    | QueryError(reason: Reason)
    | DatabaseError(reason: Reason)
    | TypeError
    | ValueError
    | KeyError
    | IndexError
    | NameError
    | AttributeError  // an attribute read on an object that lacks it (`None.find`, `self.table`)
    | EngineError     // any other sqlite3 error, which the code lets through unchanged

  datatype Result<T> = Ok(value: T) | Err(error: Error) {
    predicate IsFailure() { Err? }

    function PropagateFailure<U>(): Result<U>
      requires Err?
    {
      Err(error)
    }

    function Extract(): T
      requires Ok?
    {
      value
    }
  }
}
