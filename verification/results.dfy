/**
  Failure values shared by the record store.

  The service signals failure with Python exceptions; here every operation
  returns one of these datatypes instead, and the state reached before the
  exception is kept by the caller.
 */
module Results {

  /** What went wrong, one constructor per kind of exception the service raises. */
  datatype Error =
    | MalformedIndex   // an index line with `;` that is not `key;int` (unpack or int() fails)
    | BadNumber        // int() / Decimal() of a data field fails
    | BadStatus        // CarStatus(value) of an unknown status string
    | MissingField     // IndexError on a field of a split line
    | LineOutOfRange   // IndexError on `sales_lines[i]`
    | NegativeSeek     // seek to a negative offset (an index value below zero)
    | UnknownCar       // "car with VIN ... not found"
    | MalformedCar     // "error reading car data" / "invalid car record"
    | VinTaken         // "VIN ... already exists"
    | CarLineMissing   // "car record not found" (readline at or past the end)
    | UnknownSale      // "sale ... not found"

  datatype Option<T> = None | Some(value: T)

  datatype Result<T> = Ok(value: T) | Err(error: Error)

  /** Outcome of an operation that returns `None` in Python. */
  datatype Outcome = Pass | Fail(error: Error)
}
