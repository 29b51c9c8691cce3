/** What the models share: row ids, an optional value, and a value or an error. */
module Wrappers {
  /** The text ids of table rows. */
  type Id = string

  datatype Option<+T> = None | Some(value: T)

  /** What a failing call raises. `DatabaseError` aborts the whole SQL transaction; every other
      error is a Python exception, which a caller may catch and carry on. */
  datatype Error =
    | InvalidAmount
    | MissingText
    | AccountNotFound
    | AppNotEnabled
    | OwnerNotFound
    | ScopeMismatch
    | MembershipInactive
    | OwnerMismatch
    | AmountMismatch
    | AlreadyReleased
    | ReservationNotFound
    | InsufficientBalance
    | InvalidCode
    | InvalidManifest
    | DatabaseError

  datatype Result<+T> = Ok(value: T) | Err(error: Error)
}
