// The two result shapes used throughout: a value that may be absent (a nil
// pointer in the program) and an operation that may fail (its error return).
module Wrappers {
  datatype Option<+T> = None | Some(value: T)

  datatype Error =
    | NotFound
    | BadRecord
    | FetchFailed
    | ConflictingFees
    | Cancelled
    | GasLimitReached
    | TipAboveFeeCap
    | FeeCapTooLow
    | InsufficientFunds
    | ExecutionRejected
    | BadSignature
    | DivisionByZero
    | BadSyntax
    | OutOfRange
    | NilDereference
    | MissingTransactions
    | MissingBlockNumber

  datatype Result<+T> = Ok(value: T) | Err(error: Error)
}
