/** Shared vocabulary of the order service model: optional values, the
    success/failure outcome of a store call, and document identifiers. */
module Basics {

  /** A value that may be absent (a `null` lookup result, an omitted field). */
  datatype Option<+T> = None | Some(value: T)

  /** Why a store call threw instead of returning. */
  datatype Error =
    | ValidationFailed   // a required field is missing from a document
    | NegativeSkip       // a page number below 1 asks the database to skip a negative count
    | CastFailed         // a request parameter is not the text of a document id

  /** Outcome of a call that may throw. */
  datatype Result<+T> = Success(value: T) | Failure(error: Error)

  /** Document identifier, generated by the store on insertion. */
  type Id = nat
}
