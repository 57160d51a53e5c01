/** Error values and the result wrappers shared by every layer of the coin store model.

    Go reports failure as a second `error` return. The model keeps that shape: an
    operation yields a value together with an `Option<Error>`, or a `Result` when only one
    of the two is meaningful. */
module Errors {

  datatype Option<+T> = None | Some(value: T)

  /** A Go `(T, error)` pair in which the value is ignored whenever the error is set. */
  datatype Result<+T> = Ok(value: T) | Err(error: Error)

  /** The named error codes the core creates with `errors.New` and writes into HTTP
      error bodies. Most of their string constants are missing from pkg/errors, so the
      model keeps them symbolic. */
  datatype ErrorCode =
    | UnmarshalResponse
    | InvalidAuthReqParams
    | WrongPassword
    | WrongPasswordFormat
    | Login
    | GetInfo
    | ItemDoesntExist
    | NotEnoughCoins
    | GetBuyItem
    | InvalidSendCoinsReqParams
    | InvalidRecipientYourself
    | InvalidRecipient

  /** A Go `error` value. */
  datatype Error =
    | Coded(code: ErrorCode)                  // errors.New(internalErrors.X)
    | Driver(message: string)                 // reported by the database driver or a foreign call
    | Wrapped(context: string, cause: Error)  // fmt.Errorf("<context>: %w", cause)

  /** pgx.ErrNoRows, the driver's "query matched no row" sentinel. */
  const ErrNoRows: Error := Driver("no rows in result set")
}
