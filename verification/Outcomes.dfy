/** Results of keeper and handler calls. A Go panic is an error like any other: whoever called
    the transaction or the upgrade sees a failure and nothing is committed. */
module Outcomes {

  datatype Error =
    | InvalidCoins
    | InvalidAddress
    | InsufficientFunds
    | InsufficientFee
    | InvalidGas
    | Unauthorized
    | NotFound
    | Panic(reason: string)

  datatype Outcome = Pass | Fail(error: Error)

  datatype Result<+T> = Ok(value: T) | Err(error: Error)

  datatype Option<+T> = None | Some(value: T)
}
