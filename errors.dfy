/** The failure conditions of the vault's operations. Each revert reason of
    the contract is one constructor; an operation either succeeds in full or
    fails with one of these and changes nothing. */
module Errors {

  datatype Error =
    | Unauthorized                 // caller lacks the role the operation needs
    | Paused                       // the circuit breaker is set (or already set, for pause)
    | NotPaused                    // unpause while not paused
    | DepositLimitReached          // "SolverVault: Deposit limit reached"
    | TransferFailed               // the collateral token's transferFrom reverted
    | InsufficientTokenBalance     // caller holds fewer vault tokens than it asks to redeem
    | InsufficientContractBalance  // "SolverVault: Insufficient contract balance"
    | InvalidRequestID             // "SolverVault: Invalid request ID"
    | InvalidAcceptedRequest       // "SolverVault: Invalid accepted request"
    | RequestNotReady              // "SolverVault: Request not ready for withdrawal"
    | PaybackRatioTooLow           // "SolverVault: Payback ratio is too low"
    | ArithmeticUnderflow          // checked subtraction below zero

  /** Result of an operation that returns nothing on success. */
  datatype Outcome = Ok | Fail(error: Error)

  /** Result of an operation that returns a value on success. */
  datatype Result<T> = Success(value: T) | Failure(error: Error)
}
