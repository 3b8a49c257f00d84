/**
 * The program's error enum and the other failures a transaction of this program
 * can end with.
 */
module Errors {

  /** The `#[error_code]` enum `ErrorCode`, variant for variant and in the same order. */
  datatype ErrorCode =
    | Unauthorized                // "Only the admin can perform this action"
    | InvalidTokenMint            // "Token mint does not match"
    | InvalidTokenOwner           // "Token account owner does not match user"
    | InvalidVaultAddress         // "Vault address does not match collateral vault"
    | InvalidAmount               // "Invalid amount"
    | InvalidDuration             // "Invalid duration"
    | InvalidTokenIndex           // "Invalid token index"
    | InsufficientCollateral      // "Insufficient collateral"
    | ArithmeticError             // "Arithmetic error"
    | UnauthorizedAccess          // "Unauthorized access"
    | InvalidPrice                // "Invalid or stale price feed"
    | AccountOwnedByWrongProgram  // "The given account is owned by a different program than expected"

  /**
   * Why a transaction fails: one of the program's own codes, an Anchor account that
   * must already exist but does not, or a refusal of the SPL token transfer.
   */
  datatype Error =
    | Program(code: ErrorCode)
    | AccountNotInitialized
    | InsufficientFunds
    | Overflow

  /** The outcome of an instruction: `Ok` with a value, or the error that aborted it. */
  datatype Result<T> = Ok(value: T) | Err(error: Error)
}
