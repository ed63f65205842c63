/** The error codes the modelled steps can return (program/src/error.rs, plus the
    runtime's and the token program's own). */
module Errors {
  datatype SwapError =
    | AlreadyInUse
    | InvalidInput
    | InvalidInstruction
    | InvalidFee
    | InvalidCurve
    | InvalidSupply
    | EmptySupply
    | ExpectedAccount
    | ConversionFailure
    | CalculationFailure
    | FeeCalculationFailure
    | ZeroTradingTokens
    | ExceededSlippage
    | UnsupportedCurveOperation
    | InvalidRho
    | InvalidSsr
    | InvalidChi
    | ArithmeticOverflow
    | InvalidAccountData
    | UninitializedAccount
    | InsufficientFunds
    | TokenOverflow
    | OwnerMismatch
    | AccountNotEmpty
    | Abort
}
