/** The failures of kernel operations. */
module Errors {
  /** `Panicked` stands for arithmetic overflow, which aborts the operation. */
  datatype KernelError =
    | VectorNotFound
    | InsufficientBalance
    | DimensionMismatch
    | Rejected
    | OriginRejected
    | SettlementRejected(reason: string)
    | InvalidState(reason: string)
    | Panicked
}
