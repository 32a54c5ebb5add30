/** Failure-carrying results shared by the generator's modules. */
module Wrappers {

  datatype Option<+T> = None | Some(value: T)

  /** Why a curve or a batch could not be produced. */
  datatype Failure =
    /** `random.sample` was asked for more elements than its range holds (a ValueError). */
    | EmptyRange
    /** The oracle ran out of pre-drawn values; stands for a rejection loop that never ends. */
    | OracleExhausted

  datatype Result<+T> = Ok(value: T) | Err(error: Failure)
}
