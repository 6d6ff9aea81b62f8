/** The ways the geometry pipeline can stop instead of producing a value. */
module Faults {

  /** A run-time fault of the original code, or a value the real-number
      model cannot represent. */
  datatype Fault =
    | NegativeArraySize   // `new T[n]` with n < 0 throws an overflow exception
    | IndexOutOfRange     // an array read at index -1
    | NotANumber          // the single-float division 0 / 0, which yields NaN

  /** Either a value or the fault that stopped the computation. */
  datatype Result<+T> = Ok(value: T) | Err(fault: Fault)
}
