/** Python floats and `None`, as the core sees them.
    Arithmetic is exact (`real`); the only IEEE-754 behaviour the core relies on is
    `np.isfinite`, so a float is either a finite value or not finite (nan, +inf, -inf). */
module Floats {

  /** A Python float: finite with its value, or nan/inf. */
  datatype Num = Finite(value: real) | NonFinite

  /** `Optional[...]`: a slot that may hold `None`. */
  datatype Option<T> = None | Some(value: T)

}
