/** Option and Result values used where the analyzer returns "nothing found" or raises. */
module Outcomes {

  datatype Option<+T> = None | Some(value: T)

  /** The one exception the modelled code lets escape: a float division by zero. */
  datatype Error = ZeroDivision

  datatype Result<+T> = Ok(value: T) | Err(error: Error)
}
