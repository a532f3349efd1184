/** Result types that stand for the exceptions and `None` values of the scripts. */
module Wrappers {

  datatype Option<+T> = None | Some(value: T)

  /** `Fail` stands for a raised contract error; messages are not modelled. */
  datatype Result<+T> = Ok(value: T) | Fail
}
