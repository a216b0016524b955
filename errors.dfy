/** Failure values of the simulator and the small wrappers that carry them. */
module Errors {

  /** The two conditions the simulator raises as `ValueError`. */
  datatype Error =
    | NegativeDamage(amount: int)      // take_damage called with a negative amount
    | UnknownHeroClass(name: string)   // the factory was given a class name outside the roster

  datatype Option<+T> = None | Some(value: T)

  /** A call that either completes with a value or raises an error. */
  datatype Result<+T> = Ok(value: T) | Err(error: Error)

  /** A call that either completes or raises an error, with no value. */
  datatype Outcome = Pass | Fail(error: Error)
}
