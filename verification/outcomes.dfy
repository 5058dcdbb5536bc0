/** Failure-carrying values used throughout the model.

    The source reports misuse by raising Python exceptions. Here an exception
    is a value of `Error`, a computation that may raise returns a `Result`, and
    a mutator that may raise returns a `Step`, whose failure case still carries
    the receiver so that "the receiver is left unchanged" can be stated.
 */
module Outcomes {

  /** The exceptions the modelled code raises. */
  datatype Error =
    | TypeError(message: string)
    | NotImplementedError

  datatype Option<+T> = None | Some(value: T)

  /** The outcome of a computation that returns a value or raises. */
  datatype Result<+T> = Ok(value: T) | Err(error: Error)

  /** The outcome of a mutator that returns its receiver or raises; in both
      cases `receiver` is the receiver's state after the call. */
  datatype Step<+T> = Done(receiver: T) | Threw(error: Error, receiver: T)
}
