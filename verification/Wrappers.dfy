/** Optional values and the outcomes of fallible operations. */
module Wrappers {
  datatype Option<+T> = None | Some(value: T)

  /** The error cases of the session layer; the message texts in the program carry no more than this. */
  datatype Error =
    | NoSendingChain
    | NoReceivingChain
    | SkipLimit
    | AeadFailure
    | InvalidSignature

  datatype Result<+T> = Ok(value: T) | Err(error: Error)
}
