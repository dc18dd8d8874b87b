/** Optional values, the exceptions the attributed-string code raises, and a result type that carries them. */
module Wrappers {

  datatype Option<+T> = None | Some(value: T)

  /** Why a `ValueError` was raised. */
  datatype Reason =
    | NonStringArg     // a positional attribute that is not a string
    | FgTwice          // a foreground colour given twice
    | BgTwice          // a background colour given twice (the message text says "fg")
    | UnknownArg       // a positional name that is neither colour, `on_` colour nor style
    | UnknownKey       // a keyword that is not `fg`, `bg` or a style name
    | BadFg            // an `fg` value outside the foreground code table
    | BadBg            // a `bg` value outside the background code table
    | BadSpliceValue   // splice assignment of something that is neither str nor FmtStr
    | BadInput         // the builder given something that is neither str nor FmtStr

  /** The Python exception classes the code can raise. */
  datatype Error =
    | TypeError
    | KeyError
    | NotImplementedError
    | ValueError(reason: Reason)

  datatype Result<+T> = Ok(value: T) | Err(error: Error)
}
