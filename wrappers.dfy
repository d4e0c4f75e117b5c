/// Outcome types shared by the whole model. Every `panic!`, `todo!` and
/// `build_ti_error!` of the parser becomes an `Err` carrying a `ParseError`.
module Wrappers {

  datatype Option<T> = None | Some(value: T)

  /** The diagnostics the parser raises; `pos` is the index of the token the
      diagnostic reports. */
  datatype ParseError =
    | Syntax(pos: nat)        // an unexpected token where a specific kind was required
    | Unterminated(pos: nat)  // end of input inside an argument list
    | Unsupported(pos: nat)   // a recognised but unimplemented construct (`todo!`)
    | OutOfRange(pos: nat)    // a random-access read past the end of the stream

  /** What a method of the parser returns: its value, or the first error. */
  datatype Result<T> = Ok(value: T) | Err(error: ParseError)
}
