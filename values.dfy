/** JavaScript values the model needs beyond strings and numbers: `undefined`,
    thrown errors, and the way `undefined` prints inside a string concatenation. */
module Values {

  /** A value that may be `undefined`. */
  datatype Option<+T> = None | Some(value: T)

  /** The errors the modelled code can throw. */
  datatype JsError =
    | ReferenceError(name: string)   // an identifier that is not bound
    | TypeError(message: string)     // a property read on `undefined`
    | SyntaxError(message: string)   // `JSON.parse` of text that is not JSON
    | Error(message: string)         // `throw Error(message)`

  /** The outcome of a call that either returns a value or throws. */
  datatype Result<+T> = Ok(value: T) | Err(error: JsError)

  /** `"" + v` for a string or `undefined`: JavaScript prints `undefined` literally. */
  function Str(v: Option<string>): string
  {
    match v
    case Some(s) => s
    case None => "undefined"
  }
}
