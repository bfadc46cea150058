/** The few JavaScript run-time notions the modelled expressions rely on. */
module Js {

  /** A value that may be `undefined`: `None` is `undefined`. */
  datatype Option<+T> = None | Some(value: T)

  /** The errors the modelled code can raise. `Error(m)` is `new Error(m)`;
      `TypeError` is what the engine throws when a property of `undefined` is read. */
  datatype JsError = TypeError | Error(message: string)

  /** How the evaluation of an expression ends: with a value, or by throwing. */
  datatype Completion<+T> = Normal(value: T) | Throw(error: JsError)
}
