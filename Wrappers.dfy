/** Option and Result values used where the source returns `null`/`undefined`
    or throws. */
module Wrappers {

  datatype Option<+T> = None | Some(value: T)

  /** The JavaScript errors the modelled code can raise. */
  datatype JsError =
    | ReadOfNull                  // a model constructor applied to `null`
    | NotAFunction(name: string)  // a call of a method the object does not have

  datatype Result<+T> = Ok(value: T) | Err(error: JsError)
}
