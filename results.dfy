/** Optional values, JavaScript exceptions and fallible results, shared by every module. */
module Results {

  /** A value that may be absent (`undefined` in the source). */
  datatype Option<+T> = None | Some(value: T)

  /** A thrown JavaScript `Error`; only its `message` is observable by the code modelled here. */
  datatype JsError = JsError(message: string)

  /** The outcome of a step that may throw. */
  datatype Result<+T> = Ok(value: T) | Err(error: JsError)
}
