/** The few pieces of JavaScript runtime behaviour that the service relies on:
    optional values, thrown errors, the truthiness test on optional strings,
    and the `string | Buffer` union accepted for image payloads. */
module Js {

  datatype Option<+T> = None | Some(value: T) {
    function GetOr(default: T): T
    {
      match this
      case Some(v) => v
      case None => default
    }
  }

  datatype Result<+T, +E> = Ok(value: T) | Err(error: E)

  /** A Node byte: the element type of a Buffer. */
  newtype byte = x: int | 0 <= x < 256

  /** A thrown JavaScript error: its `name`, its `message`, and the
      numeric `code` property that MongoDB driver errors carry. */
  datatype JsError = JsError(name: string, message: string, code: Option<int>) {
    /** `Error.prototype.toString`, which is what a template literal
        `${error}` produces: the name alone when the message is empty, the
        message alone when the name is empty, otherwise "name: message". */
    function ToString(): string
    {
      if name == "" then message
      else if message == "" then name
      else name + ": " + message
    }
  }

  /** `new Error(message)`. */
  function PlainError(message: string): JsError
  {
    JsError("Error", message, None)
  }

  /** JavaScript truthiness of a field that holds a string or is absent:
      `undefined` and `""` are falsy, every other string is truthy. */
  predicate Truthy(field: Option<string>)
  {
    field.Some? && field.value != ""
  }

  /** An image as a request may carry it: a (base64) string or a Buffer. */
  datatype ImageData = StringImage(text: string) | BufferImage(bytes: seq<byte>)
}
