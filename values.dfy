/** Small value types shared by the whole model. */
module Values {

  datatype Option<+T> = None | Some(value: T)

  /** One field of a JSON request body, as `express.json()` hands it to a handler.
      `Absent` is a key the client did not send (JavaScript's `undefined`).
      A number keeps its literal, and an object or an array its JSON text, as the client spelled
      them, so a todo title of any kind is stored and answered with its value. */
  datatype Json =
    | Absent
    | Null
    | Bool(b: bool)
    | Number(literal: string)
    | Str(s: string)
    | Compound(text: string)   // an object or an array, as its JSON text
}
