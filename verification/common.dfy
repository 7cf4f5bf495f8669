/** Small datatypes shared by every module of the model. */
module Common {

  /** A value that may be absent: `null`/`undefined` in the source. */
  datatype Option<+T> = None | Some(value: T) {
    function GetOr(default: T): T {
      if Some? then value else default
    }
  }

  /** The outcome of a schema validation or of a lookup that can fail. */
  datatype Result<+T, +E> = Ok(value: T) | Err(error: E)

  /** The body of an error reply: `{ msg }` from an explicit check, or
      `{ error: err.message }` when a Mongoose validation failed (the model
      name and the paths whose required check failed, in schema order). */
  datatype ApiError = Msg(text: string) | ValidationFailed(model: string, paths: seq<string>)

  /** An Express reply: `res.json(body)` (status 200) or
      `res.status(code).json(error)`. */
  datatype Response<+T> = Json(body: T) | ErrorStatus(code: nat, error: ApiError)
}
