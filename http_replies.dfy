/** What a handler sends through the `res.ok` and `res.fail` helpers of the
  * response middleware: a status code with either the data or a message
  * and the error detail. The envelope `{ data, message, errors }` itself is
  * the same for every handler and is not spelled out. */
module HttpReplies {
  import opened JsValues

  datatype Response<T> =
    | Success(status: nat, data: T)
    | Failure(status: nat, message: string, errors: JsValue)

  /** `res.ok(data)`. */
  function OkResponse<T>(data: T): (r: Response<T>)
    ensures r.Success? && r.status == 200 && r.data == data
  {
    Success(200, data)
  }

  /** `res.fail(message, 400)`: a rejected request, with no error detail. */
  function BadRequest<T>(message: string): (r: Response<T>)
    ensures r.Failure? && r.status == 400 && r.message == message && r.errors == Null
  {
    Failure(400, message, Null)
  }

  /** `res.fail(message, error.status || 500, error.message ?? error)` for
    * an `Error` with no `status` of its own (the file-system and parsing
    * errors of the stores): the answer is 500 with the error's message as
    * detail. */
  function ServerError<T>(message: string, detail: string): (r: Response<T>)
    ensures r.Failure? && r.status == 500 && r.errors == Str(detail)
  {
    Failure(500, message, Str(detail))
  }

  /** An `Error` a repository throws: its message and the `status` the code
    * attaches to some of them (0 when it attaches none). */
  datatype Thrown = Thrown(status: nat, message: string)

  /** `res.fail(message, error?.status || 500, error?.message ?? error)`:
    * the error's own status when it has one, else 500. */
  function FailWith<T>(message: string, e: Thrown): (r: Response<T>)
    ensures r.Failure? && r.message == message && r.errors == Str(e.message)
    ensures r.status == if e.status == 0 then 500 else e.status
  {
    Failure(if e.status == 0 then 500 else e.status, message, Str(e.message))
  }
}
