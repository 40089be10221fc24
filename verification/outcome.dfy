/** Outcomes of the request handlers and their HTTP rendering.
    The source signals failure by `abort(404)` / `abort(422)`; here every
    handler returns one of these tagged outcomes instead. */
module Outcome {

  /** An optional JSON field: `body.get(key, None)`. */
  datatype Option<+T> = None | Some(value: T)

  /** What a handler produces: a 404, a 422, or a 200 carrying its payload. */
  datatype Response<+T> = NotFound | Unprocessable | Ok(payload: T)

  /** The JSON body the two error handlers send. */
  datatype ErrorBody = ErrorBody(success: bool, error: int, message: string)

  /** The HTTP status code of an outcome. */
  function StatusCode<T>(r: Response<T>): (code: int)
    ensures code == 200 <==> r.Ok?
    ensures code == 404 <==> r.NotFound?
    ensures code == 422 <==> r.Unprocessable?
  {
    match r
    case NotFound => 404
    case Unprocessable => 422
    case Ok(_) => 200
  }

  /** The body of a failed request, as the `errorhandler(404)` and
      `errorhandler(422)` functions build it. */
  function ErrorBodyOf<T>(r: Response<T>): (b: ErrorBody)
    requires !r.Ok?
    ensures !b.success && b.error == StatusCode(r)
    ensures b.message == (if r.NotFound? then "resource not found" else "unprocessable")
  {
    if r.NotFound? then ErrorBody(false, 404, "resource not found")
    else ErrorBody(false, 422, "unprocessable")
  }
}
