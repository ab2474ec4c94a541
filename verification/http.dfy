/** HTTP status codes the user endpoints answer with, and the response shape. */
module Http {

  const OK: int := 200
  const NO_CONTENT: int := 204
  const NOT_MODIFIED: int := 304
  const NOT_FOUND: int := 404
  const CONFLICT: int := 409

  /** A `ResponseEntity`: a status code and a body. */
  datatype Response<B> = Response(status: int, body: B)

  /** A 2xx status. */
  predicate IsSuccess(status: int)
  {
    200 <= status < 300
  }
}
