/**
 * The part of a fasthttp request context the toolkit reads and writes:
 * the request URI, the response's content type, status code and headers,
 * and the target of a redirect.
 */
module Http {
  import opened Wrappers

  datatype Ctx = Ctx(requestUri: string, contentType: string, status: nat,
                     headers: map<string, string>, location: Option<string>)

  const Found: nat := 302
  const Unauthorized: nat := 401
  const NotFound: nat := 404
  const InternalServerError: nat := 500

  /** `ctx.Redirect(uri, code)`: the status is set and the location recorded. */
  function Redirect(ctx: Ctx, uri: string, code: nat): (r: Ctx)
    ensures r.location == Some(uri) && r.status == code
    ensures r.requestUri == ctx.requestUri && r.headers == ctx.headers && r.contentType == ctx.contentType
  {
    ctx.(location := Some(uri), status := code)
  }
}
