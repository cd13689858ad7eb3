/**
 * The slice of an HTTP exchange that the handlers look at: form and query
 * values, headers, cookies and the peer address of a request, and the
 * response or middleware decision a handler produces.
 */
module Web {
  import opened Wrappers

  datatype Request = Request(
    form: map<string, string>,
    query: map<string, string>,
    headers: map<string, string>,
    cookies: map<string, string>,
    remoteAddr: string,
    userAgent: string,
    path: string)
  {
    /** gin's PostForm: the submitted value, or "" when the field is absent. */
    function PostForm(name: string): string
    {
      if name in form then form[name] else ""
    }

    /** gin's Query: the query value, or "" when the parameter is absent. */
    function Query(name: string): string
    {
      if name in query then query[name] else ""
    }

    /** net/http's Header.Get: "" when the header is absent. */
    function Header(name: string): string
    {
      if name in headers then headers[name] else ""
    }

    /** net/http's Request.Cookie: an error (None) when no such cookie was sent. */
    function Cookie(name: string): Option<string>
    {
      if name in cookies then Some(cookies[name]) else None
    }
  }

  /** What a handler writes back; templates are named, their rendering is not modelled. */
  datatype Response =
    | Redirect(status: int, location: string)
    | Json(status: int, message: string)
    | Page(status: int, template: string, error: string)
    /** A Go panic, turned into a 500 by gin's Recovery middleware. */
    | Crash

  /** What a gin middleware does with the rest of the handler chain. */
  datatype Chain = Next | Abort(response: Response)

  /** A value a middleware stores with c.Set: a bool, or a captcha verification result. */
  datatype CtxValue = Flag(b: bool) | Captcha(success: bool)

  /**
   * gin's per-request Context as the middlewares use it: the request, the
   * values set with c.Set, the response written so far, the cookies set
   * and whether the chain was aborted.
   */
  class Context {
    const request: Request
    var values: map<string, CtxValue>
    var written: Option<Response>
    var setCookies: map<string, string>
    var aborted: bool

    constructor (r: Request)
      ensures request == r && values == map[] && written == None && setCookies == map[] && !aborted
    {
      request := r;
      values := map[];
      written := None;
      setCookies := map[];
      aborted := false;
    }
  }

  const StatusOK := 200
  const StatusSeeOther := 303
  const StatusBadRequest := 400
  const StatusUnauthorized := 401
  const StatusForbidden := 403
  const StatusInternalServerError := 500
}
