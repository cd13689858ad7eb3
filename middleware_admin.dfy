/**
 * middleware/admin.go: the admin flag every request carries, and the guard
 * that sends non-admins to the login page.
 */
module Admin {
  import opened Wrappers
  import Web

  /** The cookie holding the admin token, and the context key the flag is stored under. */
  const AdminCookie := "X-Admin-Token"
  const IsAdminKey := "isAdmin"

  /**
   * gin's Context.Cookie: no cookie sent is an error (None); otherwise the
   * raw value through url.QueryUnescape (`unescape`, None for a malformed
   * escape), whose error is dropped, leaving "".
   */
  function GinCookie(raw: Option<string>, unescape: string -> Option<string>): (v: Option<string>)
    ensures v.None? <==> raw.None?
    ensures raw.Some? && unescape(raw.value).Some? ==> v == unescape(raw.value)
    ensures raw.Some? && unescape(raw.value).None? ==> v == Some("")
  {
    match raw
    case None => None
    case Some(value) => Some(match unescape(value) case Some(u) => u case None => "")
  }

  /**
   * The flag AdminAuthMiddleware computes from the cookie as gin returns
   * it: the cookie was sent, the configured ADMIN_TOKEN is not empty, and
   * the two are equal (ConstantTimeCompare is equality here; its timing is
   * not modelled).
   */
  function AdminFlag(cookie: Option<string>, adminToken: string): (b: bool)
    ensures b ==> cookie == Some(adminToken)
    ensures b ==> adminToken != ""
    ensures cookie == Some(adminToken) && adminToken != "" ==> b
  {
    cookie.Some? && |adminToken| > 0 && cookie.value == adminToken
  }

  /** An empty ADMIN_TOKEN grants admin to nobody, not even to an empty cookie. */
  lemma EmptyTokenNeverAdmin(cookie: Option<string>)
    ensures !AdminFlag(cookie, "")
  {
  }

  /**
   * AdminAuthMiddleware's handler: read X-Admin-Token through gin (so
   * URL-unescaped), store the flag in the context, then continue.
   */
  method AdminAuthMiddleware(c: Web.Context, adminToken: string, unescape: string -> Option<string>)
    modifies c`values
    ensures c.values ==
            old(c.values)[IsAdminKey := Web.Flag(AdminFlag(GinCookie(c.request.Cookie(AdminCookie), unescape), adminToken))]
  {
    var token := GinCookie(c.request.Cookie(AdminCookie), unescape);
    var flag := AdminFlag(token, adminToken);
    c.values := c.values[IsAdminKey := Web.Flag(flag)];
  }

  /** IsAdmin: the flag is set and is a true bool; unset or not a bool reads as false. */
  function IsAdmin(values: map<string, Web.CtxValue>): (b: bool)
    ensures b <==> IsAdminKey in values && values[IsAdminKey] == Web.Flag(true)
  {
    if IsAdminKey !in values then false
    else match values[IsAdminKey]
      case Flag(v) => v
      case _ => false
  }

  /** After AdminAuthMiddleware, IsAdmin is exactly the flag it computed. */
  lemma IsAdminReadsFlag(values: map<string, Web.CtxValue>, cookie: Option<string>, adminToken: string)
    ensures IsAdmin(values[IsAdminKey := Web.Flag(AdminFlag(cookie, adminToken))]) <==> AdminFlag(cookie, adminToken)
  {
  }

  /** The path RequireLogin sends to the login page: the request path if it starts with '/', else "/". */
  function ReturnPath(path: string): (p: string)
    ensures "/" <= p
    ensures "/" <= path ==> p == path
    ensures !("/" <= path) ==> p == "/"
  {
    if "/" <= path then path else "/"
  }

  /**
   * RequireLogin's decision: admins go on; anyone else is redirected with
   * 303 to the login page, carrying the escaped same-site path to come
   * back to, and the chain stops.
   */
  function RequireLoginDecision(values: map<string, Web.CtxValue>, path: string, queryEscape: string -> string)
    : (ch: Web.Chain)
    ensures ch.Next? <==> IsAdmin(values)
    ensures ch.Abort? ==>
              ch.response == Web.Redirect(Web.StatusSeeOther, "/login?go=" + queryEscape(ReturnPath(path)))
  {
    if IsAdmin(values) then Web.Next
    else Web.Abort(Web.Redirect(Web.StatusSeeOther, "/login?go=" + queryEscape(ReturnPath(path))))
  }

  /**
   * A request that passed AdminAuthMiddleware gets past RequireLogin iff
   * its raw cookie was sent and unescapes to the non-empty admin token (a
   * malformed escape unescapes to "", which never matches).
   */
  lemma AdminChainPasses(values: map<string, Web.CtxValue>, raw: Option<string>, unescape: string -> Option<string>,
                         adminToken: string, path: string, queryEscape: string -> string)
    ensures RequireLoginDecision(values[IsAdminKey := Web.Flag(AdminFlag(GinCookie(raw, unescape), adminToken))],
                                 path, queryEscape).Next?
            <==> adminToken != "" && raw.Some? && unescape(raw.value) == Some(adminToken)
  {
    IsAdminReadsFlag(values, GinCookie(raw, unescape), adminToken);
  }

  /** RequireLogin's handler: on Abort the redirect is written and the chain aborted; on Next nothing changes. */
  method RequireLogin(c: Web.Context, queryEscape: string -> string)
    modifies c`written, c`aborted
    ensures var ch := RequireLoginDecision(c.values, c.request.path, queryEscape);
            && (ch.Next? ==> c.written == old(c.written) && c.aborted == old(c.aborted))
            && (ch.Abort? ==> c.written == Some(ch.response) && c.aborted)
  {
    if IsAdmin(c.values) {
      return;
    }
    var goUrl := c.request.path;
    if !("/" <= goUrl) {
      goUrl := "/";
    }
    c.written := Some(Web.Redirect(Web.StatusSeeOther, "/login?go=" + queryEscape(goUrl)));
    c.aborted := true;
  }
}
