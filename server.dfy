/**
 * main.go: the handlers written inline in main. POST /lookup/ checks the
 * entry's credential, records the visit and extends the visitor's access
 * ticket; the /view/ guard admits admins and ticket holders for that key;
 * POST /login hands out the admin cookie. JWT signing is a function from
 * claims to a token (None when signing fails); verification is Jwt's
 * verification function.
 */
module Server {
  import opened Wrappers
  import Web
  import Types
  import Entries
  import Jwt
  import Admin
  import Turnstile
  import EntriesController

  const RecipientMismatch := "收件人核验失败，请检查输入是否正确（大小写、空格？）"
  const PasswordMismatch := "密码核验失败，请检查输入是否正确（大小写、空格？）"
  const CaptchaFailed := "验证码核验失败，请重试。"
  const LoginFailed := "账号或密码错误"
  const NoTicket := "无访问权限1"
  const KeyNotAllowed := "无访问权限2"

  const ViewScope := "page:view"
  /** A ticket lives 90 days from the last lookup (in seconds). */
  const NinetyDays := 90 * 24 * 60 * 60

  // ---------------------------------------------------------------------------
  // Captcha in front of the forms

  /**
   * The TurnstileConfig main.go passes for /login and /lookup/: the default
   * token field; Verify reports success only when siteverify answered
   * without error and with success; OnFail renders the check page.
   */
  function FormGuardConfig(siteverify: (string, string) -> Turnstile.Verification): (cfg: Turnstile.TurnstileConfig)
    ensures cfg.tokenField == "" && cfg.verify.Some? && cfg.onFail.Some?
    ensures cfg.onFail.value == Web.Page(Web.StatusBadRequest, "view_check.html", CaptchaFailed)
    ensures forall t, ip :: cfg.verify.value(t, ip).success ==> siteverify(t, ip) == Turnstile.Verification(true, false)
  {
    Turnstile.TurnstileConfig(
      "",
      Some((t: string, ip: string) =>
        var v := siteverify(t, ip);
        Turnstile.Verification(!v.failed && v.success, v.failed)),
      Some(Web.Page(Web.StatusBadRequest, "view_check.html", CaptchaFailed)))
  }

  // ---------------------------------------------------------------------------
  // POST /lookup/

  /**
   * The credential check: an entry without Encrypt or without a method is
   * open; method "recipient" wants the form value to equal the recipient
   * name (a missing name refuses everyone); method "password" wants it to
   * equal the password, if one is set; any other method is open. The
   * result is the refusal message, if any.
   */
  function CredentialCheck(data: Entries.EntryData, formPassword: string): (refusal: Option<string>)
    ensures data.encrypt.None? || data.encrypt.value.methodName.None? ==> refusal.None?
    ensures data.encrypt.Some? && data.encrypt.value.methodName == Some("recipient") ==>
              (refusal.None? <==> data.recipientName == Some(formPassword)) &&
              (refusal.Some? ==> refusal.value == RecipientMismatch)
    ensures data.encrypt.Some? && data.encrypt.value.methodName == Some("password") ==>
              (refusal.None? <==>
                 data.encrypt.value.password.None? || data.encrypt.value.password == Some(formPassword)) &&
              (refusal.Some? ==> refusal.value == PasswordMismatch)
    ensures refusal.Some? ==>
              data.encrypt.Some? && data.encrypt.value.methodName in {Some("recipient"), Some("password")}
  {
    if data.encrypt.None? || data.encrypt.value.methodName.None? then None
    else
      var m := data.encrypt.value.methodName.value;
      if m == "recipient" && (data.recipientName.None? || data.recipientName.value != formPassword) then
        Some(RecipientMismatch)
      else if m == "password" && data.encrypt.value.password.Some? &&
              data.encrypt.value.password.value != formPassword then
        Some(PasswordMismatch)
      else None
  }

  /** Entries that PostEntry creates carry no Encrypt, so any form value opens them. */
  lemma PostedEntriesAreOpen(req: Web.Request, imageIDs: seq<string>, formPassword: string)
    ensures CredentialCheck(EntriesController.Payload(req, imageIDs), formPassword).None?
  {
  }

  /**
   * The claims the lookup handler signs: scope "page:view" if there was
   * none, the issue time if there was none, expiry 90 days from now, and
   * the key added to the allow list.
   */
  function MergeClaims(claims: Jwt.AccessClaims, key: string, now: int): (c: Jwt.AccessClaims)
    ensures c.scope != "" && (claims.scope != "" ==> c.scope == claims.scope)
    ensures claims.scope == "" ==> c.scope == ViewScope
    ensures c.issuedAt.Some? && (claims.issuedAt.Some? ==> c.issuedAt == claims.issuedAt)
    ensures claims.issuedAt.None? ==> c.issuedAt == Some(now)
    ensures c.expiresAt == Some(now + NinetyDays)
    ensures claims.allowKeyList <= c.allowKeyList
    ensures key != "" ==> key in c.allowKeyList
    ensures forall k :: k in c.allowKeyList ==> k in claims.allowKeyList || k == key
  {
    Jwt.AccessClaims(
      Jwt.AppendAllowKey(claims.allowKeyList, key),
      if claims.scope == "" then ViewScope else claims.scope,
      if claims.issuedAt.None? then Some(now) else claims.issuedAt,
      Some(now + NinetyDays))
  }

  /** Looking the same key up again only moves the expiry. */
  lemma MergeAgainOnlyExtends(claims: Jwt.AccessClaims, key: string, t1: int, t2: int)
    ensures MergeClaims(MergeClaims(claims, key, t1), key, t2) ==
            MergeClaims(claims, key, t1).(expiresAt := Some(t2 + NinetyDays))
  {
    Jwt.AppendAllowKeyIdempotent(claims.allowKeyList, key);
  }

  /** The ticket after a run of lookups, each a key and the time it happened. */
  function Session(claims: Jwt.AccessClaims, visits: seq<(string, int)>): Jwt.AccessClaims
    decreases |visits|
  {
    if visits == [] then claims else Session(MergeClaims(claims, visits[0].0, visits[0].1), visits[1..])
  }

  function VisitedKeys(visits: seq<(string, int)>): (ks: seq<string>)
    ensures |ks| == |visits| && forall i :: 0 <= i < |visits| ==> ks[i] == visits[i].0
  {
    if visits == [] then [] else [visits[0].0] + VisitedKeys(visits[1..])
  }

  /**
   * A run of lookups unlocks the visited keys in visiting order, keeps the
   * first issue time and expires 90 days after the last lookup.
   */
  lemma {:induction false} SessionAllows(claims: Jwt.AccessClaims, visits: seq<(string, int)>)
    ensures Session(claims, visits).allowKeyList == Jwt.AllowAll(claims.allowKeyList, VisitedKeys(visits))
    ensures claims.issuedAt.Some? ==> Session(claims, visits).issuedAt == claims.issuedAt
    ensures visits != [] ==> Session(claims, visits).expiresAt == Some(visits[|visits| - 1].1 + NinetyDays)
    decreases |visits|
  {
    if visits != [] {
      SessionAllows(MergeClaims(claims, visits[0].0, visits[0].1), visits[1..]);
      assert VisitedKeys(visits)[1..] == VisitedKeys(visits[1..]);
      if |visits| > 1 {
        assert visits[1..][|visits[1..]| - 1] == visits[|visits| - 1];
      }
    }
  }

  /**
   * What the POST /lookup/ handler leaves, given what LoadData returned for
   * keyID: a load failure gives 500; a failed credential check gives its
   * 400 page; neither records a visit or sets a cookie. Otherwise the visit
   * is recorded, and the merged claims are signed into the cookie (a 303 to
   * the entry page) or the 500 page when signing fails.
   */
  ghost predicate LookedUp(loaded: Result<Entries.EntryEnvelope, Entries.EntryError>, req: Web.Request, now: int,
                           verify: string -> Jwt.Verdict, sign: Jwt.AccessClaims -> Option<string>,
                           mkdir: bool, write: Entries.WriteOutcome,
                           after: map<string, seq<Entries.LogLine>>, before: map<string, seq<Entries.LogLine>>,
                           resp: Web.Response, cookie: Option<string>)
  {
    var key := req.PostForm("keyID");
    && (loaded.Err? ==>
          resp == Web.Json(Web.StatusInternalServerError, "load data failed") && cookie.None? && after == before)
    && (loaded.Ok? && CredentialCheck(loaded.value.data, req.PostForm("formPassword")).Some? ==>
          resp == Web.Page(Web.StatusBadRequest, "view_check.html",
                           CredentialCheck(loaded.value.data, req.PostForm("formPassword")).value) &&
          cookie.None? && after == before)
    && (loaded.Ok? && CredentialCheck(loaded.value.data, req.PostForm("formPassword")).None? ==>
          var claims := MergeClaims(Jwt.ParseClaims(Jwt.ReadTokenFromRequest(req), verify).claims, key, now);
          && Entries.Audited(after, before, key, Entries.HistoryRecord(now, req.userAgent, Types.ClientIP(req)), mkdir, write)
          && (sign(claims).None? ==>
                resp == Web.Page(Web.StatusInternalServerError, "view_check.html", "issue jwt error") && cookie.None?)
          && (sign(claims).Some? ==> resp == Web.Redirect(Web.StatusSeeOther, "/view/" + key) && cookie == sign(claims)))
  }

  /**
   * The POST /lookup/ handler (after the captcha): keyID's entry must load
   * (else 500) and pass the credential check (else 400); then the visit is
   * recorded whatever the write's outcome, the ticket from the request is
   * read, its claims updated in place and signed into the qtk cookie, and
   * the visitor is sent to the entry page. `now` is time.Now().
   */
  method PostLookup(entries: Entries.EntriesService, req: Web.Request, now: int,
                    verify: string -> Jwt.Verdict, sign: Jwt.AccessClaims -> Option<string>,
                    mkdir: bool, write: Entries.WriteOutcome)
    returns (resp: Web.Response, cookie: Option<string>)
    modifies entries`history
    ensures LookedUp(entries.LoadData(req.PostForm("keyID")), req, now, verify, sign, mkdir, write,
                     entries.history, old(entries.history), resp, cookie)
  {
    var key := req.PostForm("keyID");
    var formPassword := req.PostForm("formPassword");
    var entry := entries.LoadData(key);
    if entry.Err? {
      return Web.Json(Web.StatusInternalServerError, "load data failed"), None;
    }
    var refusal := CredentialCheck(entry.value.data, formPassword);
    if refusal.Some? {
      return Web.Page(Web.StatusBadRequest, "view_check.html", refusal.value), None;
    }
    var rec := Entries.HistoryRecord(now, req.userAgent, Types.ClientIP(req));
    var _ := entries.RecordUaNewlineJson(key, rec, mkdir, write);
    var prevTok := Jwt.ReadTokenFromRequest(req);
    var claims := Jwt.ParseClaims(prevTok, verify).claims;
    if claims.scope == "" {
      claims := claims.(scope := ViewScope);
    }
    if claims.issuedAt.None? {
      claims := claims.(issuedAt := Some(now));
    }
    claims := claims.(expiresAt := Some(now + NinetyDays));
    claims := claims.(allowKeyList := Jwt.AppendAllowKey(claims.allowKeyList, key));
    var signed := sign(claims);
    if signed.None? {
      return Web.Page(Web.StatusInternalServerError, "view_check.html", "issue jwt error"), None;
    }
    return Web.Redirect(Web.StatusSeeOther, "/view/" + key), signed;
  }

  /**
   * POST /lookup/ as routed: the captcha guard (built from FormGuardConfig),
   * then the handler. A request the guard stops leaves no visit record and
   * gets no ticket.
   */
  method PostLookupRoute(siteverify: (string, string) -> Turnstile.Verification, clientIP: string,
                         entries: Entries.EntriesService, req: Web.Request, now: int,
                         verify: string -> Jwt.Verdict, sign: Jwt.AccessClaims -> Option<string>,
                         mkdir: bool, write: Entries.WriteOutcome)
    returns (resp: Web.Response, cookie: Option<string>)
    modifies entries`history
    ensures req.PostForm(Turnstile.DefaultTokenField) == "" ==>
              resp == Web.Page(Web.StatusBadRequest, "view_check.html", CaptchaFailed)
    ensures cookie.Some? || entries.history != old(entries.history) ==>
              siteverify(req.PostForm(Turnstile.DefaultTokenField), clientIP) == Turnstile.Verification(true, false)
    ensures var token := req.PostForm(Turnstile.DefaultTokenField);
            && (token != "" && siteverify(token, clientIP) == Turnstile.Verification(true, false) ==>
                  LookedUp(entries.LoadData(req.PostForm("keyID")), req, now, verify, sign, mkdir, write,
                           entries.history, old(entries.history), resp, cookie))
            && (!(token != "" && siteverify(token, clientIP) == Turnstile.Verification(true, false)) ==>
                  resp == Web.Page(Web.StatusBadRequest, "view_check.html", CaptchaFailed) &&
                  cookie.None? && entries.history == old(entries.history))
  {
    var g := Turnstile.TurnstileGuard(FormGuardConfig(siteverify));
    var ch := Turnstile.Decide(g.value, req, clientIP);
    if ch.Abort? {
      return ch.response, None;
    }
    resp, cookie := PostLookup(entries, req, now, verify, sign, mkdir, write);
  }

  // ---------------------------------------------------------------------------
  // GET /view/:key/ guard

  /**
   * The guard in front of GetEntryView: admins pass; anyone else needs a
   * ticket that parses without error and lists the key, else 403.
   */
  function ViewGuard(values: map<string, Web.CtxValue>, req: Web.Request, key: string, verify: string -> Jwt.Verdict)
    : (ch: Web.Chain)
    ensures Admin.IsAdmin(values) ==> ch == Web.Next
    ensures var p := Jwt.ParseClaims(Jwt.ReadTokenFromRequest(req), verify);
            !Admin.IsAdmin(values) ==> (ch.Next? <==> !p.failed && key in p.claims.allowKeyList)
    ensures var p := Jwt.ParseClaims(Jwt.ReadTokenFromRequest(req), verify);
            !Admin.IsAdmin(values) && p.failed ==>
              ch == Web.Abort(Web.Page(Web.StatusForbidden, "view_check.html", NoTicket))
    ensures var p := Jwt.ParseClaims(Jwt.ReadTokenFromRequest(req), verify);
            !Admin.IsAdmin(values) && !p.failed && key !in p.claims.allowKeyList ==>
              ch == Web.Abort(Web.Page(Web.StatusForbidden, "view_check.html", KeyNotAllowed))
  {
    if Admin.IsAdmin(values) then Web.Next
    else
      var p := Jwt.ParseClaims(Jwt.ReadTokenFromRequest(req), verify);
      if p.failed then Web.Abort(Web.Page(Web.StatusForbidden, "view_check.html", NoTicket))
      else if key !in p.claims.allowKeyList then Web.Abort(Web.Page(Web.StatusForbidden, "view_check.html", KeyNotAllowed))
      else Web.Next
  }

  /**
   * The ticket a lookup of `key` issues opens that key's page: when the
   * signed token verifies to the claims that were signed and comes back in
   * the qtk cookie, the view guard lets the request through.
   */
  lemma LookupThenView(claims: Jwt.AccessClaims, key: string, now: int, tok: string,
                       verify: string -> Jwt.Verdict, values: map<string, Web.CtxValue>, req: Web.Request)
    requires key != "" && tok != ""
    requires verify(tok) == Jwt.Valid(MergeClaims(claims, key, now))
    requires req.Cookie(Jwt.CookieName) == Some(tok)
    ensures ViewGuard(values, req, key, verify) == Web.Next
  {
  }

  /**
   * A non-admin whose ticket verifies to the claims of a session that
   * started empty sees only keys that session looked up.
   */
  lemma ViewNeedsLookup(visits: seq<(string, int)>, key: string, verify: string -> Jwt.Verdict,
                        values: map<string, Web.CtxValue>, req: Web.Request)
    requires !Admin.IsAdmin(values)
    requires var tok := Jwt.ReadTokenFromRequest(req);
             tok != "" && verify(tok) == Jwt.Valid(Session(Jwt.EmptyClaims, visits))
    requires key !in VisitedKeys(visits)
    ensures ViewGuard(values, req, key, verify).Abort?
  {
    SessionAllows(Jwt.EmptyClaims, visits);
    Jwt.AllowAllCovers([], VisitedKeys(visits));
  }

  // ---------------------------------------------------------------------------
  // POST /login

  /** What the login handler answers, and the X-Admin-Token cookie it sets, if any. */
  datatype LoginResult = LoginResult(resp: Web.Response, cookie: Option<string>)

  /**
   * The login handler (after the captcha): a password equal to ADMIN_TOKEN
   * gets the token as cookie, URL-escaped by gin's SetCookie (`escape` is
   * url.QueryEscape), and a 303 to the form's redirect target ("/" when
   * empty); any other password gets the 401 login page and no cookie.
   */
  function Login(req: Web.Request, adminToken: string, escape: string -> string): (o: LoginResult)
    ensures o.cookie.Some? <==> req.PostForm("password") == adminToken
    ensures o.cookie.None? ==> o.resp == Web.Page(Web.StatusUnauthorized, "login.html", LoginFailed)
    ensures o.cookie.Some? ==> o.cookie.value == escape(adminToken) && o.resp.Redirect? && o.resp.status == Web.StatusSeeOther
    ensures o.resp.Redirect? && req.PostForm("redirect") == "" ==> o.resp.location == "/"
    ensures o.resp.Redirect? && req.PostForm("redirect") != "" ==> o.resp.location == req.PostForm("redirect")
  {
    var target := if req.PostForm("redirect") == "" then "/" else req.PostForm("redirect");
    if req.PostForm("password") != adminToken then
      LoginResult(Web.Page(Web.StatusUnauthorized, "login.html", LoginFailed), None)
    else
      LoginResult(Web.Redirect(Web.StatusSeeOther, target), Some(escape(adminToken)))
  }

  /**
   * The cookie a login sets makes the next request admin exactly when the
   * password was right and ADMIN_TOKEN is not empty: with an empty token
   * an empty password "logs in" but is never admin. This rests on
   * url.QueryUnescape undoing url.QueryEscape on the token.
   */
  lemma LoginThenAdmin(req: Web.Request, adminToken: string, escape: string -> string,
                       unescape: string -> Option<string>)
    requires unescape(escape(adminToken)) == Some(adminToken)
    ensures Admin.AdminFlag(Admin.GinCookie(Login(req, adminToken, escape).cookie, unescape), adminToken) <==>
            adminToken != "" && req.PostForm("password") == adminToken
  {
  }
}
