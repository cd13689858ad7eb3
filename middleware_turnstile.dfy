/**
 * middleware/turnstile_mw.go: the captcha guard in front of the login and
 * lookup forms. Cloudflare's siteverify call is not modelled; it comes in
 * as a verification function from (token, client IP) to its outcome.
 */
module Turnstile {
  import opened Wrappers
  import Web

  const DefaultTokenField := "cf-turnstile-response"
  /** The context key the verification result is stored under. */
  const CtxTurnstileResult := "turnstile:result"
  /** The default OnFail answer. */
  const DefaultOnFail := Web.Json(Web.StatusBadRequest, "captcha verification failed")

  /** What a VerifyFunc returns: the Result's Success, and whether an error came with it. */
  datatype Verification = Verification(success: bool, failed: bool)

  /**
   * TurnstileConfig: a nil Verify or OnFail is None. OnFail is modelled by
   * the response it writes; the error it is handed only goes to a log.
   */
  datatype TurnstileConfig = TurnstileConfig(
    tokenField: string,
    verify: Option<(string, string) -> Verification>,
    onFail: Option<Web.Response>)

  /** The configuration the returned handler closes over, defaults filled in. */
  datatype Guard = Guard(tokenField: string, verify: (string, string) -> Verification, onFail: Web.Response)

  /**
   * TurnstileGuard's construction: an empty TokenField becomes the
   * Cloudflare default, a nil OnFail the 400 JSON answer, and a nil Verify
   * panics (None).
   */
  method TurnstileGuard(cfg: TurnstileConfig) returns (g: Option<Guard>)
    ensures g.None? <==> cfg.verify.None?
    ensures g.Some? ==> g.value.verify == cfg.verify.value
    ensures g.Some? && cfg.tokenField == "" ==> g.value.tokenField == DefaultTokenField
    ensures g.Some? && cfg.tokenField != "" ==> g.value.tokenField == cfg.tokenField
    ensures g.Some? && cfg.onFail.None? ==> g.value.onFail == DefaultOnFail
    ensures g.Some? && cfg.onFail.Some? ==> g.value.onFail == cfg.onFail.value
  {
    var tokenField := cfg.tokenField;
    if tokenField == "" {
      tokenField := DefaultTokenField;
    }
    if cfg.verify.None? {
      return None;
    }
    var onFail := DefaultOnFail;
    if cfg.onFail.Some? {
      onFail := cfg.onFail.value;
    }
    return Some(Guard(tokenField, cfg.verify.value, onFail));
  }

  /**
   * The guard's decision for one request (clientIP is gin's ClientIP): no
   * token fails without asking the verifier; a verifier error or an
   * unsuccessful result fails; only a successful verification goes on.
   * Every failure answers with OnFail.
   */
  function Decide(g: Guard, req: Web.Request, clientIP: string): (ch: Web.Chain)
    ensures req.PostForm(g.tokenField) == "" ==> ch == Web.Abort(g.onFail)
    ensures ch.Next? <==>
              req.PostForm(g.tokenField) != "" &&
              g.verify(req.PostForm(g.tokenField), clientIP) == Verification(true, false)
    ensures ch.Abort? ==> ch.response == g.onFail
  {
    var token := req.PostForm(g.tokenField);
    if token == "" then Web.Abort(g.onFail)
    else
      var v := g.verify(token, clientIP);
      if v.failed || !v.success then Web.Abort(g.onFail) else Web.Next
  }

  /** Without a token the verifier is never consulted: any two verifiers give the same decision. */
  lemma EmptyTokenSkipsVerifier(g: Guard, other: (string, string) -> Verification, req: Web.Request, clientIP: string)
    requires req.PostForm(g.tokenField) == ""
    ensures Decide(g.(verify := other), req, clientIP) == Decide(g, req, clientIP)
  {
  }

  /** The handler: on failure OnFail's answer is written and the chain aborted; on success the result is stored. */
  method Handle(g: Guard, c: Web.Context, clientIP: string)
    modifies c`values, c`written, c`aborted
    ensures var ch := Decide(g, c.request, clientIP);
            && (ch.Next? ==>
                  c.values == old(c.values)[CtxTurnstileResult := Web.Captcha(true)] &&
                  c.written == old(c.written) && c.aborted == old(c.aborted))
            && (ch.Abort? ==> c.values == old(c.values) && c.written == Some(g.onFail) && c.aborted)
  {
    var token := c.request.PostForm(g.tokenField);
    if token == "" {
      c.written := Some(g.onFail);
      c.aborted := true;
      return;
    }
    var v := g.verify(token, clientIP);
    if v.failed || !v.success {
      c.written := Some(g.onFail);
      c.aborted := true;
      return;
    }
    c.values := c.values[CtxTurnstileResult := Web.Captcha(v.success)];
  }
}
