/**
 * models/types.go: the key format check and the best-effort client address.
 * Strings are sequences of runes: Go's `range` over a string and
 * utf8.RuneCountInString both see runes, so one char here is one rune there.
 */
module Types {
  import Web

  /** Longest key, in runes, that ValidKey admits. */
  const MaxKeyRunes := 64

  /** The runes a key may hold: ASCII letters, ASCII digits, '-' and '_'. */
  predicate IsKeyRune(r: char) {
    ('a' <= r <= 'z') || ('A' <= r <= 'Z') || ('0' <= r <= '9') || r == '-' || r == '_'
  }

  /** The range loop of ValidKey: walks the key from the front and gives up at the first rune it refuses. */
  function ScanKeyRunes(k: string): (ok: bool)
    ensures ok <==> forall i :: 0 <= i < |k| ==> IsKeyRune(k[i])
  {
    if k == [] then true
    else if !IsKeyRune(k[0]) then false
    else ScanKeyRunes(k[1..])
  }

  /** ValidKey: the rune count must be 1..64, then every rune must be a key rune. */
  function ValidKey(k: string): (ok: bool)
    ensures ok <==> 1 <= |k| <= MaxKeyRunes && forall i :: 0 <= i < |k| ==> IsKeyRune(k[i])
    ensures k == [] ==> !ok
  {
    if |k| < 1 || |k| > MaxKeyRunes then false
    else ScanKeyRunes(k)
  }

  /** A valid key is plain ASCII and holds none of the path or address separators. */
  lemma ValidKeyIsPathSafe(k: string)
    requires ValidKey(k)
    ensures '/' !in k && '.' !in k && ':' !in k && '\\' !in k
    ensures forall i :: 0 <= i < |k| ==> k[i] as int < 128
  {
  }

  /** The loop of ClientIP: the index of the last ':' in s[..n], scanning down from n - 1, or -1. */
  function LastColon(s: string, n: nat): (i: int)
    requires n <= |s|
    ensures -1 <= i < n
    ensures i >= 0 ==> s[i] == ':'
    ensures forall j :: i < j < n ==> s[j] != ':'
  {
    if n == 0 then -1
    else if s[n - 1] == ':' then n - 1
    else LastColon(s, n - 1)
  }

  /**
   * ClientIP: X-Real-IP if set, else X-Forwarded-For if set (verbatim, the
   * whole list), else RemoteAddr cut before its last ':' (the port), else
   * RemoteAddr as it is.
   */
  function ClientIP(r: Web.Request): (ip: string)
    ensures r.Header("X-Real-IP") != "" ==> ip == r.Header("X-Real-IP")
    ensures r.Header("X-Real-IP") == "" && r.Header("X-Forwarded-For") != "" ==>
              ip == r.Header("X-Forwarded-For")
    ensures r.Header("X-Real-IP") == "" && r.Header("X-Forwarded-For") == "" && ':' !in r.remoteAddr ==>
              ip == r.remoteAddr
    ensures r.Header("X-Real-IP") == "" && r.Header("X-Forwarded-For") == "" && ':' in r.remoteAddr ==>
              |ip| < |r.remoteAddr| && ip == r.remoteAddr[..|ip|] && r.remoteAddr[|ip|] == ':' &&
              ':' !in r.remoteAddr[|ip| + 1..]
  {
    var realIP := r.Header("X-Real-IP");
    var forwarded := r.Header("X-Forwarded-For");
    if realIP != "" then realIP
    else if forwarded != "" then forwarded
    else
      var i := LastColon(r.remoteAddr, |r.remoteAddr|);
      if i >= 0 then r.remoteAddr[..i] else r.remoteAddr
  }
}
