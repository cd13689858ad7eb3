/**
 * services/jwt_service.go: the visitor's access ticket. The claims carry the
 * list of keys the visitor has unlocked; signing and HS256 verification are
 * not modelled and come in as the outcome of a verification function.
 */
module Jwt {
  import opened Wrappers
  import Web

  /** The cookie holding the ticket. */
  const CookieName := "qtk"
  const BearerPrefix := "Bearer "

  /** AccessClaims with the registered claims the handlers touch; times are Unix seconds. */
  datatype AccessClaims = AccessClaims(
    allowKeyList: seq<string>,
    scope: string,
    issuedAt: Option<int>,
    expiresAt: Option<int>)

  /** &AccessClaims{}: no keys, no scope, no times. */
  const EmptyClaims := AccessClaims([], "", None, None)

  /**
   * What jwt.ParseWithClaims makes of a token: an error (bad signature,
   * wrong method, expired, malformed), no error yet not valid, or valid
   * claims.
   */
  datatype Verdict = Rejected | NotValid | Valid(claims: AccessClaims)

  /** ParseClaims' two results: the claims (never nil) and whether an error came with them. */
  datatype Parsed = Parsed(claims: AccessClaims, failed: bool)

  /**
   * ReadTokenFromRequest: a non-empty qtk cookie wins; otherwise an
   * Authorization header starting with "Bearer " gives the rest of it;
   * otherwise there is no token.
   */
  function ReadTokenFromRequest(r: Web.Request): (tok: string)
    ensures r.Cookie(CookieName).Some? && r.Cookie(CookieName).value != "" ==> tok == r.Cookie(CookieName).value
    ensures !(r.Cookie(CookieName).Some? && r.Cookie(CookieName).value != "") ==>
              if BearerPrefix <= r.Header("Authorization")
              then r.Header("Authorization") == BearerPrefix + tok
              else tok == ""
  {
    var ck := r.Cookie(CookieName);
    if ck.Some? && ck.value != "" then ck.value
    else
      var auth := r.Header("Authorization");
      if BearerPrefix <= auth then auth[|BearerPrefix|..] else ""
  }

  /**
   * ParseClaims: no token gives empty claims and no error; a token the
   * verifier rejects gives empty claims and the error; a token that is not
   * valid gives empty claims; only a valid token gives its claims.
   */
  function ParseClaims(tok: string, verify: string -> Verdict): (p: Parsed)
    ensures tok == "" ==> p == Parsed(EmptyClaims, false)
    ensures p.failed <==> tok != "" && verify(tok).Rejected?
    ensures p.claims != EmptyClaims ==> tok != "" && verify(tok) == Valid(p.claims)
    ensures tok != "" && verify(tok).Valid? ==> p.claims == verify(tok).claims
  {
    if tok == "" then Parsed(EmptyClaims, false)
    else match verify(tok)
      case Rejected => Parsed(EmptyClaims, true)
      case NotValid => Parsed(EmptyClaims, false)
      case Valid(cl) => Parsed(cl, false)
  }

  /**
   * AppendAllowKey: the list with the key at the end, unless the key is
   * empty or already listed; earlier entries stay where they were.
   */
  function AppendAllowKey(list: seq<string>, key: string): (r: seq<string>)
    ensures list <= r
    ensures key != "" ==> key in r
    ensures forall k :: k in r ==> k in list || k == key
    ensures key == "" || key in list ==> r == list
    ensures |r| <= |list| + 1
  {
    if key == "" then list
    else if key !in list then list + [key]
    else list
  }

  /** Appending the same key twice is appending it once. */
  lemma AppendAllowKeyIdempotent(list: seq<string>, key: string)
    ensures AppendAllowKey(AppendAllowKey(list, key), key) == AppendAllowKey(list, key)
  {
  }

  /** No key is listed twice. */
  predicate NoDuplicates(list: seq<string>) {
    forall i, j :: 0 <= i < j < |list| ==> list[i] != list[j]
  }

  /** A list without duplicates stays without duplicates. */
  lemma AppendAllowKeyKeepsDistinct(list: seq<string>, key: string)
    requires NoDuplicates(list)
    ensures NoDuplicates(AppendAllowKey(list, key))
  {
  }

  /** Unlocking keys one after another: every non-empty key ends up listed, once, after the ones before it. */
  function AllowAll(list: seq<string>, keys: seq<string>): (r: seq<string>)
    decreases |keys|
  {
    if keys == [] then list else AllowAll(AppendAllowKey(list, keys[0]), keys[1..])
  }

  lemma {:induction false} AllowAllCovers(list: seq<string>, keys: seq<string>)
    requires NoDuplicates(list)
    ensures list <= AllowAll(list, keys)
    ensures NoDuplicates(AllowAll(list, keys))
    ensures forall i :: 0 <= i < |keys| && keys[i] != "" ==> keys[i] in AllowAll(list, keys)
    ensures forall k :: k in AllowAll(list, keys) ==> k in list || k in keys
    decreases |keys|
  {
    if keys != [] {
      var next := AppendAllowKey(list, keys[0]);
      AppendAllowKeyKeepsDistinct(list, keys[0]);
      AllowAllCovers(next, keys[1..]);
      forall i | 0 <= i < |keys| && keys[i] != "" ensures keys[i] in AllowAll(list, keys) {
        if i > 0 {
          assert keys[i] == keys[1..][i - 1];
        } else {
          assert keys[0] in next;
        }
      }
      forall k | k in AllowAll(list, keys) ensures k in list || k in keys {
        if k in keys[1..] {
          assert k in keys;
        }
      }
    }
  }
}
