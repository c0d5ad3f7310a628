/** The guard in front of protected handlers: the Authorization header must carry a token that validates. */
module Middleware {
  import opened Strings
  import opened Jwt
  import opened OAuthHandlers

  datatype AuthRefusal = MissingAuthorizationHeader | MissingBearerToken | InvalidToken(error: Error)

  /** Whether `next` is called, or a 401 with its reason is written; a slice or index out of range panics (Aborted). */
  datatype Gate = CallNext | Unauthorized(reason: AuthRefusal) | Aborted

  /** The length of the "Bearer " scheme the token is cut from; the scheme text itself is never compared. */
  const SCHEME_LENGTH: int := 7

  /**
   * `AuthMiddleware`'s decision for an Authorization header value. `next`
   * runs exactly when the header is longer than seven bytes and what
   * follows the seventh validates.
   */
  function AuthMiddleware(json: Json, mac: Mac, cfg: Config, now: int, authorization: Bytes): (g: Gate)
    ensures g == CallNext <==>
      |authorization| > SCHEME_LENGTH && ValidateToken(json, mac, cfg, now, authorization[SCHEME_LENGTH..]).Accepted?
    ensures authorization == [] ==> g == Unauthorized(MissingAuthorizationHeader)
    ensures 0 < |authorization| < SCHEME_LENGTH ==> g == Aborted
    ensures |authorization| == SCHEME_LENGTH ==> g == Unauthorized(MissingBearerToken)
    ensures |authorization| > SCHEME_LENGTH ==>
      (g.Unauthorized? <==> ValidateToken(json, mac, cfg, now, authorization[SCHEME_LENGTH..]).Rejected?)
  {
    if authorization == [] then Unauthorized(MissingAuthorizationHeader)
    else if |authorization| < SCHEME_LENGTH then Aborted
    else
      var token := authorization[SCHEME_LENGTH..];
      if token == [] then Unauthorized(MissingBearerToken)
      else match ValidateToken(json, mac, cfg, now, token)
        case Accepted(_) => CallNext
        case Rejected(e) => Unauthorized(InvalidToken(e))
        case Panicked => Aborted
  }

  /** The first seven bytes are dropped unread: any two seven-byte prefixes lead to the same decision. */
  lemma SchemeNeverChecked(json: Json, mac: Mac, cfg: Config, now: int, p: Bytes, q: Bytes, token: Bytes)
    requires |p| == SCHEME_LENGTH && |q| == SCHEME_LENGTH
    ensures AuthMiddleware(json, mac, cfg, now, p + token) == AuthMiddleware(json, mac, cfg, now, q + token)
  {
    assert (p + token)[SCHEME_LENGTH..] == token;
    assert (q + token)[SCHEME_LENGTH..] == token;
  }

  /** A token the server issued, presented as "Bearer <token>" before it expires, lets the request through. */
  lemma IssuedBearerPasses(json: Json, mac: Mac, cfg: Config, now: int, p: Payload)
    requires RoundTrips(json) && cfg.alg == HS256 && now <= p.exp
    ensures IssuedToken(json, mac, cfg, p, JWT).Success?
    ensures AuthMiddleware(json, mac, cfg, now, Ascii("Bearer ") + IssuedToken(json, mac, cfg, p, JWT).value) == CallNext
  {
    var token := IssuedToken(json, mac, cfg, p, JWT).value;
    IssuedTokenValidates(json, mac, cfg, now, p);
    assert (Ascii("Bearer ") + token)[SCHEME_LENGTH..] == token;
  }
}
