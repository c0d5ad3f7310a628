/**
 * The token endpoint's decisions and the validation of a presented token,
 * with the configuration, the clock and the persistence lookups as inputs.
 */
module OAuthHandlers {
  import opened Wrappers
  import opened Strings
  import opened Jwt
  import opened TokenUtils
  import opened Clients

  datatype Validation = Accepted(payload: Payload) | Rejected(error: Error) | Panicked

  /** The signature the server puts on payload `p`: over Header{configured alg, "JWT"} and `p`, re-encoded. */
  function ExpectedSignature(json: Json, mac: Mac, cfg: Config, p: Payload): Bytes
  {
    Signature(mac, cfg.secret, Message(json, Header(cfg.alg, JWT), p))
  }

  /**
   * `ValidateToken`: decode the header, check its algorithm, decode the
   * payload, check expiry, then rebuild the token from the configured
   * algorithm and the decoded payload and compare signatures. The first
   * failing check is the result; indexing a missing second or third piece
   * (reached only once the checks before it passed) panics.
   */
  function ValidateToken(json: Json, mac: Mac, cfg: Config, now: int, token: Bytes): (r: Validation)
    ensures var parts := SplitToken(token);
      r.Accepted? <==>
        && |parts| >= 3 && cfg.alg == HS256
        && ParseHeader(json, parts[0]).Success? && ParseHeader(json, parts[0]).value.alg == cfg.alg
        && ParsePayload(json, parts[1]).Success? && now <= ParsePayload(json, parts[1]).value.exp
        && parts[2] == ExpectedSignature(json, mac, cfg, ParsePayload(json, parts[1]).value)
    ensures r.Accepted? ==> |SplitToken(token)| >= 2 && ParsePayload(json, SplitToken(token)[1]) == Success(r.payload)
    ensures var parts := SplitToken(token);
      r.Panicked? <==>
        && ParseHeader(json, parts[0]).Success? && ParseHeader(json, parts[0]).value.alg == cfg.alg
        && (|parts| < 2 ||
            (&& ParsePayload(json, parts[1]).Success? && now <= ParsePayload(json, parts[1]).value.exp
             && cfg.alg == HS256 && |parts| < 3))
    ensures var parts := SplitToken(token);
      ParseHeader(json, parts[0]).Failure? ==> r == Rejected(ParseHeader(json, parts[0]).error)
    ensures var parts := SplitToken(token);
      && ParseHeader(json, parts[0]).Success? && ParseHeader(json, parts[0]).value.alg == cfg.alg
      && |parts| >= 2 && ParsePayload(json, parts[1]).Failure?
      ==> r == Rejected(ParsePayload(json, parts[1]).error)
    ensures var parts := SplitToken(token);
      r == Rejected(InvalidAlgorithm) <==>
        && ParseHeader(json, parts[0]).Success?
        && (|| ParseHeader(json, parts[0]).value.alg != cfg.alg
            || (&& |parts| >= 2 && ParsePayload(json, parts[1]).Success?
                && now <= ParsePayload(json, parts[1]).value.exp && cfg.alg != HS256))
    ensures var parts := SplitToken(token);
      r == Rejected(TokenExpired) <==>
        && ParseHeader(json, parts[0]).Success? && ParseHeader(json, parts[0]).value.alg == cfg.alg
        && |parts| >= 2 && ParsePayload(json, parts[1]).Success? && ParsePayload(json, parts[1]).value.exp < now
    ensures var parts := SplitToken(token);
      r == Rejected(InvalidSignature) <==>
        && |parts| >= 3 && cfg.alg == HS256
        && ParseHeader(json, parts[0]).Success? && ParseHeader(json, parts[0]).value.alg == cfg.alg
        && ParsePayload(json, parts[1]).Success? && now <= ParsePayload(json, parts[1]).value.exp
        && parts[2] != ExpectedSignature(json, mac, cfg, ParsePayload(json, parts[1]).value)
  {
    var parts := SplitToken(token);
    match ParseHeader(json, parts[0])
    case Failure(e) => Rejected(e)
    case Success(header) =>
      if header.alg != cfg.alg then Rejected(InvalidAlgorithm)
      else if |parts| < 2 then Panicked
      else match ParsePayload(json, parts[1])
        case Failure(e) => Rejected(e)
        case Success(payload) =>
          if payload.exp < now then Rejected(TokenExpired)
          else match NewJwtValue(json, mac, cfg, payload, JWT)
            case Failure(e) => Rejected(e)
            case Success(jwt) =>
              if |parts| < 3 then Panicked
              else match jwt.CheckSignature(parts[2])
                case Failure(e) => Rejected(e)
                case Success(valid) => if !valid then Rejected(InvalidSignature) else Accepted(payload)
  }

  /** The algorithm is checked before the payload is looked at: a foreign algorithm is refused whatever follows. */
  lemma AlgorithmCheckedFirst(json: Json, mac: Mac, cfg: Config, now: int, token: Bytes)
    requires ParseHeader(json, SplitToken(token)[0]).Success?
    requires ParseHeader(json, SplitToken(token)[0]).value.alg != cfg.alg
    ensures ValidateToken(json, mac, cfg, now, token) == Rejected(InvalidAlgorithm)
  {
  }

  /** Expiry is checked before the signature: an expired token is refused as expired even when correctly signed. */
  lemma ExpiryCheckedBeforeSignature(json: Json, mac: Mac, cfg: Config, now: int, token: Bytes)
    requires var parts := SplitToken(token);
      && |parts| >= 2
      && ParseHeader(json, parts[0]).Success? && ParseHeader(json, parts[0]).value.alg == cfg.alg
      && ParsePayload(json, parts[1]).Success? && ParsePayload(json, parts[1]).value.exp < now
    ensures ValidateToken(json, mac, cfg, now, token) == Rejected(TokenExpired)
  {
  }

  /**
   * A token the server issued validates, up to and including the second
   * `exp` names, and the validator returns its payload unchanged.
   */
  lemma IssuedTokenValidates(json: Json, mac: Mac, cfg: Config, now: int, p: Payload)
    requires RoundTrips(json) && cfg.alg == HS256
    requires now <= p.exp
    ensures IssuedToken(json, mac, cfg, p, JWT).Success?
    ensures ValidateToken(json, mac, cfg, now, IssuedToken(json, mac, cfg, p, JWT).value) == Accepted(p)
  {
    IssuedTokenParses(json, mac, cfg, p, JWT);
  }

  /** One second after `exp` the same issued token is refused as expired. */
  lemma IssuedTokenExpires(json: Json, mac: Mac, cfg: Config, now: int, p: Payload)
    requires RoundTrips(json) && cfg.alg == HS256
    requires p.exp < now
    ensures ValidateToken(json, mac, cfg, now, IssuedToken(json, mac, cfg, p, JWT).value) == Rejected(TokenExpired)
  {
    IssuedTokenParses(json, mac, cfg, p, JWT);
  }

  /** Pieces after the third are never read. */
  lemma ExtraPiecesIgnored(json: Json, mac: Mac, cfg: Config, now: int, token: Bytes, extra: Bytes)
    requires |SplitToken(token)| >= 3
    ensures ValidateToken(json, mac, cfg, now, token + [DOT] + extra) == ValidateToken(json, mac, cfg, now, token)
  {
    SplitConcat(token, DOT, extra);
    var parts, longer := SplitToken(token), SplitToken(token + [DOT] + extra);
    assert longer[0] == parts[0] && longer[1] == parts[1] && longer[2] == parts[2];
  }

  /**
   * The header segment is not signed: any segment that decodes to a header
   * with the configured algorithm can stand in for another, with the same
   * outcome, because the signature is recomputed over a rebuilt header.
   */
  lemma HeaderSegmentNotSigned(json: Json, mac: Mac, cfg: Config, now: int, h1: Bytes, h2: Bytes, rest: Bytes)
    requires DOT !in h1 && DOT !in h2
    requires ParseHeader(json, h1).Success? && ParseHeader(json, h1).value.alg == cfg.alg
    requires ParseHeader(json, h2).Success? && ParseHeader(json, h2).value.alg == cfg.alg
    ensures ValidateToken(json, mac, cfg, now, h1 + [DOT] + rest) == ValidateToken(json, mac, cfg, now, h2 + [DOT] + rest)
  {
    SplitPrefix(h1, DOT, rest);
    SplitPrefix(h2, DOT, rest);
  }

  /** The body of a token request (`models.TokenRequest`). */
  datatype TokenRequest = TokenRequest(grantType: Bytes, clientId: Bytes, aud: Bytes, scope: Bytes)

  /** An application record as the persistence layer supplies it; `id` is the UUID's text. */
  datatype Application = Application(id: Bytes, appName: Bytes)

  datatype Refusal = BadRequest | LookupFailed | ScopesNotAllowed | SigningFailed(error: Error)

  /** What the handler writes: an error response (`HandleError`) or the token response. */
  datatype Reply = ErrorReply(status: int, refusal: Refusal) | TokenReply(accessToken: Bytes, tokenType: Bytes)

  /** The replies written, in order, and whether the handler panicked after them. */
  datatype Handled = Handled(replies: seq<Reply>, panicked: bool)

  const CLIENT_CREDENTIALS: Bytes := Ascii("client_credentials")
  const BEARER: Bytes := Ascii("Bearer")
  const TOKEN_LIFETIME_HOURS: int := 1
  const STATUS_BAD_REQUEST: int := 400
  const STATUS_UNAUTHORIZED: int := 401
  const STATUS_INTERNAL_SERVER_ERROR: int := 500

  /**
   * `HandleToken` as written. `decodeFailed` says the body did not decode
   * (`request` holds whatever fields the decoder filled); `lookup` is the
   * result of `FetchClientAndApplication`; `jti` the fresh UUID text.
   * After a decode error the 400 is written but the handler carries on.
   */
  function HandleToken(json: Json, mac: Mac, cfg: Config, now: int, jti: Bytes,
                       request: TokenRequest, decodeFailed: bool,
                       lookup: Option<(Client, Application)>): (h: Handled)
    ensures decodeFailed ==> |h.replies| >= 1 && h.replies[0] == ErrorReply(STATUS_BAD_REQUEST, BadRequest)
    ensures request.grantType != CLIENT_CREDENTIALS ==>
      !h.panicked && forall k :: 0 <= k < |h.replies| ==> h.replies[k].ErrorReply? && h.replies[k].refusal == BadRequest
    ensures |h.replies| <= 2
  {
    var written := if decodeFailed then [ErrorReply(STATUS_BAD_REQUEST, BadRequest)] else [];
    GrantClientCredentials(json, mac, cfg, now, jti, request, lookup, written)
  }

  /** The client-credentials branch of `HandleToken`, after the replies already `written`. */
  function GrantClientCredentials(json: Json, mac: Mac, cfg: Config, now: int, jti: Bytes,
                                  request: TokenRequest, lookup: Option<(Client, Application)>,
                                  written: seq<Reply>): (h: Handled)
    ensures request.grantType != CLIENT_CREDENTIALS ==> h == Handled(written, false)
    ensures |written| <= |h.replies| <= |written| + 1 && h.replies[..|written|] == written
    ensures request.grantType == CLIENT_CREDENTIALS ==> (h.panicked <==> |h.replies| == |written|)
    ensures request.grantType == CLIENT_CREDENTIALS && lookup.None? ==>
      h == Handled(written + [ErrorReply(STATUS_INTERNAL_SERVER_ERROR, LookupFailed)], false)
    ensures request.grantType == CLIENT_CREDENTIALS && lookup.Some? ==>
      var client, app := lookup.value.0, lookup.value.1;
      var decision := ScopeDecision(client.allowedScopes, Split(request.scope, SPACE), app.appName);
      var payload := NewPayload(cfg, jti, now, client.id, app.id, TOKEN_LIFETIME_HOURS, request.scope);
      && (decision.IndexOutOfRange? ==> h == Handled(written, true))
      && (decision == Decided(false) ==> h == Handled(written + [ErrorReply(STATUS_UNAUTHORIZED, ScopesNotAllowed)], false))
      && (decision == Decided(true) && cfg.alg != HS256 ==>
            h == Handled(written + [ErrorReply(STATUS_INTERNAL_SERVER_ERROR, SigningFailed(InvalidAlgorithm))], false))
      && (decision == Decided(true) && cfg.alg == HS256 ==>
            h == Handled(written + [TokenReply(IssuedToken(json, mac, cfg, payload, JWT).value, BEARER)], false))
  {
    if request.grantType != CLIENT_CREDENTIALS then Handled(written, false)
    else match lookup
      case None => Handled(written + [ErrorReply(STATUS_INTERNAL_SERVER_ERROR, LookupFailed)], false)
      case Some((client, app)) =>
        match ScopeDecision(client.allowedScopes, Split(request.scope, SPACE), app.appName)
        case IndexOutOfRange => Handled(written, true)
        case Decided(allowed) =>
          if !allowed then Handled(written + [ErrorReply(STATUS_UNAUTHORIZED, ScopesNotAllowed)], false)
          else
            var payload := NewPayload(cfg, jti, now, client.id, app.id, TOKEN_LIFETIME_HOURS, request.scope);
            match NewJwtValue(json, mac, cfg, payload, JWT)
            case Failure(e) => Handled(written + [ErrorReply(STATUS_INTERNAL_SERVER_ERROR, SigningFailed(e))], false)
            case Success(jwt) => Handled(written + [TokenReply(jwt.Token(), BEARER)], false)
  }

  /** `HandleToken` as evidently intended: it stops after answering a body that does not decode. */
  function HandleTokenFixed(json: Json, mac: Mac, cfg: Config, now: int, jti: Bytes,
                            request: TokenRequest, decodeFailed: bool,
                            lookup: Option<(Client, Application)>): (h: Handled)
    ensures decodeFailed ==> h == Handled([ErrorReply(STATUS_BAD_REQUEST, BadRequest)], false)
    ensures |h.replies| <= 1
    ensures !decodeFailed ==> h == HandleToken(json, mac, cfg, now, jti, request, decodeFailed, lookup)
  {
    if decodeFailed then Handled([ErrorReply(STATUS_BAD_REQUEST, BadRequest)], false)
    else GrantClientCredentials(json, mac, cfg, now, jti, request, lookup, [])
  }

  /** As written, a body that fails to decode but whose grant type was read gets a 400 and then a second reply. */
  lemma DecodeErrorAnsweredTwice(json: Json, mac: Mac, cfg: Config, now: int, jti: Bytes,
                                 request: TokenRequest, client: Client, app: Application)
    requires request.grantType == CLIENT_CREDENTIALS
    ensures HandleToken(json, mac, cfg, now, jti, request, true, None).replies
      == [ErrorReply(STATUS_BAD_REQUEST, BadRequest), ErrorReply(STATUS_INTERNAL_SERVER_ERROR, LookupFailed)]
    ensures ScopeDecision(client.allowedScopes, Split(request.scope, SPACE), app.appName) == Decided(true) && cfg.alg == HS256 ==>
      var h := HandleToken(json, mac, cfg, now, jti, request, true, Some((client, app)));
      |h.replies| == 2 && h.replies[0] == ErrorReply(STATUS_BAD_REQUEST, BadRequest) && h.replies[1].TokenReply?
  {
  }

  /** A token is only ever issued for the client-credentials grant. */
  lemma IssuesOnlyClientCredentials(json: Json, mac: Mac, cfg: Config, now: int, jti: Bytes,
                                    request: TokenRequest, decodeFailed: bool,
                                    lookup: Option<(Client, Application)>, k: nat)
    requires var h := HandleToken(json, mac, cfg, now, jti, request, decodeFailed, lookup);
      k < |h.replies| && h.replies[k].TokenReply?
    ensures request.grantType == CLIENT_CREDENTIALS
  {
  }

  /** A refused scope check answers 401 and issues no token. */
  lemma ScopeRefusalIssuesNothing(json: Json, mac: Mac, cfg: Config, now: int, jti: Bytes,
                                  request: TokenRequest, client: Client, app: Application)
    requires request.grantType == CLIENT_CREDENTIALS
    requires ScopeDecision(client.allowedScopes, Split(request.scope, SPACE), app.appName) == Decided(false)
    ensures HandleToken(json, mac, cfg, now, jti, request, false, Some((client, app)))
      == Handled([ErrorReply(STATUS_UNAUTHORIZED, ScopesNotAllowed)], false)
  {
  }

  /**
   * End to end: when the grant is allowed the handler answers with a
   * "Bearer" token whose payload names the client as subject and the
   * application as audience, lives one hour, and validates (returning that
   * payload) at every moment up to its expiry.
   */
  lemma IssuedGrantValidates(json: Json, mac: Mac, cfg: Config, now: int, jti: Bytes,
                             request: TokenRequest, client: Client, app: Application, later: int)
    requires RoundTrips(json) && cfg.alg == HS256
    requires request.grantType == CLIENT_CREDENTIALS
    requires ScopeDecision(client.allowedScopes, Split(request.scope, SPACE), app.appName) == Decided(true)
    requires later <= now + 3600
    ensures var h := HandleToken(json, mac, cfg, now, jti, request, false, Some((client, app)));
      && !h.panicked && |h.replies| == 1 && h.replies[0].TokenReply? && h.replies[0].tokenType == BEARER
      && var p := Payload(cfg.iss, client.id, app.id, now + 3600, now, jti, Split(request.scope, SPACE));
         ValidateToken(json, mac, cfg, later, h.replies[0].accessToken) == Accepted(p)
  {
    var p := NewPayload(cfg, jti, now, client.id, app.id, TOKEN_LIFETIME_HOURS, request.scope);
    IssuedTokenValidates(json, mac, cfg, later, p);
  }
}
