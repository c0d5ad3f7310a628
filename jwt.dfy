/**
 * JSON Web Tokens (RFC 7519) in the JWS compact serialisation of section
 * 7.1 of RFC 7515: `b64url(json(header)) "." b64url(json(payload)) "."
 * b64url(signature)`, signed with HMAC-SHA256 ("HS256", section 3.2 of
 * RFC 7518), the only algorithm the server signs with.
 */
module Jwt {
  import opened Wrappers
  import opened Strings
  import Base64Url

  datatype Header = Header(alg: Bytes, typ: Bytes)

  /** Claims; `exp` and `iat` are Unix seconds. */
  datatype Payload = Payload(iss: Bytes, sub: Bytes, aud: Bytes, exp: int, iat: int, jti: Bytes, scope: seq<Bytes>)

  /** The process-wide settings AUTH_SERVER_JWT_ALG, AUTH_SERVER_JWT_SECRET and AUTH_SERVER_JWT_ISS. */
  datatype Config = Config(alg: Bytes, secret: Bytes, iss: Bytes)

  /** `json.Marshal` and `json.Decoder.Decode` for the two claim sets: library primitives. */
  datatype Json = Json(
    marshalHeader: Header -> Bytes,
    unmarshalHeader: Bytes -> Option<Header>,
    marshalPayload: Payload -> Bytes,
    unmarshalPayload: Bytes -> Option<Payload>)

  /** The JSON library reads back what it writes. */
  ghost predicate RoundTrips(json: Json)
  {
    && (forall h :: json.unmarshalHeader(json.marshalHeader(h)) == Some(h))
    && (forall p :: json.unmarshalPayload(json.marshalPayload(p)) == Some(p))
  }

  /** HMAC-SHA256 of a message (second argument) under a key (first argument): a library primitive. */
  type Mac = (Bytes, Bytes) -> Bytes

  datatype Error = CorruptBase64 | MalformedJson | InvalidAlgorithm | TokenExpired | InvalidSignature

  const HS256: Bytes := Ascii("HS256")
  const JWT: Bytes := Ascii("JWT")

  /** The largest hour count whose nanoseconds fit Go's int64 `time.Duration`. */
  const MAX_HOURS: int := 2562047

  /** `newHeader`. */
  function NewHeader(alg: Bytes, typ: Bytes): (h: Header)
    ensures h.alg == alg && h.typ == typ
  {
    Header(alg, typ)
  }

  /**
   * `NewPayload`, with the clock reading `now`, the fresh UUID text `jti` and
   * the configured issuer made explicit. The token lives `exp` hours, and
   * the scope string is split on spaces, so joining the list gives it back.
   */
  function NewPayload(cfg: Config, jti: Bytes, now: int, sub: Bytes, aud: Bytes, exp: int, scope: Bytes): (p: Payload)
    requires -MAX_HOURS <= exp <= MAX_HOURS
    ensures p.iss == cfg.iss && p.sub == sub && p.aud == aud && p.jti == jti
    ensures p.iat == now && p.exp - p.iat == 3600 * exp
    ensures exp > 0 ==> p.exp > p.iat
    ensures |p.scope| >= 1 && Join(p.scope, SPACE) == scope
    ensures forall k :: 0 <= k < |p.scope| ==> SPACE !in p.scope[k]
  {
    Payload(cfg.iss, sub, aud, now + 3600 * exp, now, jti, Split(scope, SPACE))
  }

  /** One segment: the unpadded base64url text of some JSON. */
  function Segment(json: Bytes): (s: Bytes)
    ensures DOT !in s
  {
    Base64Url.Encode(json)
  }

  /** The signing input `makeMessage` assigns: two segments joined by a dot. */
  function Message(json: Json, h: Header, p: Payload): (m: Bytes)
    ensures Split(m, DOT) == [Segment(json.marshalHeader(h)), Segment(json.marshalPayload(p))]
  {
    var a, b := Segment(json.marshalHeader(h)), Segment(json.marshalPayload(p));
    SplitJoin([a, b], DOT);
    a + [DOT] + b
  }

  /** The HS256 signature `makeHS256Signature` assigns: the base64url of the HMAC. */
  function Signature(mac: Mac, secret: Bytes, message: Bytes): (s: Bytes)
    ensures DOT !in s
  {
    Segment(mac(secret, message))
  }

  /** A built token as a value: the four fields of the source's `Jwt` once `NewJwt` is done. */
  datatype JwtValue = JwtValue(header: Header, payload: Payload, message: Bytes, signature: Bytes)
  {
    /**
     * `Token()`: the message, a dot, and the signature. A dot-free signature
     * is the last piece of the token's split, after the message's own pieces.
     */
    function Token(): (t: Bytes)
      ensures t == message + [DOT] + signature
      ensures DOT !in signature ==> Split(t, DOT) == Split(message, DOT) + [signature]
      ensures DOT !in message && DOT !in signature ==>
        Split(t, DOT) == [message, signature]
    {
      var t := message + [DOT] + signature;
      assert DOT !in signature ==> Split(t, DOT) == Split(message, DOT) + [signature] by {
        if DOT !in signature {
          SplitConcat(message, DOT, signature);
          SplitNoSeparator(signature, DOT);
        }
      }
      assert DOT !in message && DOT !in signature ==> Split(t, DOT) == [message, signature] by {
        if DOT !in message && DOT !in signature { SplitNoSeparator(message, DOT); }
      }
      t
    }

    /** `CheckSignature`: dispatches on the header's algorithm; only HS256 is known. */
    function CheckSignature(sig: Bytes): (r: Result<bool, Error>)
      ensures r.Failure? <==> header.alg != HS256
      ensures r.Failure? ==> r.error == InvalidAlgorithm
      ensures r.Success? ==> (r.value <==> sig == signature)
    {
      if header.alg == HS256 then CheckHs256Signature(sig) else Failure(InvalidAlgorithm)
    }

    /** `checkHS256Signature`: plain equality with the stored signature. */
    function CheckHs256Signature(sig: Bytes): (r: Result<bool, Error>)
      ensures r.Success? && (r.value <==> sig == signature)
    {
      Success(signature == sig)
    }
  }

  /**
   * What `NewJwt(payload, typ)` builds under configuration `cfg`: the header
   * {configured alg, typ}, the payload unchanged, the message and the HS256
   * signature; any algorithm but "HS256" is an error and no token.
   */
  function NewJwtValue(json: Json, mac: Mac, cfg: Config, payload: Payload, typ: Bytes): (r: Result<JwtValue, Error>)
    ensures r.Failure? <==> cfg.alg != HS256
    ensures r.Failure? ==> r.error == InvalidAlgorithm
    ensures r.Success? ==> r.value.header == Header(cfg.alg, typ) && r.value.payload == payload
    ensures r.Success? ==> r.value.signature == Signature(mac, cfg.secret, r.value.message)
    ensures r.Success? ==>
      Split(r.value.Token(), DOT) == [Segment(json.marshalHeader(r.value.header)), Segment(json.marshalPayload(payload)), r.value.signature]
  {
    var header := NewHeader(cfg.alg, typ);
    var message := Message(json, header, payload);
    if cfg.alg != HS256 then Failure(InvalidAlgorithm)
    else
      var v := JwtValue(header, payload, message, Signature(mac, cfg.secret, message));
      SplitThree(Segment(json.marshalHeader(header)), Segment(json.marshalPayload(payload)), v.signature, DOT);
      Success(v)
  }

  /** The token text `NewJwt` followed by `Token()` yields. */
  function IssuedToken(json: Json, mac: Mac, cfg: Config, payload: Payload, typ: Bytes): Result<Bytes, Error>
  {
    match NewJwtValue(json, mac, cfg, payload, typ)
    case Success(v) => Success(v.Token())
    case Failure(e) => Failure(e)
  }

  /** The token object, whose fields `NewJwt` assigns one step at a time. */
  class Jwt {
    var header: Header
    var payload: Payload
    var message: Bytes
    var signature: Bytes

    /** The zero value `var jwt Jwt`. */
    constructor ()
      ensures message == [] && signature == []
    {
      header := Header([], []);
      payload := Payload([], [], [], 0, 0, [], []);
      message := [];
      signature := [];
    }

    function Value(): JwtValue
      reads this
    {
      JwtValue(header, payload, message, signature)
    }

    /** `makeMessage` (marshalling these shapes cannot fail, so no error is returned). */
    method MakeMessage(json: Json)
      modifies this
      ensures message == Message(json, header, payload)
      ensures header == old(header) && payload == old(payload) && signature == old(signature)
    {
      var headerJson := json.marshalHeader(header);
      var headerBase64 := Base64Url.Encode(headerJson);
      var payloadJson := json.marshalPayload(payload);
      var payloadBase64 := Base64Url.Encode(payloadJson);
      message := headerBase64 + [DOT] + payloadBase64;
    }

    /** `makeSignature`: HS256 signs; any other algorithm is an error and leaves the token unsigned. */
    method MakeSignature(mac: Mac, secret: Bytes, alg: Bytes) returns (err: Option<Error>)
      modifies this
      ensures err.Some? <==> alg != HS256
      ensures err.Some? ==> err.value == InvalidAlgorithm && signature == old(signature)
      ensures err.None? ==> signature == Signature(mac, secret, message)
      ensures header == old(header) && payload == old(payload) && message == old(message)
    {
      if alg == HS256 {
        MakeHs256Signature(mac, secret);
        return None;
      }
      return Some(InvalidAlgorithm);
    }

    /** `makeHS256Signature`. */
    method MakeHs256Signature(mac: Mac, secret: Bytes)
      modifies this
      ensures signature == Signature(mac, secret, message)
      ensures header == old(header) && payload == old(payload) && message == old(message)
    {
      var sum := mac(secret, message);
      signature := Base64Url.Encode(sum);
    }
  }

  /** `NewJwt`: the object it returns holds exactly the value `NewJwtValue` describes. */
  method NewJwt(json: Json, mac: Mac, cfg: Config, payload: Payload, typ: Bytes) returns (r: Result<Jwt, Error>)
    ensures r.Failure? <==> NewJwtValue(json, mac, cfg, payload, typ).Failure?
    ensures r.Failure? ==> r.error == InvalidAlgorithm
    ensures r.Success? ==> fresh(r.value) && r.value.Value() == NewJwtValue(json, mac, cfg, payload, typ).value
  {
    var jwt := new Jwt();
    jwt.header := NewHeader(cfg.alg, typ);
    jwt.payload := payload;
    jwt.MakeMessage(json);
    var err := jwt.MakeSignature(mac, cfg.secret, cfg.alg);
    if err.Some? {
      return Failure(err.value);
    }
    return Success(jwt);
  }
}
