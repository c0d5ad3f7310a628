/** Taking a token text apart again: the split on '.' and the decoding of its segments. */
module TokenUtils {
  import opened Wrappers
  import opened Strings
  import Base64Url
  import opened Jwt

  /** `SplitToken`: the dot-separated pieces; joined with dots they give the token back. */
  function SplitToken(token: Bytes): (parts: seq<Bytes>)
    ensures |parts| >= 1 && Join(parts, DOT) == token
    ensures forall k :: 0 <= k < |parts| ==> DOT !in parts[k]
  {
    Split(token, DOT)
  }

  /** `ParseJSON`: decode JSON text into the target shape, or report malformed JSON. */
  function ParseJson<T>(unmarshal: Bytes -> Option<T>, text: Bytes): (r: Result<T, Error>)
    ensures r.Success? <==> unmarshal(text).Some?
    ensures r.Success? ==> unmarshal(text) == Some(r.value)
    ensures r.Failure? ==> r.error == MalformedJson
  {
    match unmarshal(text)
    case Some(v) => Success(v)
    case None => Failure(MalformedJson)
  }

  /** `ParseHeader`: base64url first, then JSON; the first failure is the result and no header. */
  function ParseHeader(json: Json, segment: Bytes): (r: Result<Header, Error>)
    ensures Base64Url.Decode(segment).None? ==> r == Failure(CorruptBase64)
    ensures Base64Url.Decode(segment).Some? ==>
      r == ParseJson(json.unmarshalHeader, Base64Url.Decode(segment).value)
  {
    match Base64Url.Decode(segment)
    case None => Failure(CorruptBase64)
    case Some(text) => ParseJson(json.unmarshalHeader, text)
  }

  /** `ParsePayload`: the same two steps and failure modes as `ParseHeader`. */
  function ParsePayload(json: Json, segment: Bytes): (r: Result<Payload, Error>)
    ensures Base64Url.Decode(segment).None? ==> r == Failure(CorruptBase64)
    ensures Base64Url.Decode(segment).Some? ==>
      r == ParseJson(json.unmarshalPayload, Base64Url.Decode(segment).value)
  {
    match Base64Url.Decode(segment)
    case None => Failure(CorruptBase64)
    case Some(text) => ParseJson(json.unmarshalPayload, text)
  }

  /** Parsing inverts `makeMessage`'s encoding of a header. */
  lemma ParseHeaderInverts(json: Json, h: Header)
    requires RoundTrips(json)
    ensures ParseHeader(json, Segment(json.marshalHeader(h))) == Success(h)
  {
    Base64Url.DecodeEncode(json.marshalHeader(h));
  }

  /** Parsing inverts `makeMessage`'s encoding of a payload. */
  lemma ParsePayloadInverts(json: Json, p: Payload)
    requires RoundTrips(json)
    ensures ParsePayload(json, Segment(json.marshalPayload(p))) == Success(p)
  {
    Base64Url.DecodeEncode(json.marshalPayload(p));
  }

  /**
   * A token `NewJwt` built splits into exactly three pieces, which parse back
   * to its header and payload and carry its signature last.
   */
  lemma IssuedTokenParses(json: Json, mac: Mac, cfg: Config, p: Payload, typ: Bytes)
    requires RoundTrips(json) && cfg.alg == HS256
    ensures var v := NewJwtValue(json, mac, cfg, p, typ).value;
      var parts := SplitToken(v.Token());
      && |parts| == 3
      && ParseHeader(json, parts[0]) == Success(Header(cfg.alg, typ))
      && ParsePayload(json, parts[1]) == Success(p)
      && parts[2] == v.signature
  {
    ParseHeaderInverts(json, Header(cfg.alg, typ));
    ParsePayloadInverts(json, p);
  }
}
