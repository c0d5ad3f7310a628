# Token and credential core of auth-server, in Dafny

This project models the security-relevant core of a Go authorisation server and proves properties of that model. The core has four parts:

- **Bearer tokens.** The server issues and validates JSON Web Tokens (RFC 7519) in the JWS compact serialisation (section 7.1 of RFC 7515), signed with HMAC-SHA256 ("HS256", section 3.2 of RFC 7518).
- **Scope grants.** A client's `application:permission` entries are checked against a space-separated scope request.
- **The client-credentials token endpoint.** The model covers its decision chain, and the bearer-token guard in front of protected handlers.
- **The PBKDF2 password hasher.** PBKDF2 is defined in section 5.2 of RFC 8018. The hasher stores credentials as `alg$iterations$hex(salt)$hex(key)`.

Modules follow the source files:

| module | file | models |
|---|---|---|
| `Strings` | (Go's `strings` package) | `Split` and `Join` on one-byte separators. Go strings and byte slices are both `Bytes` (`seq<byte>`). |
| `Base64Url` | (Go's `base64.RawURLEncoding`) | Unpadded base64url (section 5 of RFC 4648), written out and proved: decoding inverts encoding, and the alphabet excludes `.` and `$`. |
| `Format` | (Go's `fmt` verbs `%x`, `%d`) | Lower-case hex of bytes with its inverse, and decimal integers. |
| `Jwt` | `models/jwt.go` | `Header`, `Payload`, `newHeader`, `NewPayload`, the `Jwt` class that `NewJwt`, `makeMessage`, `makeSignature` and `makeHS256Signature` fill in place, and `Token`, `CheckSignature`, `checkHS256Signature` on the finished value `JwtValue`. |
| `TokenUtils` | `models/token_utils.go` | `SplitToken`, `ParseHeader`, `ParsePayload`, `ParseJSON`. |
| `Clients` | `models/client.go` | `Client.HasAllowedScopes`, `Client.CheckApps` and `contains`. These are loop methods, proved against scan functions and a quantified grant. |
| `Pbkdf2Hasher` | `hasher/pbkdf2_hasher.go` | `NewPBKDF2Hasher`, `GenerateFromPassword` and `CompareHashAndPassword`. |
| `OAuthHandlers` | `server/oauth_handlers.go` | `ValidateToken`, plus `HandleToken` as the sequence of replies it writes. |
| `Middleware` | `server/middleware.go` | The decision made by `AuthMiddleware`'s closure. |

The source reads some inputs from the environment and the clock. The model passes them in instead:

- The environment settings `AUTH_SERVER_JWT_ALG`, `AUTH_SERVER_JWT_SECRET` and `AUTH_SERVER_JWT_ISS` form the immutable record `Jwt.Config`.
- The clock is the parameter `now`, in Unix seconds.
- `uuid.New()` is the parameter `jti`.

Some primitives come from libraries. Each one becomes a function-valued parameter:

- JSON marshalling and decoding are the fields of `Jwt.Json`.
- HMAC-SHA256 is `Jwt.Mac`.
- PBKDF2-HMAC-SHA256 is `Pbkdf2Hasher.Kdf`. Its 32-byte output (`sha256.Size`) is the hypothesis of `Pbkdf2Hasher.KeyFieldLength`.

The only assumption made about these is `Jwt.RoundTrips`: the JSON decoder reads back what the encoder writes. Lemmas that need it list it in their `requires`.

A Go panic is an explicit outcome here, not a precondition. An index past the end of a split, or a slice out of range, is `IndexOutOfRange`, `Panicked` or `Aborted`. Each panic outcome arises at the point in the order of checks where the source would reach that index.

## Model

| member | source | states |
|---|---|---|
| `Strings.Split` | models/token_utils.go:9-11 | `strings.Split` on one byte gives at least one piece, no piece contains the separator, and joining the pieces gives the input back. |
| `Strings.SplitJoin` | models/token_utils.go:9-11 | Splitting inverts joining for pieces free of the separator. |
| `Strings.SplitConcat` | server/oauth_handlers.go:85 | A separator between two strings splits them apart: the pieces of the first, then the pieces of the second. |
| `Strings.SplitThree` | models/jwt.go:87-89 | Three separator-free pieces joined by dots split back into exactly those three. |
| `Base64Url.Encode` | models/jwt.go:96-101 | Unpadded base64url output has length ceil(4n/3) and uses only the URL-safe alphabet, so it never contains `.` or `$`. |
| `Base64Url.Decode` | models/token_utils.go:15-18 | A successful decode has only alphabet characters, a length not 1 mod 4, and yields floor(3·len/4) bytes. Any other input is an error. |
| `Base64Url.DecodeEncode` | models/token_utils.go:15 | Decoding inverts encoding for every byte string. |
| `Format.Hex` | hasher/pbkdf2_hasher.go:27 | `%x` writes two hex digits per byte, so it never contains `$`. |
| `Format.UnhexHex` | hasher/pbkdf2_hasher.go:27 | Reading the hex back gives the original bytes. |
| `Format.HexInjective` | hasher/pbkdf2_hasher.go:40-41 | Equal hex text means equal bytes, so comparing hex keys compares the keys. |
| `Format.Decimal` | hasher/pbkdf2_hasher.go:27 | `%d` of an int is non-empty and has no `$`. |
| `Jwt.NewHeader` | models/jwt.go:142-147 | The header carries exactly the given alg and typ. |
| `Jwt.NewPayload` | models/jwt.go:155-166 | Fields set: `iss` from config; `sub`, `aud` and `jti` as given; `iat = now`; `exp - iat = 3600·exp`, so a positive lifetime gives `exp > iat`. The scope list joined by spaces is the scope string (`""` gives `[""]`), and no element contains a space. |
| `Jwt.Message` | models/jwt.go:91-104 | The message splits on `.` into exactly the two segments b64url(json(header)) and b64url(json(payload)). |
| `Jwt.Signature` | models/jwt.go:116-123 | The signature is b64url(HMAC(secret, message)) and contains no `.`. As a function, it is deterministic. |
| `Jwt.JwtValue.Token` | models/jwt.go:87-89 | The token is the message, a `.`, and the signature. With a dot-free signature, its split on `.` is the message's own pieces followed by the signature; with a dot-free message too, exactly `[message, signature]`. |
| `Jwt.JwtValue.CheckSignature` | models/jwt.go:125-132 | Under HS256 the result is true iff the argument equals the stored signature. Any other header alg gives "invalid algorithm". |
| `Jwt.JwtValue.CheckHs256Signature` | models/jwt.go:134-139 | Never an error; true iff the argument equals the stored signature. |
| `Jwt.NewJwtValue` | models/jwt.go:69-80 | Error "invalid algorithm" iff the configured alg is not "HS256". Otherwise: header {configured alg, typ}; payload unchanged; the signature signs the message; the token splits into header segment, payload segment and signature. |
| `Jwt.Jwt.constructor` | models/jwt.go:70 | The zero `Jwt` has an empty message and an empty signature. |
| `Jwt.Jwt.MakeMessage` | models/jwt.go:91-104 | Assigns the message for the current header and payload and changes no other field. |
| `Jwt.Jwt.MakeSignature` | models/jwt.go:106-114 | For "HS256", assigns the HS256 signature. For any other alg, returns "invalid algorithm" and leaves the signature as it was. |
| `Jwt.Jwt.MakeHs256Signature` | models/jwt.go:116-123 | Assigns b64url(HMAC(secret, message)) and changes nothing else. |
| `Jwt.NewJwt` | models/jwt.go:69-80 | Fails exactly when `NewJwtValue` fails. Otherwise it returns a fresh object whose fields are exactly that value. |
| `TokenUtils.SplitToken` | models/token_utils.go:9-11 | The pieces joined by `.` give the token back, and no piece contains `.`. |
| `TokenUtils.ParseJson` | models/token_utils.go:39-46 | Success iff the decoder accepts the text. Otherwise the error is a JSON error. |
| `TokenUtils.ParseHeader` | models/token_utils.go:13-24 | Not base64url: base64 error, no header. Decodes but is not JSON for a Header: JSON error, no header. Otherwise the decoded header. |
| `TokenUtils.ParsePayload` | models/token_utils.go:26-37 | Same two failure modes, in the same order, for a Payload. |
| `TokenUtils.ParseHeaderInverts` | models/token_utils.go:13-24 | A segment written by `makeMessage` parses back to the original header. |
| `TokenUtils.ParsePayloadInverts` | models/token_utils.go:26-37 | A segment written by `makeMessage` parses back to the original payload. |
| `TokenUtils.IssuedTokenParses` | models/token_utils.go:9-11 | An issued token splits into exactly three pieces: the header, then the payload (both parse back), then the signature. |
| `Clients.Client.HasAllowedScopes` | models/client.go:23-42 | The nested loops compute the ordered scan `ScopeDecision`, including where they panic. Over `:`-shaped entries and tokens the result is exactly "every requested token has an entry for appName with its permission". |
| `Clients.Client.CheckApps` | models/client.go:44-52 | nil iff every entry's application is in `appNames`. Otherwise the error names the first offending entry's application, in list order. |
| `Clients.Contains` | models/client.go:54-61 | True iff the element occurs in the slice. |
| `Clients.SplitHasSecond` | models/client.go:29-30 | Index 1 of a split on `:` exists iff the text contains `:`. |
| `Clients.SearchSound` | models/client.go:27-33 | The inner loop reports a token allowed only through an entry that grants it. |
| `Clients.SearchComplete` | models/client.go:27-33 | Over well-formed entries and a well-formed token, the inner loop never panics, and it succeeds iff some entry grants the token. |
| `Clients.DecisionSound` | models/client.go:35-41 | A true decision implies every requested token is granted, so a partial grant never passes. |
| `Clients.DecisionComplete` | models/client.go:23-42 | With every entry and token containing `:`, the decision is made without panicking and equals the quantified grant (both directions). |
| `Clients.EmptyGrantRefuses` | models/client.go:24-38 | With no allowed entries, every request is refused, `""` included. |
| `Clients.AppendKeepsGrant` | models/client.go:27-33 | Appending entries never turns an accepted request into a refused one. |
| `Clients.SearchAppend` | models/client.go:27-33 | A token found in a list is still found after entries are appended. |
| `Clients.RequestedAppIgnored` | models/client.go:30 | Two requested tokens with the same permission part get the same result, whatever their application parts. |
| `Clients.EntryParts` | models/client.go:28-29 | `app:perm` has application part `app` and permission part `perm`. |
| `Clients.OtherPermissionRefused` | models/client.go:30-38 | `app:p` is refused by the single entry `app:q` when q ≠ p ("billing:read" against {"billing:write"}). |
| `Clients.SamePermissionGranted` | models/client.go:30-33 | `app:p` is granted by {`app:p`, `app:q`} ("billing:read" against {"billing:read", "billing:write"}). |
| `Clients.PartialGrantRefused` | models/client.go:35-38 | Two tokens, where the entry grants only the first, are refused ("billing:read reports:view" against {"billing:read"}). |
| `Clients.OtherApplicationRequestGranted` | models/client.go:30 | A request naming another application is granted by an entry for appName with the same permission. |
| `Pbkdf2Hasher.NewPbkdf2Hasher` | hasher/pbkdf2_hasher.go:17-23 | The tag is always "pbkdf2" (free of `$`). Iterations and secret are stored unchanged. |
| `Pbkdf2Hasher.GenerateFromPassword` | hasher/pbkdf2_hasher.go:25-30 | With a `$`-free tag, the output splits on `$` into exactly four fields: tag, decimal iterations, hex(secret), hex(PBKDF2(password, secret, iterations)). |
| `Pbkdf2Hasher.CompareHashAndPassword` | hasher/pbkdf2_hasher.go:32-45 | "invalid hashed password" iff the stored text does not have exactly four `$`-fields. Every other failure is "passwords do not match". |
| `Pbkdf2Hasher.CompareAcceptsIff` | hasher/pbkdf2_hasher.go:37-44 | Accepted iff there are four fields, the tag is the hasher's own, and the key field is hex(PBKDF2(password, bytes of the salt field, hasher's iterations)). The stored iteration field is never used. |
| `Pbkdf2Hasher.GenerateThenCompare` | hasher/pbkdf2_hasher.go:26-39 | Generate-then-compare accepts the right password iff PBKDF2 gives the same key for the raw secret and for its hex text. |
| `Pbkdf2Hasher.GenerateThenCompareFails` | hasher/pbkdf2_hasher.go:26-39 | A derivation that separates the two salts (which forces a non-empty secret) rejects the hasher's own output for the right password. |
| `Format.HexDiffers` | hasher/pbkdf2_hasher.go:27 | The hex text of a non-empty secret is never the secret itself (it is twice as long), so the salts used at :26 and :38-39 always differ unless the secret is empty. |
| `Pbkdf2Hasher.KeyFieldLength` | hasher/pbkdf2_hasher.go:26-27 | With a derivation yielding `sha256.Size` = 32 bytes, the credential has four fields, the salt field is twice the secret's length and the key field is 64 hex characters. |
| `Pbkdf2Hasher.SaltMismatchWitness` | hasher/pbkdf2_hasher.go:38-39 | Concrete case: secret [0x01] (hex "01"), password "secret123", a derivation that keeps the salt. The comparison answers "passwords do not match". |
| `Pbkdf2Hasher.CompareHashAndPasswordFixed` | hasher/pbkdf2_hasher.go:32-45 | The corrected comparison still refuses anything without four fields. |
| `Pbkdf2Hasher.GenerateThenCompareFixed` | hasher/pbkdf2_hasher.go:25-45 | With the salt read back from hex, a generated credential verifies the right password for every derivation function. Another password is accepted iff it derives the same key. |
| `OAuthHandlers.ValidateToken` | server/oauth_handlers.go:84-114 | Accepted iff: three pieces; configured alg "HS256"; the header decodes with the configured alg; the payload decodes with `now <= exp`; the third piece equals the signature over Header{configured alg, "JWT"} and the decoded payload. On acceptance it returns that payload. The first failing check decides the rejection: a header decode error is returned as is; so is a payload decode error once the alg matches. "invalid algorithm" iff the decoded alg differs from the configured one, or the configured one is not "HS256" once the payload passed. "token expired" iff the checks before it passed and `exp < now`. "invalid signature" iff everything before it passed and the third piece differs from the expected signature. It panics exactly when a missing second or third piece is reached after the earlier checks passed. |
| `OAuthHandlers.AlgorithmCheckedFirst` | server/oauth_handlers.go:86-93 | A header with another alg is refused as "invalid algorithm" before the payload is decoded or the pieces are counted. |
| `OAuthHandlers.ExpiryCheckedBeforeSignature` | server/oauth_handlers.go:94-101 | A decodable payload with `exp < now` is refused as "token expired", whatever the signature. |
| `OAuthHandlers.IssuedTokenValidates` | server/oauth_handlers.go:84-114 | A token issued for payload p is accepted, with p returned unchanged, at every `now <= p.exp` (`exp == now` included). |
| `OAuthHandlers.IssuedTokenExpires` | server/oauth_handlers.go:99-101 | The same token is refused as "token expired" at any `now > p.exp`. |
| `OAuthHandlers.ExtraPiecesIgnored` | server/oauth_handlers.go:85-106 | Pieces after the third never change the outcome. |
| `OAuthHandlers.HeaderSegmentNotSigned` | server/oauth_handlers.go:102-112 | Two header segments that both decode to the configured alg give the same outcome. The signature covers a rebuilt header, not the raw segment. |
| `OAuthHandlers.HandleToken` | server/oauth_handlers.go:13-60 | A body that fails to decode always gets a 400 first. A grant type other than "client_credentials" never gets a token or a panic. At most two replies are written. |
| `OAuthHandlers.GrantClientCredentials` | server/oauth_handlers.go:21-59 | Outside "client_credentials", nothing is added and nothing panics. Otherwise it panics iff it appends no reply. A failed lookup appends a 500 "lookup failed". A scope check that panics appends nothing. A refused scope check appends a 401. A non-HS256 configuration appends a 500 "invalid algorithm". An allowed grant appends the issued token for the one-hour payload of client and application, with type "Bearer". |
| `OAuthHandlers.HandleTokenFixed` | server/oauth_handlers.go:17-20 | With the missing `return`, a decode failure gets exactly one 400. At most one reply is written, and the handler otherwise agrees with `HandleToken`. |
| `OAuthHandlers.DecodeErrorAnsweredTwice` | server/oauth_handlers.go:17-21 | As written, a body whose decode fails but whose grant type was read gets the 400 and then a 500, or a token. |
| `OAuthHandlers.IssuesOnlyClientCredentials` | server/oauth_handlers.go:21 | A token reply is only ever written for grant type "client_credentials". |
| `OAuthHandlers.ScopeRefusalIssuesNothing` | server/oauth_handlers.go:31-34 | A refused scope check writes a single 401 and no token. |
| `OAuthHandlers.IssuedGrantValidates` | server/oauth_handlers.go:36-49 | An allowed grant gets one "Bearer" token. Its payload has sub = client ID, aud = application ID, `exp = iat + 3600` and the split scope. It validates to exactly that payload until it expires. |
| `Middleware.AuthMiddleware` | server/middleware.go:15-32 | Empty header: 401 "missing authorization header". 1 to 6 bytes: slice panic. Exactly 7 bytes: 401 "missing bearer token". `next` runs iff the header is longer than 7 bytes and the rest validates; otherwise a 401. |
| `Middleware.SchemeNeverChecked` | server/middleware.go:21 | The first seven bytes are dropped unread, so any seven-byte prefix gives the same decision. |
| `Middleware.IssuedBearerPasses` | server/middleware.go:15-32 | "Bearer " plus a token the server issued, presented before it expires, reaches `next`. |

## Left out

- **Library primitives are parameters, not definitions.** JSON marshalling and decoding, HMAC-SHA256, PBKDF2 and `uuid.New` are passed in as functions and never defined. The JSON round trip is the hypothesis `Jwt.RoundTrips`. Go's `json.Marshal` replaces invalid UTF-8 with U+FFFD, so in Go the round trip holds only for claim strings that are valid UTF-8.
- **Newlines in base64.** `Base64Url.Decode` does not model Go's decoder skipping `\r` and `\n` inside the input.
- **Constant-time comparison.** The source compares signatures and credentials with plain `!=`, and timing is not expressible in the model.
- **Output with no effect on decisions.** Logging is left out, and so is the `fmt.Println` of every generated credential (hasher/pbkdf2_hasher.go:28). HTTP plumbing is left out too: header and body writes, JSON encoding of responses, and the 501 introspection handlers. A reply is an abstract `Reply` value.
- **Persistence.** `FetchClientAndApplication` is a database lookup. It becomes the `lookup` input of `HandleToken`, and its error becomes `None`.
- **What the server does after a panic.** `net/http` recovers the panic and drops the connection; the model stops at the `Panicked` / `Aborted` / `IndexOutOfRange` outcome.
- Jwt.NewPayload: the two separate `time.Now()` reads are modelled as one `now` in whole seconds. The model also requires `|exp| <= 2562047` hours. Beyond that bound Go's `time.Duration` multiplication wraps around silently, and that wrap-around is not modelled.
- **64-bit integers.** `exp` and `iat` are unbounded integers, so int64 overflow of timestamps is not modelled.
- Jwt.Jwt.MakeMessage: the error result of `makeMessage` is not modelled. It is always nil for these shapes, and `NewJwt` discards it.
- **The zero `Jwt`.** Its nil `Header` and `Payload` pointers are modelled as empty values; no path reads them before they are assigned.
- **Error values.** Errors are kinds (`Jwt.Error`, `CompareError`, `Refusal`, `AuthRefusal`), not message strings. `CheckApps`'s error carries the application name it would print.
- **Hasher registry.** hasher/hasher.go is a global that only forwards to this hasher.

Where the code and the intended design differ, the model follows the code:

- Validation does not require exactly three pieces. Fewer panics, and extra pieces are ignored.
- The signature is recomputed over a rebuilt header and the re-encoded payload, not over the raw segments.
- An empty scope request is not vacuously allowed. It is the single token `""`, which panics or is refused.
- A malformed scope panics rather than returning a format error.
- Comparison re-derives with the hasher's own iteration count, not the stored one.
- The scope list travels in the JSON payload as an array.

## Findings

| source | as written | input that shows it | evidently intended | confidence | as-written member | corrected member |
|---|---|---|---|---|---|---|
| hasher/pbkdf2_hasher.go:38-39 | Generation salts PBKDF2 with the raw secret bytes. Comparison salts it with the bytes of the secret's hex text, taken from the stored field. | secret `[0x01]` (hex text "01"), password "secret123": the freshly generated credential is rejected with "passwords do not match" | Read the salt field back from hex, so that a generated credential verifies its own password (proved in `Pbkdf2Hasher.GenerateThenCompareFixed`) | not executed; high (fails unless PBKDF2 collides on the two salts; only an empty secret gives the same salt both ways, by `Format.HexDiffers`) | `Pbkdf2Hasher.SaltMismatchWitness` | `Pbkdf2Hasher.CompareHashAndPasswordFixed` |
| server/oauth_handlers.go:17-20 | After a request body fails to decode, the handler writes the 400 but has no `return`, so it carries on with the partly decoded request | body `{"grant_type":"client_credentials","client_id":"c1","aud":1,"scope":"billing:read"}`: the number `aud` is a type error, Go still fills the other fields, and a second reply (a 500 from the failing lookup) follows the 400 | Return after the 400, as every other error branch does | not executed; high | `OAuthHandlers.DecodeErrorAnsweredTwice` | `OAuthHandlers.HandleTokenFixed` |
