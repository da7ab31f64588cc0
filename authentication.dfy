/*
 * `CookieJWTAuthentication.authenticate` (backend/accounts/authentication.py):
 * a read-only chain of checks over one request. The collaborators it inherits
 * from simplejwt and hashlib are parameters:
 *   - `headerToken`: `get_raw_token` on the Authorization header, which
 *     `get_header` has encoded as ISO-8859-1 bytes;
 *   - `verify`: `get_validated_token`, the signature and `exp` claim check of
 *     RFC 7519 section 4.1.4, which accepts text and bytes alike (None stands
 *     for InvalidToken);
 *   - `sha256`: the digest inside `AuthToken.hash_token`, an arbitrary
 *     deterministic function of the token text;
 *   - `userActive`: whether `get_user` finds an active user for the claim.
 */
module Authentication {
  import opened Common
  import opened TokenStore

  datatype Request = Request(accessCookie: Option<string>, authorizationHeader: Option<string>)

  /** What simplejwt's `get_raw_token` makes of a present Authorization header. */
  datatype HeaderToken =
    | NoHeaderToken                 // no parts, or a first part that is not an accepted type: `None`
    | MalformedHeader               // an accepted type not followed by exactly one value: AuthenticationFailed
    | HeaderBytes(bytes: seq<Byte>) // the second part, still `bytes`

  /** The raw token `authenticate` goes on with: the cookie's text or the header's bytes. */
  datatype RawToken = FromCookie(text: string) | FromHeader(bytes: seq<Byte>)

  datatype Selected = NoToken | BadHeader | Raw(token: RawToken)

  /** The payload `get_validated_token` exposes. */
  datatype ValidatedToken = ValidatedToken(userId: UserId, jti: string, exp: int)

  datatype AuthFailure =
    | HeaderMalformed     // "Authorization header must contain two space-delimited values"
    | InvalidToken        // signature or `exp` claim rejected
    | RevokedOrMissing    // no access-type row with this hash
    | TokenRevoked        // the row is revoked
    | TokenExpired        // the row is past `expires_at`
    | UserRejected        // `get_user` found no active user

  datatype AuthOutcome =
    | Anonymous
    | Authenticated(user: UserId, token: ValidatedToken)
    | Failed(reason: AuthFailure)   // 401
    | Crashed                       // AttributeError: `bytes` has no `encode`; a 500

  /** The cookie `access_token` when present, otherwise what the header yields. */
  function SelectRawToken(req: Request, headerToken: string -> HeaderToken): (s: Selected)
    ensures req.accessCookie.Some? ==> s == Raw(FromCookie(req.accessCookie.value))
    ensures req.accessCookie.None? && req.authorizationHeader.None? ==> s == NoToken
    ensures req.accessCookie.None? && req.authorizationHeader.Some? ==>
      && (s == NoToken <==> headerToken(req.authorizationHeader.value) == NoHeaderToken)
      && (s == BadHeader <==> headerToken(req.authorizationHeader.value) == MalformedHeader)
      && (s.Raw? ==> s.token == FromHeader(headerToken(req.authorizationHeader.value).bytes))
  {
    match req.accessCookie
    case Some(cookie) => Raw(FromCookie(cookie))
    case None =>
      match req.authorizationHeader
      case None => NoToken
      case Some(header) =>
        match headerToken(header)
        case NoHeaderToken => NoToken
        case MalformedHeader => BadHeader
        case HeaderBytes(b) => Raw(FromHeader(b))
  }

  /** The row an access token must have: its hash is present with type `access`. */
  predicate HasAccessRow(rows: Table, h: TokenHash)
  {
    h in rows && rows[h].tokenType == Access
  }

  /** The database checks on a token text whose signature passed, in the source's order. */
  function CheckStoredToken(text: string, token: ValidatedToken, rows: Table, now: int,
                            sha256: string -> TokenHash, userActive: UserId -> bool): (r: AuthOutcome)
    ensures r.Authenticated? <==>
      HasAccessRow(rows, sha256(text)) && IsValid(rows[sha256(text)], now) && userActive(token.userId)
    ensures r.Authenticated? ==> r.token == token && r.user == token.userId
    ensures !r.Authenticated? ==> r.Failed? && r.reason != InvalidToken && r.reason != HeaderMalformed
    ensures r == Failed(RevokedOrMissing) <==> !HasAccessRow(rows, sha256(text))
  {
    var h := sha256(text);
    if !HasAccessRow(rows, h) then Failed(RevokedOrMissing)
    else if rows[h].isRevoked then Failed(TokenRevoked)
    else if IsExpired(rows[h], now) then Failed(TokenExpired)
    else if !userActive(token.userId) then Failed(UserRejected)
    else Authenticated(token.userId, token)
  }

  /**
   * `authenticate` as written: a header token reaches `hash_token` as
   * `bytes`, whose missing `encode` raises once the signature has passed.
   */
  function Authenticate(
    req: Request, rows: Table, now: int,
    headerToken: string -> HeaderToken,
    verify: RawToken -> Option<ValidatedToken>,
    sha256: string -> TokenHash,
    userActive: UserId -> bool): (r: AuthOutcome)
    ensures r.Anonymous? <==> SelectRawToken(req, headerToken) == NoToken
    ensures r == Failed(HeaderMalformed) <==> SelectRawToken(req, headerToken) == BadHeader
    ensures r == Failed(InvalidToken) <==>
      SelectRawToken(req, headerToken).Raw? && verify(SelectRawToken(req, headerToken).token).None?
    ensures r.Crashed? <==>
      && SelectRawToken(req, headerToken).Raw? && SelectRawToken(req, headerToken).token.FromHeader?
      && verify(SelectRawToken(req, headerToken).token).Some?
    ensures r.Authenticated? <==>
      && req.accessCookie.Some?
      && verify(FromCookie(req.accessCookie.value)).Some?
      && HasAccessRow(rows, sha256(req.accessCookie.value))
      && IsValid(rows[sha256(req.accessCookie.value)], now)
      && userActive(verify(FromCookie(req.accessCookie.value)).value.userId)
    ensures r.Authenticated? ==>
      r.token == verify(FromCookie(req.accessCookie.value)).value && r.user == r.token.userId
  {
    match SelectRawToken(req, headerToken)
    case NoToken => Anonymous
    case BadHeader => Failed(HeaderMalformed)
    case Raw(raw) =>
      match verify(raw)
      case None => Failed(InvalidToken)
      case Some(token) =>
        match raw
        case FromHeader(_) => Crashed
        case FromCookie(text) => CheckStoredToken(text, token, rows, now, sha256, userActive)
  }

  /** Only the cookie can authenticate: every request without it is anonymous, refused or crashes. */
  lemma {:induction false} NoCookieNeverAuthenticates(
    req: Request, rows: Table, now: int,
    headerToken: string -> HeaderToken, verify: RawToken -> Option<ValidatedToken>,
    sha256: string -> TokenHash, userActive: UserId -> bool)
    requires req.accessCookie.None?
    ensures !Authenticate(req, rows, now, headerToken, verify, sha256, userActive).Authenticated?
    ensures req.authorizationHeader.Some? && headerToken(req.authorizationHeader.value).HeaderBytes? &&
            verify(FromHeader(headerToken(req.authorizationHeader.value).bytes)).Some? ==>
      Authenticate(req, rows, now, headerToken, verify, sha256, userActive) == Crashed
  {
  }

  /** ISO-8859-1 decoding: each byte is the character with the same code. */
  function Latin1(b: seq<Byte>): (s: string)
    ensures |s| == |b| && forall i | 0 <= i < |b| :: s[i] as int == b[i]
  {
    seq(|b|, i requires 0 <= i < |b| => b[i] as char)
  }

  /** `authenticate` with the header token decoded to text before `hash_token`. */
  function AuthenticateDecoded(
    req: Request, rows: Table, now: int,
    headerToken: string -> HeaderToken,
    verify: RawToken -> Option<ValidatedToken>,
    sha256: string -> TokenHash,
    userActive: UserId -> bool): (r: AuthOutcome)
    ensures !r.Crashed?
    ensures r.Anonymous? <==> SelectRawToken(req, headerToken) == NoToken
    ensures r == Failed(HeaderMalformed) <==> SelectRawToken(req, headerToken) == BadHeader
    ensures r == Failed(InvalidToken) <==>
      SelectRawToken(req, headerToken).Raw? && verify(SelectRawToken(req, headerToken).token).None?
  {
    match SelectRawToken(req, headerToken)
    case NoToken => Anonymous
    case BadHeader => Failed(HeaderMalformed)
    case Raw(raw) =>
      match verify(raw)
      case None => Failed(InvalidToken)
      case Some(token) =>
        match raw
        case FromHeader(b) => CheckStoredToken(Latin1(b), token, rows, now, sha256, userActive)
        case FromCookie(text) => CheckStoredToken(text, token, rows, now, sha256, userActive)
  }

  /** With the cookie present the decoded variant is the code as written. */
  lemma {:induction false} DecodedAgreesOnCookies(
    req: Request, rows: Table, now: int,
    headerToken: string -> HeaderToken, verify: RawToken -> Option<ValidatedToken>,
    sha256: string -> TokenHash, userActive: UserId -> bool)
    requires req.accessCookie.Some?
    ensures AuthenticateDecoded(req, rows, now, headerToken, verify, sha256, userActive)
         == Authenticate(req, rows, now, headerToken, verify, sha256, userActive)
  {
  }

  /**
   * With the header decoded, a header token is judged exactly as the same
   * text in the cookie would be, when the signature check reads text and
   * bytes alike.
   */
  lemma {:induction false} DecodedHeaderActsAsCookie(
    header: string, rows: Table, now: int,
    headerToken: string -> HeaderToken, verify: RawToken -> Option<ValidatedToken>,
    sha256: string -> TokenHash, userActive: UserId -> bool)
    requires headerToken(header).HeaderBytes?
    requires verify(FromHeader(headerToken(header).bytes)) == verify(FromCookie(Latin1(headerToken(header).bytes)))
    ensures AuthenticateDecoded(Request(None, Some(header)), rows, now, headerToken, verify, sha256, userActive)
         == Authenticate(Request(Some(Latin1(headerToken(header).bytes)), None), rows, now, headerToken, verify, sha256, userActive)
  {
    var text := Latin1(headerToken(header).bytes);
    assert SelectRawToken(Request(None, Some(header)), headerToken) == Raw(FromHeader(headerToken(header).bytes));
    assert SelectRawToken(Request(Some(text), None), headerToken) == Raw(FromCookie(text));
  }

  /** The failures come in a fixed order: missing, then revoked, then expired. */
  lemma {:induction false} FailureOrder(
    req: Request, rows: Table, now: int,
    headerToken: string -> HeaderToken, verify: RawToken -> Option<ValidatedToken>,
    sha256: string -> TokenHash, userActive: UserId -> bool)
    requires req.accessCookie.Some? && verify(FromCookie(req.accessCookie.value)).Some?
    ensures var h := sha256(req.accessCookie.value);
      var r := Authenticate(req, rows, now, headerToken, verify, sha256, userActive);
      && (!HasAccessRow(rows, h) ==> r == Failed(RevokedOrMissing))
      && (HasAccessRow(rows, h) && rows[h].isRevoked ==> r == Failed(TokenRevoked))
      && (HasAccessRow(rows, h) && !rows[h].isRevoked && IsExpired(rows[h], now) ==> r == Failed(TokenExpired))
  {
  }

  /** When the cookie is present the Authorization header is never consulted. */
  lemma {:induction false} CookieWins(
    req: Request, otherHeader: Option<string>, rows: Table, now: int,
    headerToken: string -> HeaderToken, verify: RawToken -> Option<ValidatedToken>,
    sha256: string -> TokenHash, userActive: UserId -> bool)
    requires req.accessCookie.Some?
    ensures Authenticate(req, rows, now, headerToken, verify, sha256, userActive)
         == Authenticate(req.(authorizationHeader := otherHeader), rows, now, headerToken, verify, sha256, userActive)
  {
    assert SelectRawToken(req, headerToken) == SelectRawToken(req.(authorizationHeader := otherHeader), headerToken);
  }

  /** A refresh token presented as an access token is refused as missing, even when its row is live. */
  lemma {:induction false} RefreshTokenRefused(
    req: Request, rows: Table, now: int,
    headerToken: string -> HeaderToken, verify: RawToken -> Option<ValidatedToken>,
    sha256: string -> TokenHash, userActive: UserId -> bool)
    requires req.accessCookie.Some? && verify(FromCookie(req.accessCookie.value)).Some?
    requires sha256(req.accessCookie.value) in rows
    requires rows[sha256(req.accessCookie.value)].tokenType == Refresh
    ensures Authenticate(req, rows, now, headerToken, verify, sha256, userActive) == Failed(RevokedOrMissing)
  {
  }

  /**
   * Logging a session out through `revoke` on its live refresh row makes
   * every access token derived from it fail authentication, whatever the
   * signature check says.
   */
  lemma {:induction false} RevokedSessionRefused(
    req: Request, rows: Table, parent: TokenHash, t1: int, t2: int, now: int,
    headerToken: string -> HeaderToken, verify: RawToken -> Option<ValidatedToken>,
    sha256: string -> TokenHash, userActive: UserId -> bool)
    requires parent in rows && rows[parent].tokenType == Refresh && !rows[parent].isRevoked
    requires req.accessCookie.Some?
    requires sha256(req.accessCookie.value) in rows
    requires rows[sha256(req.accessCookie.value)].refreshToken == Some(parent)
    ensures !Authenticate(req, RevokeRows(rows, parent, t1, t2), now, headerToken, verify, sha256, userActive).Authenticated?
  {
    var h := sha256(req.accessCookie.value);
    var after := RevokeRows(rows, parent, t1, t2);
    assert h in after && after[h].refreshToken == Some(parent);
    assert after[h].isRevoked;
  }

  /** After `revoke_all_user_tokens(u)` no token whose row belongs to `u` authenticates. */
  lemma {:induction false} RevokeAllRefused(
    req: Request, rows: Table, u: UserId, at: int, now: int,
    headerToken: string -> HeaderToken, verify: RawToken -> Option<ValidatedToken>,
    sha256: string -> TokenHash, userActive: UserId -> bool)
    requires req.accessCookie.Some?
    requires sha256(req.accessCookie.value) in rows
    requires rows[sha256(req.accessCookie.value)].user == u
    ensures !Authenticate(req, RevokeAllRows(rows, u, at), now, headerToken, verify, sha256, userActive).Authenticated?
  {
    var h := sha256(req.accessCookie.value);
    var after := RevokeAllRows(rows, u, at);
    assert h in after && after[h].user == u;
  }
}
