/** The start-up configuration of Program.cs: the rule a session token must
    pass (issuer, audiences, lifetime with zero clock skew, signing key),
    the cookie the token is read from, and the allowed-origins list.
    Tokens are records; a signature is the key bytes it was made with. */
module Startup {
  import opened Common
  import Text

  /** A token lives one hour; times are whole seconds, as in a JWT. */
  const TokenLifetime: int := 3600

  /** The cookie Login writes and the authentication handler reads. */
  const AuthCookie: string := "AuthToken"

  /** Jwt:Key, Jwt:Issuer, Jwt:Audiences:Admins and Jwt:Audiences:Users;
      None where the setting is absent. */
  datatype JwtConfig = JwtConfig(
    key: Option<string>,
    issuer: Option<string>,
    adminsAudience: Option<string>,
    usersAudience: Option<string>)

  /** NameIdentifier, Name, Email and Role claims. */
  datatype Claims = Claims(
    nameIdentifier: Option<string>,
    name: Option<string>,
    email: Option<string>,
    role: Option<string>)

  datatype Token = Token(
    claims: Claims,
    issuer: Option<string>,
    audience: Option<string>,
    notBefore: Option<int>,
    expires: Option<int>,
    signingKey: seq<byte>)

  /** The key the handler validates signatures with: the UTF-8 bytes of Jwt:Key. */
  predicate SignatureValid(cfg: JwtConfig, t: Token) {
    cfg.key.Some? && t.signingKey == Text.Utf8(cfg.key.value)
  }

  /** The issuer must be present, not blank, and equal to Jwt:Issuer. */
  predicate IssuerValid(cfg: JwtConfig, t: Token) {
    t.issuer.Some? && !Text.IsBlank(t.issuer.value) && t.issuer == cfg.issuer
  }

  /** The audience must be present, not blank, and one of the two
      configured audiences; a blank configured audience matches nothing. */
  predicate AudienceValid(cfg: JwtConfig, t: Token) {
    && t.audience.Some? && !Text.IsBlank(t.audience.value)
    && (t.audience == cfg.adminsAudience || t.audience == cfg.usersAudience)
  }

  /** An expiry is required; with zero clock skew a token is refused before
      its not-before time and once its expiry time has passed. */
  predicate LifetimeValid(t: Token, now: int) {
    && t.expires.Some?
    && (t.notBefore.Some? ==> t.notBefore.value <= t.expires.value && t.notBefore.value <= now)
    && now <= t.expires.value
  }

  /** The validation rule: all four checks, each of which alone rejects.
      Without a key, a non-blank issuer or a non-blank audience, no token
      passes. */
  function Accept(cfg: JwtConfig, t: Token, now: int): (ok: bool)
    ensures ok ==> cfg.key.Some? && t.signingKey == Text.Utf8(cfg.key.value)
    ensures ok ==> cfg.issuer.Some? && !Text.IsBlank(cfg.issuer.value) && t.issuer == cfg.issuer
    ensures ok ==> t.audience.Some? && !Text.IsBlank(t.audience.value)
    ensures ok ==> t.audience == cfg.adminsAudience || t.audience == cfg.usersAudience
    ensures ok ==> (cfg.adminsAudience.Some? && !Text.IsBlank(cfg.adminsAudience.value))
                   || (cfg.usersAudience.Some? && !Text.IsBlank(cfg.usersAudience.value))
    ensures ok ==> t.expires.Some? && now <= t.expires.value
  {
    SignatureValid(cfg, t) && IssuerValid(cfg, t) && AudienceValid(cfg, t) && LifetimeValid(t, now)
  }

  /** The token Login mints at time `now`: audience Jwt:Audiences:Users,
      issuer Jwt:Issuer, valid from `now` for one hour, signed with Jwt:Key.
      None when the key is missing or empty. */
  function Issue(cfg: JwtConfig, claims: Claims, now: int): (t: Option<Token>)
    ensures t.Some? <==> cfg.key.Some? && cfg.key.value != ""
    ensures t.Some? ==> t.value.claims == claims && t.value.expires == Some(now + TokenLifetime)
    ensures t.Some? ==> SignatureValid(cfg, t.value)
    ensures t.Some? ==> t.value.issuer == cfg.issuer && t.value.audience == cfg.usersAudience
    ensures t.Some? ==> t.value.notBefore == Some(now)
  {
    if cfg.key.None? || cfg.key.value == "" then None
    else Some(Token(claims, cfg.issuer, cfg.usersAudience, Some(now), Some(now + TokenLifetime),
                    Text.Utf8(cfg.key.value)))
  }

  /** A configuration under which the tokens Login mints can be accepted. */
  predicate Configured(cfg: JwtConfig) {
    && cfg.key.Some? && cfg.key.value != ""
    && cfg.issuer.Some? && !Text.IsBlank(cfg.issuer.value)
    && cfg.usersAudience.Some? && !Text.IsBlank(cfg.usersAudience.value)
  }

  /** A token issued at `now` is accepted from `now` up to and including its
      expiry one hour later. */
  lemma IssuedTokenAccepted(cfg: JwtConfig, claims: Claims, now: int, later: int)
    requires Configured(cfg)
    requires now <= later <= now + TokenLifetime
    ensures Issue(cfg, claims, now).Some?
    ensures Accept(cfg, Issue(cfg, claims, now).value, later)
  {
  }

  /** ... and rejected after its expiry, and before it was issued. */
  lemma IssuedTokenExpires(cfg: JwtConfig, claims: Claims, now: int, later: int)
    requires later > now + TokenLifetime || later < now
    requires Issue(cfg, claims, now).Some?
    ensures !Accept(cfg, Issue(cfg, claims, now).value, later)
  {
  }

  /** A token signed with other key bytes is rejected, whatever it claims. */
  lemma ForeignKeyRejected(cfg: JwtConfig, t: Token, now: int)
    requires cfg.key.Some? && t.signingKey != Text.Utf8(cfg.key.value)
    ensures !Accept(cfg, t, now)
  {
  }

  /** A token whose issuer is not Jwt:Issuer is rejected, whatever else it
      carries. */
  lemma IssuerMismatchRejected(cfg: JwtConfig, t: Token, now: int)
    requires t.issuer != cfg.issuer
    ensures !Accept(cfg, t, now)
  {
  }

  /** A token whose audience is neither configured audience is rejected,
      whatever else it carries. */
  lemma AudienceMismatchRejected(cfg: JwtConfig, t: Token, now: int)
    requires t.audience != cfg.adminsAudience && t.audience != cfg.usersAudience
    ensures !Accept(cfg, t, now)
  {
  }

  /** Without a non-blank Jwt:Audiences:Users, no token Login issues is ever
      accepted, even when the admins audience is set. */
  lemma BlankUsersAudienceRejectsIssued(cfg: JwtConfig, claims: Claims, now: int, later: int)
    requires cfg.usersAudience.None? || Text.IsBlank(cfg.usersAudience.value)
    requires Issue(cfg, claims, now).Some?
    ensures !Accept(cfg, Issue(cfg, claims, now).value, later)
  {
  }

  /** The token the handler reads: the value of the AuthToken cookie. */
  function TokenFromCookies(cookies: map<string, Token>): (t: Option<Token>)
    ensures t.Some? <==> AuthCookie in cookies
    ensures t.Some? ==> t.value == cookies[AuthCookie]
  {
    if AuthCookie in cookies then Some(cookies[AuthCookie]) else None
  }

  /** Authentication of one request: the claims of an accepted token. */
  function Authenticate(cfg: JwtConfig, cookies: map<string, Token>, now: int): (c: Option<Claims>)
    ensures c.Some? <==> AuthCookie in cookies && Accept(cfg, cookies[AuthCookie], now)
    ensures c.Some? ==> c.value == cookies[AuthCookie].claims
  {
    match TokenFromCookies(cookies)
    case None => None
    case Some(t) => if Accept(cfg, t, now) then Some(t.claims) else None
  }

  /** Cookies other than AuthToken play no part in authentication. */
  lemma OtherCookiesIgnored(cfg: JwtConfig, cookies: map<string, Token>, name: string, t: Token, now: int)
    requires name != AuthCookie
    ensures Authenticate(cfg, cookies[name := t], now) == Authenticate(cfg, cookies, now)
    ensures Authenticate(cfg, cookies - {name}, now) == Authenticate(cfg, cookies, now)
  {
  }

  /** The cookie Login sets is the one the handler reads: a browser that
      stores it is authenticated with the issued claims for the hour. */
  lemma LoginCookieAuthenticates(cfg: JwtConfig, claims: Claims, now: int, later: int,
                                 cookies: map<string, Token>)
    requires Configured(cfg)
    requires now <= later <= now + TokenLifetime
    ensures Issue(cfg, claims, now).Some?
    ensures Authenticate(cfg, cookies[AuthCookie := Issue(cfg, claims, now).value], later) == Some(claims)
  {
    IssuedTokenAccepted(cfg, claims, now, later);
  }

  // ---------------------------------------------------------------------
  // Cors:AllowedOrigins
  // ---------------------------------------------------------------------

  /** The configured origins with null and blank entries removed. */
  function NonBlankOrigins(configured: seq<Option<string>>): (r: seq<string>)
    ensures |r| <= |configured|
    ensures forall o :: o in r <==> Some(o) in configured && !Text.IsBlank(o)
  {
    if configured == [] then []
    else
      var rest := NonBlankOrigins(configured[1..]);
      assert forall x :: x in configured <==> x == configured[0] || x in configured[1..];
      if Text.IsNullOrWhiteSpace(configured[0]) then rest else [configured[0].value] + rest
  }

  /** The allowed origins; an absent setting gives the empty list. */
  function AllowedOrigins(setting: Option<seq<Option<string>>>): (r: seq<string>)
    ensures setting.None? ==> r == []
    ensures forall o :: o in r <==> setting.Some? && Some(o) in setting.value && !Text.IsBlank(o)
  {
    if setting.None? then [] else NonBlankOrigins(setting.value)
  }
}
