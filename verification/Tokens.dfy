/** The token records shared by the repositories. */
module Tokens {
  import opened Options

  datatype AccessToken = AccessToken(
    token: string,
    clientId: string,
    userId: string,
    scope: string,
    expiresAt: int,
    revoked: bool,
    issuedAt: int,
    issuer: string,
    audience: string,
    notBefore: int,
    introspectCount: int,
    revokedAt: int,
    revokedBy: string,
    orgId: Option<int>)

  datatype RefreshToken = RefreshToken(
    token: string,
    accessToken: string,
    clientId: string,
    userId: string,
    scope: string,
    expiresAt: int,
    revoked: bool,
    familyId: string,
    revokedAt: int,
    revokedBy: string,
    orgId: Option<int>)

  datatype Introspection = Introspection(
    active: bool,
    clientId: string,
    tokenType: string,
    exp: int,
    iat: int,
    nbf: int,
    sub: string,
    aud: string,
    iss: string,
    scope: string,
    orgId: Option<int>)

  const INACTIVE := Introspection(false, "", "Bearer", 0, 0, 0, "", "", "", "", None)

  /** The introspection answer for a live access token. */
  function OfAccess(t: AccessToken): Introspection
  {
    Introspection(true, t.clientId, "Bearer", t.expiresAt, t.issuedAt, t.notBefore,
                  t.userId, t.audience, t.issuer, t.scope, t.orgId)
  }

  /** The introspection answer for a live refresh token, which has no iat, nbf, iss or aud. */
  function OfRefresh(t: RefreshToken): Introspection
  {
    Introspection(true, t.clientId, "Bearer", t.expiresAt, 0, 0, t.userId, "", "", t.scope, t.orgId)
  }
}
