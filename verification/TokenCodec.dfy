/** What RedisCachedTokenRepository writes into Redis and how it reads it back.  JSON text is
    taken as the record it denotes. */
module TokenCodec {
  import opened Options
  import opened Tokens

  datatype Field =
    | FToken | FClientId | FUserId | FScope | FExpiresAt | FRevoked | FIssuedAt | FIssuer | FAudience
    | FNotBefore | FIntrospectCount | FRevokedAt | FRevokedBy
    | FActive | FTokenType | FExp | FIat | FNbf | FSub | FAud | FIss

  datatype Json = JString(text: string) | JInt(number: int) | JBool(flag: bool)

  type Payload = map<Field, Json>

  function Text(p: Payload, f: Field, default: string): string
  {
    if f in p && p[f].JString? then p[f].text else default
  }

  function Number(p: Payload, f: Field): int { if f in p && p[f].JInt? then p[f].number else 0 }

  function Flag(p: Payload, f: Field): bool { f in p && p[f].JBool? && p[f].flag }

  function SerializeAccess(t: AccessToken): (p: Payload)
  {
    map[FToken := JString(t.token), FClientId := JString(t.clientId), FUserId := JString(t.userId),
        FScope := JString(t.scope), FExpiresAt := JInt(t.expiresAt), FRevoked := JBool(t.revoked),
        FIssuedAt := JInt(t.issuedAt), FIssuer := JString(t.issuer), FAudience := JString(t.audience),
        FNotBefore := JInt(t.notBefore), FIntrospectCount := JInt(t.introspectCount),
        FRevokedAt := JInt(t.revokedAt), FRevokedBy := JString(t.revokedBy)]
  }

  function DeserializeAccess(p: Payload): (r: Option<AccessToken>)
  {
    if FToken !in p || FExpiresAt !in p then None
    else Some(AccessToken(
      Text(p, FToken, ""), Text(p, FClientId, ""), Text(p, FUserId, ""), Text(p, FScope, ""),
      Number(p, FExpiresAt), Flag(p, FRevoked), Number(p, FIssuedAt), Text(p, FIssuer, ""),
      Text(p, FAudience, ""), Number(p, FNotBefore), Number(p, FIntrospectCount),
      Number(p, FRevokedAt), Text(p, FRevokedBy, ""), None))
  }

  function SerializeIntrospection(t: Introspection): (p: Payload)
  {
    map[FActive := JBool(t.active), FClientId := JString(t.clientId), FTokenType := JString(t.tokenType),
        FExp := JInt(t.exp), FIat := JInt(t.iat), FNbf := JInt(t.nbf), FSub := JString(t.sub),
        FAud := JString(t.aud), FIss := JString(t.iss), FScope := JString(t.scope)]
  }

  function DeserializeIntrospection(p: Payload): (r: Option<Introspection>)
  {
    if FActive !in p then None
    else Some(Introspection(
      Flag(p, FActive), Text(p, FClientId, ""), Text(p, FTokenType, "Bearer"), Number(p, FExp),
      Number(p, FIat), Number(p, FNbf), Text(p, FSub, ""), Text(p, FAud, ""), Text(p, FIss, ""),
      Text(p, FScope, ""), None))
  }

  lemma AccessFields(t: AccessToken)
    ensures var p := SerializeAccess(t);
      && FToken in p && FExpiresAt in p
      && Text(p, FToken, "") == t.token && Text(p, FClientId, "") == t.clientId && Text(p, FUserId, "") == t.userId
      && Text(p, FScope, "") == t.scope && Number(p, FExpiresAt) == t.expiresAt && Flag(p, FRevoked) == t.revoked
  {
  }

  lemma MoreAccessFields(t: AccessToken)
    ensures var p := SerializeAccess(t);
      && Number(p, FIssuedAt) == t.issuedAt && Text(p, FIssuer, "") == t.issuer && Text(p, FAudience, "") == t.audience
      && Number(p, FNotBefore) == t.notBefore && Number(p, FIntrospectCount) == t.introspectCount
      && Number(p, FRevokedAt) == t.revokedAt && Text(p, FRevokedBy, "") == t.revokedBy
  {
  }

  /** A cached access token comes back with its thirteen serialised fields and no org binding:
      the trip is lossless exactly when there was none. */
  lemma AccessRoundTrip(t: AccessToken)
    ensures DeserializeAccess(SerializeAccess(t)) == Some(t.(orgId := None))
    ensures DeserializeAccess(SerializeAccess(t)) == Some(t) <==> t.orgId == None
  {
    AccessFields(t);
    MoreAccessFields(t);
    hide SerializeAccess, Text, Number, Flag;
  }

  lemma IntrospectionRoundTrip(t: Introspection)
    ensures DeserializeIntrospection(SerializeIntrospection(t)) == Some(t.(orgId := None))
    ensures DeserializeIntrospection(SerializeIntrospection(t)) == Some(t) <==> t.orgId == None
  {
    assert DeserializeIntrospection(SerializeIntrospection(t)).value.active == t.active;
  }

  // ---------- The EVAL round trip ----------

  datatype Reply = RArray(items: seq<Reply>) | RInteger(number: int) | RString(payload: Payload) | RNil

  datatype Lookup = Revoked | Value(payload: Payload) | Miss

  /** kRevokedThenGetScript: the marker first, the value only when there is no marker. */
  function RevokedThenGet(marker: bool, value: Option<Payload>): (r: Reply)
  {
    if marker then RArray([RInteger(1), RString(map[])])
    else if value.None? then RArray([RInteger(0)])
    else RArray([RInteger(0), RString(value.value)])
  }

  function Decode(r: Reply): (l: Lookup)
  {
    if !r.RArray? || r.items == [] || !r.items[0].RInteger? then Miss
    else if r.items[0].number > 0 then Revoked
    else if |r.items| > 1 && r.items[1].RString? then Value(r.items[1].payload)
    else Miss
  }

  lemma DecodeScript(marker: bool, value: Option<Payload>)
    ensures Decode(RevokedThenGet(marker, value)) == Revoked <==> marker
    ensures forall p :: Decode(RevokedThenGet(marker, value)) == Value(p) <==> !marker && value == Some(p)
    ensures Decode(RevokedThenGet(marker, value)) == Miss <==> !marker && value == None
  {
  }
}
