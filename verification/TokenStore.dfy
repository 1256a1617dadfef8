/** MemoryTokenRepository: the token table as a sequential state machine. */
module TokenStore {
  import opened Options
  import opened Tokens

  datatype Store = Store(access: map<string, AccessToken>, refresh: map<string, RefreshToken>)

  const EMPTY := Store(map[], map[])

  // ---------- Queries ----------

  function GetAccess(s: Store, key: string, now: int): (r: Option<AccessToken>)
  {
    if key in s.access && s.access[key].expiresAt > now && !s.access[key].revoked then Some(s.access[key]) else None
  }

  function GetRefresh(s: Store, key: string, now: int): (r: Option<RefreshToken>)
  {
    if key in s.refresh && s.refresh[key].expiresAt > now && !s.refresh[key].revoked then Some(s.refresh[key]) else None
  }

  function Introspect(s: Store, key: string, now: int): (r: Introspection)
  {
    if key in s.access then
      var t := s.access[key];
      if t.revoked || t.expiresAt < now then INACTIVE else OfAccess(t)
    else if key in s.refresh then
      var t := s.refresh[key];
      if t.revoked || t.expiresAt < now then INACTIVE else OfRefresh(t)
    else INACTIVE
  }

  // ---------- Updates ----------

  function Stamped(t: AccessToken, now: int): (r: AccessToken)
  {
    t.(issuedAt := if t.issuedAt == 0 then now else t.issuedAt,
       notBefore := if t.notBefore == 0 then now else t.notBefore)
  }

  function SaveAccess(s: Store, t: AccessToken, now: int): Store
  {
    s.(access := s.access[t.token := Stamped(t, now)])
  }

  function SaveRefresh(s: Store, t: RefreshToken): Store { s.(refresh := s.refresh[t.token := t]) }

  function RevokeRefresh(s: Store, key: string): Store
  {
    if key in s.refresh then s.(refresh := s.refresh[key := s.refresh[key].(revoked := true)]) else s
  }

  /** The compare-and-swap: the token's value, once. */
  function Redeemed(s: Store, key: string): (r: Option<RefreshToken>)
  {
    if key in s.refresh && !s.refresh[key].revoked then Some(s.refresh[key].(revoked := true)) else None
  }

  function LinkedAccess(s: Store, family: string, keys: set<string>): (l: set<string>)
  {
    set k | k in keys && k in s.refresh && s.refresh[k].familyId == family :: s.refresh[k].accessToken
  }

  /** Revokes the family members among `keys` and their linked access tokens. */
  function RevokeMembers(s: Store, family: string, keys: set<string>): (r: Store)
  {
    var linked := LinkedAccess(s, family, keys);
    Store(
      map k | k in s.access :: if k in linked then s.access[k].(revoked := true) else s.access[k],
      map k | k in s.refresh ::
        if k in keys && s.refresh[k].familyId == family then s.refresh[k].(revoked := true) else s.refresh[k])
  }

  function RevokeFamily(s: Store, family: string): Store { RevokeMembers(s, family, s.refresh.Keys) }

  function RevokeAccess(s: Store, key: string, revokedBy: string, now: int): Store
  {
    Store(
      if key in s.access
      then s.access[key := s.access[key].(revoked := true, revokedAt := now, revokedBy := revokedBy)] else s.access,
      if key in s.refresh
      then s.refresh[key := s.refresh[key].(revoked := true, revokedAt := now, revokedBy := revokedBy)] else s.refresh)
  }

  function CountIntrospection(s: Store, key: string): Store
  {
    if key in s.access
    then s.(access := s.access[key := s.access[key].(introspectCount := s.access[key].introspectCount + 1)]) else s
  }

  function Purge(s: Store, now: int): (r: Store)
  {
    Store(map k | k in s.access && !(s.access[k].expiresAt < now) :: s.access[k],
          map k | k in s.refresh && !(s.refresh[k].expiresAt < now) :: s.refresh[k])
  }

  // ---------- The repository ----------

  class MemoryTokenRepository {
    var accessTokens: map<string, AccessToken>
    var refreshTokens: map<string, RefreshToken>

    function State(): Store
      reads this
    {
      Store(accessTokens, refreshTokens)
    }

    constructor ()
      ensures State() == EMPTY
    {
      accessTokens, refreshTokens := map[], map[];
    }

    method SaveAccessToken(token: AccessToken, now: int)
      modifies this
      ensures State() == SaveAccess(old(State()), token, now)
    {
      var stamped := token;
      if stamped.issuedAt == 0 { stamped := stamped.(issuedAt := now); }
      if stamped.notBefore == 0 { stamped := stamped.(notBefore := now); }
      accessTokens := accessTokens[stamped.token := stamped];
    }

    method GetAccessToken(token: string, now: int) returns (r: Option<AccessToken>)
      ensures r == GetAccess(State(), token, now)
    {
      if token in accessTokens {
        if accessTokens[token].expiresAt > now && !accessTokens[token].revoked {
          return Some(accessTokens[token]);
        }
      }
      return None;
    }

    method SaveRefreshToken(token: RefreshToken)
      modifies this
      ensures State() == SaveRefresh(old(State()), token)
    {
      refreshTokens := refreshTokens[token.token := token];
    }

    method GetRefreshToken(token: string, now: int) returns (r: Option<RefreshToken>)
      ensures r == GetRefresh(State(), token, now)
    {
      if token in refreshTokens {
        if refreshTokens[token].expiresAt > now && !refreshTokens[token].revoked {
          return Some(refreshTokens[token]);
        }
      }
      return None;
    }

    method RevokeRefreshToken(token: string)
      modifies this
      ensures State() == RevokeRefresh(old(State()), token)
    {
      if token in refreshTokens {
        refreshTokens := refreshTokens[token := refreshTokens[token].(revoked := true)];
      }
    }

    method IncrementIntrospectCount(token: string)
      modifies this
      ensures State() == CountIntrospection(old(State()), token)
    {
      if token in accessTokens {
        var t := accessTokens[token];
        accessTokens := accessTokens[token := t.(introspectCount := t.introspectCount + 1)];
      }
    }

    method AtomicRevokeRefreshToken(token: string) returns (r: Option<RefreshToken>)
      modifies this
      ensures r == Redeemed(old(State()), token)
      ensures State() == RevokeRefresh(old(State()), token)
    {
      if token !in refreshTokens {
        return None;
      }
      if refreshTokens[token].revoked {
        assert refreshTokens[token := refreshTokens[token].(revoked := true)] == refreshTokens;
        return None;
      }
      refreshTokens := refreshTokens[token := refreshTokens[token].(revoked := true)];
      return Some(refreshTokens[token]);
    }

    method RevokeTokenFamily(familyId: string)
      modifies this
      ensures State() == RevokeFamily(old(State()), familyId)
      ensures forall k :: k in old(refreshTokens) && old(refreshTokens)[k].familyId != familyId ==>
                            k in refreshTokens && refreshTokens[k] == old(refreshTokens)[k]
    {
      ghost var start := State();
      var todo := refreshTokens.Keys;
      NoMembers(start, familyId);
      while todo != {}
        invariant todo <= start.refresh.Keys
        invariant State() == RevokeMembers(start, familyId, start.refresh.Keys - todo)
      {
        var k :| k in todo;
        ghost var done := start.refresh.Keys - todo;
        if refreshTokens[k].familyId == familyId {
          refreshTokens := refreshTokens[k := refreshTokens[k].(revoked := true)];
          var linked := refreshTokens[k].accessToken;
          if linked in accessTokens {
            accessTokens := accessTokens[linked := accessTokens[linked].(revoked := true)];
          }
        }
        OneMoreMember(start, familyId, done, k);
        assert start.refresh.Keys - (todo - {k}) == done + {k};
        todo := todo - {k};
      }
      assert start.refresh.Keys - {} == start.refresh.Keys;
    }

    method IntrospectToken(token: string, now: int) returns (r: Introspection)
      ensures r == Introspect(State(), token, now)
    {
      if token in accessTokens {
        var t := accessTokens[token];
        if t.revoked || t.expiresAt < now {
          return INACTIVE;
        }
        return OfAccess(t);
      }
      if token in refreshTokens {
        var t := refreshTokens[token];
        if t.revoked || t.expiresAt < now {
          return INACTIVE;
        }
        return OfRefresh(t);
      }
      return INACTIVE;
    }

    method RevokeAccessToken(token: string, revokedBy: string, now: int)
      modifies this
      ensures State() == RevokeAccess(old(State()), token, revokedBy, now)
      ensures token in accessTokens ==> var t := accessTokens[token]; t.revoked && t.revokedAt == now && t.revokedBy == revokedBy
      ensures token in refreshTokens ==> var t := refreshTokens[token]; t.revoked && t.revokedAt == now && t.revokedBy == revokedBy
    {
      if token in accessTokens {
        accessTokens := accessTokens[
          token := accessTokens[token].(revoked := true, revokedAt := now, revokedBy := revokedBy)];
      }
      if token in refreshTokens {
        refreshTokens := refreshTokens[
          token := refreshTokens[token].(revoked := true, revokedAt := now, revokedBy := revokedBy)];
      }
    }

    method PurgeExpired(now: int)
      modifies this
      ensures State() == Purge(old(State()), now)
    {
      SweepAccess(now);
      SweepRefresh(now);
    }

    method SweepAccess(now: int)
      modifies this
      ensures accessTokens == Purge(old(State()), now).access && refreshTokens == old(refreshTokens)
    {
      ghost var start := accessTokens;
      var todo := accessTokens.Keys;
      while todo != {}
        invariant todo <= start.Keys && refreshTokens == old(refreshTokens)
        invariant accessTokens == map k | k in start && (k in todo || !(start[k].expiresAt < now)) :: start[k]
      {
        var k :| k in todo;
        if accessTokens[k].expiresAt < now {
          accessTokens := accessTokens - {k};
        }
        todo := todo - {k};
      }
    }

    method SweepRefresh(now: int)
      modifies this
      ensures refreshTokens == Purge(old(State()), now).refresh && accessTokens == old(accessTokens)
    {
      ghost var start := refreshTokens;
      var todo := refreshTokens.Keys;
      while todo != {}
        invariant todo <= start.Keys && accessTokens == old(accessTokens)
        invariant refreshTokens == map k | k in start && (k in todo || !(start[k].expiresAt < now)) :: start[k]
      {
        var k :| k in todo;
        if refreshTokens[k].expiresAt < now {
          refreshTokens := refreshTokens - {k};
        }
        todo := todo - {k};
      }
    }
  }

  lemma NoMembers(s: Store, family: string)
    ensures RevokeMembers(s, family, s.refresh.Keys - s.refresh.Keys) == s
  {
  }

  lemma OneMoreMember(s: Store, family: string, done: set<string>, k: string)
    requires k in s.refresh && k !in done
    ensures var before, after := RevokeMembers(s, family, done), RevokeMembers(s, family, done + {k});
      var t := s.refresh[k];
      && before.refresh[k] == t
      && after.refresh == (if t.familyId == family then before.refresh[k := t.(revoked := true)] else before.refresh)
      && after.access == (if t.familyId == family && t.accessToken in before.access
                          then before.access[t.accessToken := before.access[t.accessToken].(revoked := true)]
                          else before.access)
  {
    var t := s.refresh[k];
    var linked, more := LinkedAccess(s, family, done), LinkedAccess(s, family, done + {k});
    assert t.familyId == family ==> more == linked + {t.accessToken};
    assert t.familyId != family ==> more == linked;
  }
}
