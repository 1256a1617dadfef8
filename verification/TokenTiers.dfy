/** The two repositories behind the cache: where PostgresTokenRepository's revocations differ from
    the memory store's. */
module TokenTiers {
  import opened Options
  import opened Tokens
  import opened TokenStore
  import opened TokenRuns

  /** The memory store hides revoked and expired rows; Postgres returns the row it finds. */
  datatype Backend = Memory | Postgres

  /** The statements of one revocation that the database refuses: the access lookup, the audited
      update, the plain one, the refresh lookup, the refresh update, the family's access update. */
  datatype Refusals = Refusals(find: bool, audit: bool, plain: bool, findRefresh: bool, refresh: bool, familyAccess: bool)

  const NONE_REFUSED := Refusals(false, false, false, false, false, false)

  // ---------- Closed forms ----------

  function RefreshRevoked(s: Store, keys: set<string>): (r: Store)
  {
    s.(refresh := map k | k in s.refresh :: if k in keys then s.refresh[k].(revoked := true) else s.refresh[k])
  }

  function AccessRevoked(s: Store, keys: set<string>): (r: Store)
  {
    s.(access := map k | k in s.access :: if k in keys then s.access[k].(revoked := true) else s.access[k])
  }

  function Members(s: Store, family: string): (keys: set<string>)
  {
    set k | k in s.refresh && s.refresh[k].familyId == family
  }

  /** revokeTokenFamily: nothing for an empty id, else two UPDATEs, the second selecting the linked
      access tokens from the table the first has changed. */
  function PostgresRevokeFamily(s: Store, family: string, no: Refusals): (r: Store)
  {
    if family == "" || no.refresh then s
    else
      var first := RefreshRevoked(s, Members(s, family));
      if no.familyAccess then first else AccessRevoked(first, LinkedAccess(first, family, first.refresh.Keys))
  }

  /** The refresh tokens paired with an access token. */
  function Paired(s: Store, key: string): (keys: set<string>)
  {
    set k | k in s.refresh && s.refresh[k].accessToken == key
  }

  /** What revoking the access token `key` reaches besides its own row: the one paired refresh token,
      and on the audited path its family. A lookup that finds none or several rows is an error. */
  function Reached(s: Store, key: string, no: Refusals): (keys: set<string>)
  {
    if no.findRefresh || no.refresh || |Paired(s, key)| != 1 then {}
    else
      var pair := Paired(s, key);
      set k | k in s.refresh && (k in pair ||
        (!no.audit && s.refresh[k].familyId != "" && s.refresh[k].familyId in (set p | p in pair :: s.refresh[p].familyId)))
  }

  /** The row is found and one of the two updates goes through. */
  predicate Takes(s: Store, key: string, no: Refusals)
  {
    key in s.access && !no.find && !(no.audit && no.plain)
  }

  /** What follows once the row of `key` is marked. */
  function Cascade(s: Store, key: string, no: Refusals): (r: Store)
  {
    var reached := Reached(s, key, no);
    var dead := RefreshRevoked(s, reached);
    if no.familyAccess then dead
    else AccessRevoked(dead, set k | k in reached && k in s.refresh :: s.refresh[k].accessToken)
  }

  function PostgresRevokeAccess(s: Store, key: string, revokedBy: string, now: int, no: Refusals): (r: Store)
  {
    if !Takes(s, key, no) then s
    else
      var row := if no.audit then s.access[key].(revoked := true)
                 else s.access[key].(revoked := true, revokedAt := now, revokedBy := revokedBy);
      Cascade(s.(access := s.access[key := row]), key, no)
  }

  /** One call on the wrapped repository. */
  function ApplyOn(b: Backend, s: Store, e: Event, no: Refusals): (r: Store)
  {
    match b
    case Memory => Apply(s, e)
    case Postgres =>
      (match e.op
       case RevokeToken(key, revokedBy) => PostgresRevokeAccess(s, key, revokedBy, e.now, no)
       case KillFamily(family) => PostgresRevokeFamily(s, family, no)
       case _ => Apply(s, e))
  }

  // ---------- The repository, statement by statement ----------

  class PostgresTokenRepository {
    var accessRows: map<string, AccessToken>
    var refreshRows: map<string, RefreshToken>

    function Value(): Store
      reads this
    {
      Store(accessRows, refreshRows)
    }

    constructor (s: Store)
      ensures Value() == s
    {
      accessRows, refreshRows := s.access, s.refresh;
    }

    /** An UPDATE ... SET revoked = true on the refresh rows named. */
    method MarkRefresh(keys: set<string>)
      modifies this
      ensures Value() == RefreshRevoked(old(Value()), keys) && accessRows == old(accessRows)
    {
      refreshRows := map k | k in refreshRows :: if k in keys then refreshRows[k].(revoked := true) else refreshRows[k];
    }

    method MarkAccess(keys: set<string>)
      modifies this
      ensures Value() == AccessRevoked(old(Value()), keys)
    {
      accessRows := map k | k in accessRows :: if k in keys then accessRows[k].(revoked := true) else accessRows[k];
    }

    method RevokeTokenFamily(familyId: string, no: Refusals)
      modifies this
      ensures Value() == PostgresRevokeFamily(old(Value()), familyId, no)
      ensures forall k :: k in old(refreshRows) && old(refreshRows)[k].familyId != familyId ==>
                k in refreshRows && refreshRows[k] == old(refreshRows)[k]
      ensures forall k :: k in old(accessRows) ==>
        && k in accessRows
        && accessRows[k].revokedAt == old(accessRows)[k].revokedAt && accessRows[k].revokedBy == old(accessRows)[k].revokedBy
    {
      if familyId == "" || no.refresh { return; }
      MarkRefresh(Members(Value(), familyId));
      if no.familyAccess { return; }
      MarkAccess(LinkedAccess(Value(), familyId, refreshRows.Keys));
    }

    method RevokeAccessToken(token: string, revokedBy: string, now: int, no: Refusals)
      modifies this
      ensures Value() == PostgresRevokeAccess(old(Value()), token, revokedBy, now, no)
      ensures token in accessRows && accessRows[token].revoked <==>
                token in old(accessRows) && (old(accessRows)[token].revoked || Takes(old(Value()), token, no))
      ensures token !in old(accessRows) ==> Value() == old(Value())
      ensures token in old(accessRows) && !no.find && !no.audit ==>
        accessRows[token].revokedAt == now && accessRows[token].revokedBy == revokedBy
    {
      if no.find || token !in accessRows { return; }
      if !no.audit {
        accessRows := accessRows[token := accessRows[token].(revoked := true, revokedAt := now, revokedBy := revokedBy)];
      } else {
        if no.plain { return; }
        accessRows := accessRows[token := accessRows[token].(revoked := true)];
      }
      RevokePaired(token, no);
    }

    /** The cascade after the row is marked, by way of the one paired refresh token. */
    method RevokePaired(token: string, no: Refusals)
      requires token in accessRows && accessRows[token].revoked
      modifies this
      ensures Value() == Cascade(old(Value()), token, no)
      ensures token in accessRows && accessRows[token].revoked
      ensures accessRows[token].revokedAt == old(accessRows)[token].revokedAt && accessRows[token].revokedBy == old(accessRows)[token].revokedBy
    {
      hide RefreshRevoked, AccessRevoked, Reached, Cascade, PostgresRevokeFamily;
      ghost var start := Value();
      NothingReached(start, token, no);
      var pair := Paired(Value(), token);
      KeepsDead(start, token, no);
      if no.findRefresh || |pair| != 1 { return; }
      var rt :| rt in pair;
      OnlyPair(start, token, rt);
      if !no.audit && refreshRows[rt].familyId != "" {
        FamilyReached(start, token, rt, no);
        RevokeTokenFamily(refreshRows[rt].familyId, no);
      } else if !no.refresh {
        PairReached(start, token, rt, no);
        MarkRefresh({rt});
      }
    }
  }

  lemma NothingReached(s: Store, key: string, no: Refusals)
    requires key in s.access && s.access[key].revoked
    ensures no.findRefresh || |Paired(s, key)| != 1 || no.refresh ==> Cascade(s, key, no) == s
  {
    if Reached(s, key, no) == {} { NobodyRevoked(s); }
  }

  lemma NobodyRevoked(s: Store)
    ensures RefreshRevoked(s, {}) == s && AccessRevoked(s, {}) == s
  {
  }

  /** Nothing a revocation does brings a row back. */
  lemma KeepsDead(s: Store, key: string, no: Refusals)
    requires key in s.access && s.access[key].revoked
    ensures var r := Cascade(s, key, no); key in r.access && r.access[key].revoked
  {
    hide Reached;
  }

  lemma OnlyPair(s: Store, key: string, rt: string)
    requires |Paired(s, key)| == 1 && rt in Paired(s, key)
    ensures Paired(s, key) == {rt}
  {
    assert |Paired(s, key) - {rt}| == 0;
  }

  lemma FamilyReached(s: Store, key: string, rt: string, no: Refusals)
    requires Paired(s, key) == {rt} && rt in s.refresh
    requires !no.audit && !no.findRefresh && s.refresh[rt].familyId != ""
    ensures PostgresRevokeFamily(s, s.refresh[rt].familyId, no) == Cascade(s, key, no)
  {
    var family := s.refresh[rt].familyId;
    if no.refresh {
      NobodyRevoked(s);
    } else {
      var pair := Paired(s, key);
      assert (set p | p in pair :: s.refresh[p].familyId) == {family} by { assert rt in pair; }
      assert Reached(s, key, no) == Members(s, family);
      var first := RefreshRevoked(s, Members(s, family));
      LinkedSame(s, first, family);
    }
  }

  lemma LinkedSame(s: Store, first: Store, family: string)
    requires first == RefreshRevoked(s, Members(s, family))
    ensures LinkedAccess(first, family, first.refresh.Keys)
         == set k | k in Members(s, family) && k in s.refresh :: s.refresh[k].accessToken
  {
    assert first.refresh.Keys == s.refresh.Keys;
    assert forall k :: k in s.refresh ==>
      first.refresh[k].familyId == s.refresh[k].familyId && first.refresh[k].accessToken == s.refresh[k].accessToken;
  }

  lemma PairReached(s: Store, key: string, rt: string, no: Refusals)
    requires key in s.access && s.access[key].revoked && Paired(s, key) == {rt} && rt in s.refresh
    requires (no.audit || s.refresh[rt].familyId == "") && !no.findRefresh && !no.refresh
    ensures RefreshRevoked(s, {rt}) == Cascade(s, key, no)
  {
    var pair := Paired(s, key);
    assert rt in pair;
    assert Reached(s, key, no) == {rt};
    assert (set k | k in {rt} && k in s.refresh :: s.refresh[k].accessToken) == {key};
    var dead := RefreshRevoked(s, {rt});
    assert AccessRevoked(dead, {key}) == dead;
  }

  // ---------- What both tiers keep ----------

  /** Rows stay, keep everything but their revocation marks, and are never un-revoked. */
  ghost predicate OnlyRevokes(s: Store, r: Store)
  {
    && r.access.Keys == s.access.Keys && r.refresh.Keys == s.refresh.Keys
    && (forall k :: k in s.access ==>
          var a, b := s.access[k], r.access[k];
          (a.revoked ==> b.revoked) && b == a.(revoked := b.revoked, revokedAt := b.revokedAt, revokedBy := b.revokedBy))
    && (forall k :: k in s.refresh ==>
          var a, b := s.refresh[k], r.refresh[k];
          (a.revoked ==> b.revoked) && b == a.(revoked := b.revoked, revokedAt := b.revokedAt, revokedBy := b.revokedBy))
  }

  lemma MarkingOnlyRevokes(s: Store, keys: set<string>)
    ensures OnlyRevokes(s, RefreshRevoked(s, keys)) && OnlyRevokes(s, AccessRevoked(s, keys))
  {
  }

  lemma RevokesTwice(s: Store, t: Store, r: Store)
    requires OnlyRevokes(s, t) && OnlyRevokes(t, r)
    ensures OnlyRevokes(s, r)
  {
  }

  lemma CascadeOnlyRevokes(s: Store, key: string, no: Refusals)
    ensures OnlyRevokes(s, Cascade(s, key, no))
  {
    hide RefreshRevoked, AccessRevoked, Reached, OnlyRevokes;
    var reached := Reached(s, key, no);
    var dead := RefreshRevoked(s, reached);
    MarkingOnlyRevokes(s, reached);
    MarkingOnlyRevokes(dead, set k | k in reached && k in s.refresh :: s.refresh[k].accessToken);
    RevokesTwice(s, dead, Cascade(s, key, no));
  }

  lemma RevokeAccessOnlyRevokes(s: Store, key: string, revokedBy: string, now: int, no: Refusals)
    ensures OnlyRevokes(s, PostgresRevokeAccess(s, key, revokedBy, now, no))
  {
    hide Cascade;
    NothingRevoked(s);
    if Takes(s, key, no) {
      var row := if no.audit then s.access[key].(revoked := true)
                 else s.access[key].(revoked := true, revokedAt := now, revokedBy := revokedBy);
      var marked := s.(access := s.access[key := row]);
      assert OnlyRevokes(s, marked);
      hide OnlyRevokes;
      CascadeOnlyRevokes(marked, key, no);
      RevokesTwice(s, marked, Cascade(marked, key, no));
    }
  }

  lemma RevokeFamilyOnlyRevokes(s: Store, family: string, no: Refusals)
    ensures OnlyRevokes(s, PostgresRevokeFamily(s, family, no))
  {
    hide OnlyRevokes, RefreshRevoked, AccessRevoked, LinkedAccess, Members;
    var members := Members(s, family);
    MarkingOnlyRevokes(s, members);
    var first := RefreshRevoked(s, members);
    MarkingOnlyRevokes(first, LinkedAccess(first, family, first.refresh.Keys));
    RevokesTwice(s, first, AccessRevoked(first, LinkedAccess(first, family, first.refresh.Keys)));
    NothingRevoked(s);
  }

  lemma NothingRevoked(s: Store)
    ensures OnlyRevokes(s, s)
  {
  }

  // ---------- Where the tiers differ ----------

  /** With no statement refused, the tiers revoke a family alike exactly when the id is not empty, or
      an empty id names nothing that is still alive. */
  lemma TiersRevokeAlike(s: Store, family: string)
    ensures PostgresRevokeFamily(s, family, NONE_REFUSED) == RevokeFamily(s, family) <==>
      family != "" || forall k :: k in s.refresh && s.refresh[k].familyId == "" ==>
        && s.refresh[k].revoked
        && (s.refresh[k].accessToken in s.access ==> s.access[s.refresh[k].accessToken].revoked)
  {
    if family != "" {
      var first := RefreshRevoked(s, Members(s, family));
      assert LinkedAccess(first, family, first.refresh.Keys) == LinkedAccess(s, family, s.refresh.Keys) by {
        LinkedSame(s, first, family);
      }
    } else {
      var f := RevokeFamily(s, "");
      if f == s {
        forall k | k in s.refresh && s.refresh[k].familyId == ""
          ensures s.refresh[k].revoked
          ensures s.refresh[k].accessToken in s.access ==> s.access[s.refresh[k].accessToken].revoked
        {
          assert f.refresh[k].revoked;
          assert s.refresh[k].accessToken in LinkedAccess(s, "", s.refresh.Keys);
        }
      }
    }
  }

  /** An input on which they differ: a live refresh token issued without a family. */
  lemma EmptyFamilyExample(r: RefreshToken, now: int)
    requires r.familyId == "" && !r.revoked
    ensures var s := Run(EMPTY, [Event(now, IssueRefresh(r))]);
      && Redeemed(RevokeFamily(s, ""), r.token) == None
      && Redeemed(PostgresRevokeFamily(s, "", NONE_REFUSED), r.token) == Some(r.(revoked := true))
  {
    var e := Event(now, IssueRefresh(r));
    assert Run(EMPTY, [e]) == Run(Apply(EMPTY, e), []);
    assert Apply(EMPTY, e).refresh == map[r.token := r];
  }

  /** With no statement refused, the tiers revoke an access token alike exactly when everything the
      Postgres cascade reaches is revoked already, and no refresh row is stored under the same key
      unless it already carries this very revocation. */
  lemma TiersRevokeTokenAlike(s: Store, key: string, revokedBy: string, now: int)
    ensures PostgresRevokeAccess(s, key, revokedBy, now, NONE_REFUSED) == RevokeAccess(s, key, revokedBy, now) <==>
      var reached := if key in s.access then Reached(s, key, NONE_REFUSED) else {};
      && (key in s.refresh ==> var t := s.refresh[key];
            t.revokedAt == now && t.revokedBy == revokedBy && (t.revoked || key in reached))
      && (forall k :: k in reached && k != key ==> s.refresh[k].revoked)
      && (forall k :: k in reached && s.refresh[k].accessToken in s.access && s.refresh[k].accessToken != key ==>
            s.access[s.refresh[k].accessToken].revoked)
  {
    var pg, mem := PostgresRevokeAccess(s, key, revokedBy, now, NONE_REFUSED), RevokeAccess(s, key, revokedBy, now);
    var reached := if key in s.access then Reached(s, key, NONE_REFUSED) else {};
    if key in s.access {
      var marked := s.(access := mem.access);
      assert Reached(marked, key, NONE_REFUSED) == reached by { assert Paired(marked, key) == Paired(s, key); }
      hide Reached;
      var links := set k | k in reached && k in s.refresh :: s.refresh[k].accessToken;
      assert pg == Cascade(marked, key, NONE_REFUSED);
      CascadeRows(marked, key, reached, links);
      hide Cascade, PostgresRevokeAccess;
      SameAccess(marked, pg, key, reached, links);
      SameRefresh(s, pg, mem, key, revokedBy, now, reached);
    } else {
      assert pg == s;
      hide PostgresRevokeAccess;
      SameRefresh(s, pg, mem, key, revokedBy, now, {});
    }
  }

  lemma CascadeRows(s: Store, key: string, reached: set<string>, links: set<string>)
    requires reached == Reached(s, key, NONE_REFUSED)
    requires links == set k | k in reached && k in s.refresh :: s.refresh[k].accessToken
    ensures var r := Cascade(s, key, NONE_REFUSED);
      && r.access == AccessRevoked(s, links).access
      && r.refresh == RefreshRevoked(s, reached).refresh
  {
    hide Reached;
  }

  lemma SameAccess(s: Store, pg: Store, key: string, reached: set<string>, links: set<string>)
    requires key in s.access && s.access[key].revoked && reached <= s.refresh.Keys
    requires links == set k | k in reached && k in s.refresh :: s.refresh[k].accessToken
    requires pg.access == AccessRevoked(s, links).access
    ensures pg.access == s.access <==>
      forall k :: k in reached && s.refresh[k].accessToken in s.access && s.refresh[k].accessToken != key ==>
        s.access[s.refresh[k].accessToken].revoked
  {
    if pg.access == s.access {
      forall k | k in reached && s.refresh[k].accessToken in s.access
        ensures s.access[s.refresh[k].accessToken].revoked
      {
        assert s.refresh[k].accessToken in links;
        assert pg.access[s.refresh[k].accessToken].revoked;
      }
    }
  }

  lemma SameRefresh(s: Store, pg: Store, mem: Store, key: string, revokedBy: string, now: int, reached: set<string>)
    requires reached <= s.refresh.Keys && pg.refresh == RefreshRevoked(s, reached).refresh
    requires mem == RevokeAccess(s, key, revokedBy, now)
    ensures pg.refresh == mem.refresh <==>
      && (key in s.refresh ==> var t := s.refresh[key];
            t.revokedAt == now && t.revokedBy == revokedBy && (t.revoked || key in reached))
      && (forall k :: k in reached && k != key ==> s.refresh[k].revoked)
  {
    if pg.refresh == mem.refresh {
      forall k | k in reached && k != key
        ensures s.refresh[k].revoked
      {
        assert pg.refresh[k].revoked && mem.refresh[k] == s.refresh[k];
      }
      if key in s.refresh { assert pg.refresh[key] == mem.refresh[key]; }
    }
  }

  /** The difference that matters to a caller: after an access token is revoked, the refresh token
      paired with it can still be redeemed in memory, and cannot in Postgres. */
  lemma PairedRefreshAfterRevoke(s: Store, key: string, rt: string, revokedBy: string, now: int)
    requires key in s.access && Paired(s, key) == {rt} && rt in s.refresh && rt != key
    ensures Redeemed(RevokeAccess(s, key, revokedBy, now), rt) == Redeemed(s, rt)
    ensures Redeemed(PostgresRevokeAccess(s, key, revokedBy, now, NONE_REFUSED), rt) == None
  {
    var marked := s.(access := RevokeAccess(s, key, revokedBy, now).access);
    assert Paired(marked, key) == Paired(s, key);
    assert rt in Paired(s, key);
    assert rt in Reached(marked, key, NONE_REFUSED);
    hide Reached;
  }

  /** And the other way round: a key held only as a refresh token is revoked by the memory store and
      left alone by Postgres, whatever is refused. */
  lemma RefreshKeyIsLeft(s: Store, rt: string, revokedBy: string, now: int, no: Refusals)
    requires rt in s.refresh && !s.refresh[rt].revoked && rt !in s.access
    ensures Redeemed(RevokeAccess(s, rt, revokedBy, now), rt) == None
    ensures PostgresRevokeAccess(s, rt, revokedBy, now, no) == s && Redeemed(s, rt).Some?
  {
  }
}
