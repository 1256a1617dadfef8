/** What a token that nothing has disturbed answers, over whole runs: active exactly until it expires,
    with the fields it was issued with. */
module TokenLiveness {
  import opened Options
  import opened Tokens
  import opened TokenStore
  import opened TokenRuns

  // ---------- Runs, one event at a time ----------

  lemma RunMore(es: seq<Event>, from: int)
    requires es != [] && Timely(es, from)
    ensures var k := |es| - 1;
      && Run(EMPTY, es) == Apply(Run(EMPTY, es[..k]), es[k])
      && Timely(es[..k], from) && Last(es[..k], from) <= es[k].now && Last(es, from) == es[k].now
  {
    var k := |es| - 1;
    assert es == es[..k] + [es[k]] + [];
    SplitRun(es[..k], es[k], [], from);
    assert Run(Apply(Run(EMPTY, es[..k]), es[k]), []) == Apply(Run(EMPTY, es[..k]), es[k]);
  }

  lemma OpsMore(es: seq<Event>)
    requires es != []
    ensures Ops(es) == Ops(es[..|es| - 1]) + {es[|es| - 1].op}
  {
    var k := |es| - 1;
    assert forall i :: 0 <= i < k ==> es[..k][i] == es[i];
  }

  lemma FreshPrefix(es: seq<Event>, k: nat)
    requires FreshKeys(es) && k <= |es|
    ensures FreshKeys(es[..k])
  {
    assert forall i :: 0 <= i < k ==> es[..k][i] == es[i];
  }

  // ---------- Links ----------

  ghost predicate LinkFrom(ops: set<Op>, key: string, t: RefreshToken)
  {
    exists op :: op in ops && op.IssueRefresh? && op.refresh.token == key
                 && op.refresh.accessToken == t.accessToken && op.refresh.familyId == t.familyId
  }

  /** Every refresh row keeps the link and the family it was issued with. */
  ghost predicate LinksFrom(s: Store, ops: set<Op>) { forall k :: k in s.refresh ==> LinkFrom(ops, k, s.refresh[k]) }

  lemma LinkStep(s: Store, e: Event, k: string)
    ensures k in Apply(s, e).refresh ==>
      var t := Apply(s, e).refresh[k];
      (k in s.refresh && s.refresh[k].accessToken == t.accessToken && s.refresh[k].familyId == t.familyId)
      || (e.op.IssueRefresh? && e.op.refresh.token == k && e.op.refresh.accessToken == t.accessToken && e.op.refresh.familyId == t.familyId)
  {
    if e.op.KillFamily? {
      FamilyShape(s, e.op.family);
      hide RevokeFamily;
    }
  }

  lemma {:induction false} RunLinks(es: seq<Event>, from: int)
    requires Timely(es, from)
    ensures LinksFrom(Run(EMPTY, es), Ops(es))
  {
    if es != [] {
      var k := |es| - 1;
      RunMore(es, from);
      OpsMore(es);
      RunLinks(es[..k], from);
      var s, r := Run(EMPTY, es[..k]), Run(EMPTY, es);
      hide Apply, Run, Timely;
      forall key | key in r.refresh
        ensures LinkFrom(Ops(es), key, r.refresh[key])
      {
        LinkStep(s, es[k], key);
        if key in s.refresh { assert LinkFrom(Ops(es[..k]), key, s.refresh[key]); }
      }
    }
  }

  // ---------- Access tokens ----------

  /** The event leaves the access token `key` alone: it neither reissues nor revokes it, nor kills a
      family one of whose refresh tokens, issued so far, is linked to it. */
  ghost predicate SparesAccess(op: Op, key: string, issued: set<Op>)
  {
    && IssuedKey(op) != Some(key)
    && (op.RevokeToken? ==> op.key != key)
    && (op.KillFamily? ==>
          forall r :: r in issued && r.IssueRefresh? && r.refresh.accessToken == key ==> r.refresh.familyId != op.family)
  }

  function Uses(es: seq<Event>, i: nat, key: string): (n: nat)
  {
    if |es| <= i + 1 then 0
    else Uses(es[..|es| - 1], i, key) + if es[|es| - 1].op == CountUse(key) then 1 else 0
  }

  /** What is stored of an undisturbed access token. */
  ghost predicate Intact(s: Store, t: AccessToken, at: int, uses: nat, now: int)
  {
    && t.token !in s.refresh
    && (t.token !in s.access ==> t.expiresAt < now)
    && (t.token in s.access ==>
          s.access[t.token] == t.(
            issuedAt := if t.issuedAt == 0 then at else t.issuedAt,
            notBefore := if t.notBefore == 0 then at else t.notBefore,
            introspectCount := t.introspectCount + uses))
  }

  lemma IntactIssue(s: Store, e: Event)
    requires e.op.Issue? && e.op.access.token !in s.access && e.op.access.token !in s.refresh
    ensures Intact(Apply(s, e), e.op.access, e.now, 0, e.now)
  {
  }

  lemma IntactStep(s: Store, e: Event, t: AccessToken, at: int, uses: nat, now: int, issued: set<Op>)
    requires Intact(s, t, at, uses, now) && now <= e.now && LinksFrom(s, issued) && SparesAccess(e.op, t.token, issued)
    ensures Intact(Apply(s, e), t, at, uses + if e.op == CountUse(t.token) then 1 else 0, e.now)
  {
    if e.op.KillFamily? {
      FamilyShape(s, e.op.family);
      assert t.token !in LinkedAccess(s, e.op.family, s.refresh.Keys) by {
        forall k | k in s.refresh && s.refresh[k].familyId == e.op.family
          ensures s.refresh[k].accessToken != t.token
        {
          assert LinkFrom(issued, k, s.refresh[k]);
        }
      }
      hide RevokeFamily, LinkedAccess, LinksFrom;
    } else {
      hide LinksFrom;
    }
  }

  lemma {:induction false} IntactRun(es: seq<Event>, i: nat, from: int)
    requires FreshKeys(es) && Timely(es, from) && i < |es| && es[i].op.Issue?
    requires forall j :: i < j < |es| ==> SparesAccess(es[j].op, es[i].op.access.token, Ops(es[..j]))
    ensures Intact(Run(EMPTY, es), es[i].op.access, es[i].now, Uses(es, i, es[i].op.access.token), Last(es, from))
    decreases |es|
  {
    var k := |es| - 1;
    var t, init := es[i].op.access, es[..k];
    RunMore(es, from);
    if i == k {
      OnlyHere(es, i);
      Unissued(EMPTY, init, t.token);
      IntactIssue(Run(EMPTY, init), es[i]);
    } else {
      FreshPrefix(es, k);
      assert forall j :: 0 <= j < k ==> init[j] == es[j] && init[..j] == es[..j];
      IntactRun(init, i, from);
      RunLinks(init, from);
      hide Intact, Run, Apply, LinksFrom, SparesAccess, Timely, FreshKeys;
      IntactStep(Run(EMPTY, init), es[k], t, es[i].now, Uses(init, i, t.token), Last(init, from), Ops(init));
    }
  }

  /** An access token that was issued unrevoked and spared since is active exactly until it expires,
      and its introspection carries the row's fields; until then it is returned as issued, with its
      stamps and the uses counted since. */
  lemma UndisturbedAccess(es: seq<Event>, i: nat, from: int, now: int)
    requires FreshKeys(es) && Timely(es, from) && Last(es, from) <= now
    requires i < |es| && es[i].op.Issue? && !es[i].op.access.revoked
    requires forall j :: i < j < |es| ==> SparesAccess(es[j].op, es[i].op.access.token, Ops(es[..j]))
    ensures var t := es[i].op.access; var r := Introspect(Run(EMPTY, es), t.token, now);
      && (r.active <==> now <= t.expiresAt)
      && (r.active ==>
            && r.clientId == t.clientId && r.tokenType == "Bearer" && r.sub == t.userId && r.scope == t.scope
            && r.exp == t.expiresAt && r.iat == (if t.issuedAt == 0 then es[i].now else t.issuedAt)
            && r.nbf == (if t.notBefore == 0 then es[i].now else t.notBefore)
            && r.aud == t.audience && r.iss == t.issuer && r.orgId == t.orgId)
    ensures var t := es[i].op.access; var got := GetAccess(Run(EMPTY, es), t.token, now);
      && (got.Some? <==> now < t.expiresAt)
      && (got.Some? ==> got.value == t.(
            issuedAt := if t.issuedAt == 0 then es[i].now else t.issuedAt,
            notBefore := if t.notBefore == 0 then es[i].now else t.notBefore,
            introspectCount := t.introspectCount + Uses(es, i, t.token)))
  {
    IntactRun(es, i, from);
    hide Run, Timely, FreshKeys, SparesAccess, Uses;
  }

  // ---------- Refresh tokens ----------

  predicate SparesRefresh(op: Op, t: RefreshToken)
  {
    && IssuedKey(op) != Some(t.token)
    && op != Revoke(t.token) && op != Redeem(t.token)
    && (op.RevokeToken? ==> op.key != t.token)
    && op != KillFamily(t.familyId)
  }

  ghost predicate IntactRefresh(s: Store, t: RefreshToken, now: int)
  {
    && t.token !in s.access
    && (t.token in s.refresh ==> s.refresh[t.token] == t)
    && (t.token !in s.refresh ==> t.expiresAt < now)
  }

  lemma IntactRefreshStep(s: Store, e: Event, t: RefreshToken, now: int)
    requires IntactRefresh(s, t, now) && now <= e.now && SparesRefresh(e.op, t)
    ensures IntactRefresh(Apply(s, e), t, e.now)
  {
    if e.op.KillFamily? {
      FamilyShape(s, e.op.family);
      hide RevokeFamily;
    }
  }

  lemma {:induction false} IntactRefreshRun(es: seq<Event>, i: nat, from: int)
    requires FreshKeys(es) && Timely(es, from) && i < |es| && es[i].op.IssueRefresh?
    requires forall j :: i < j < |es| ==> SparesRefresh(es[j].op, es[i].op.refresh)
    ensures IntactRefresh(Run(EMPTY, es), es[i].op.refresh, Last(es, from))
    decreases |es|
  {
    var k := |es| - 1;
    var t, init := es[i].op.refresh, es[..k];
    RunMore(es, from);
    if i == k {
      OnlyHere(es, i);
      Unissued(EMPTY, init, t.token);
    } else {
      FreshPrefix(es, k);
      assert forall j :: 0 <= j < k ==> init[j] == es[j];
      IntactRefreshRun(init, i, from);
      hide IntactRefresh, Run, Apply, SparesRefresh, Timely, FreshKeys;
      IntactRefreshStep(Run(EMPTY, init), es[k], t, Last(init, from));
    }
  }

  /** A refresh token that was issued unrevoked and spared since is returned as issued and can be
      redeemed until it expires, and is active exactly until then. */
  lemma UndisturbedRefresh(es: seq<Event>, i: nat, from: int, now: int)
    requires FreshKeys(es) && Timely(es, from) && Last(es, from) <= now
    requires i < |es| && es[i].op.IssueRefresh? && !es[i].op.refresh.revoked
    requires forall j :: i < j < |es| ==> SparesRefresh(es[j].op, es[i].op.refresh)
    ensures var t := es[i].op.refresh; var s := Run(EMPTY, es); var r := Introspect(s, t.token, now);
      && GetRefresh(s, t.token, now) == (if now < t.expiresAt then Some(t) else None)
      && (now <= t.expiresAt ==> Redeemed(s, t.token) == Some(t.(revoked := true)))
      && (r.active <==> now <= t.expiresAt)
      && (r.active ==>
            && r.clientId == t.clientId && r.tokenType == "Bearer" && r.sub == t.userId && r.scope == t.scope
            && r.exp == t.expiresAt && r.orgId == t.orgId && r.iat == 0 && r.nbf == 0 && r.aud == "" && r.iss == "")
  {
    IntactRefreshRun(es, i, from);
    hide Run, Timely, FreshKeys, SparesRefresh;
  }

  // ---------- Purging ----------

  /** A purge removes exactly the rows whose expiry is past, and touches no other. */
  lemma PurgeIsExact(s: Store, now: int, key: string)
    ensures var r := Apply(s, Event(now, Sweep));
      && (key in r.access <==> key in s.access && s.access[key].expiresAt >= now)
      && (key in r.refresh <==> key in s.refresh && s.refresh[key].expiresAt >= now)
      && (key in r.access ==> r.access[key] == s.access[key])
      && (key in r.refresh ==> r.refresh[key] == s.refresh[key])
  {
  }
}
