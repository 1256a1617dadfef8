/** Whole runs of the token store: purging is invisible, refresh tokens are redeemed at most
    once, and a revoked family stays dead. */
module TokenRuns {
  import opened Options
  import opened Tokens
  import opened TokenStore

  datatype Op =
    | Issue(access: AccessToken)
    | IssueRefresh(refresh: RefreshToken)
    | Revoke(key: string)
    | Redeem(key: string)
    | KillFamily(family: string)
    | RevokeToken(key: string, revokedBy: string)
    | CountUse(key: string)
    | Sweep

  /** One call on the repository, at the clock reading it sees. */
  datatype Event = Event(now: int, op: Op)

  function Apply(s: Store, e: Event): (r: Store)
  {
    match e.op
    case Issue(t) => SaveAccess(s, t, e.now)
    case IssueRefresh(t) => SaveRefresh(s, t)
    case Revoke(key) => RevokeRefresh(s, key)
    case Redeem(key) => RevokeRefresh(s, key)
    case KillFamily(family) => RevokeFamily(s, family)
    case RevokeToken(key, revokedBy) => RevokeAccess(s, key, revokedBy, e.now)
    case CountUse(key) => CountIntrospection(s, key)
    case Sweep => Purge(s, e.now)
  }

  function Run(s: Store, es: seq<Event>): (r: Store)
    decreases |es|
  {
    if es == [] then s else Run(Apply(s, es[0]), es[1..])
  }

  /** The clock starts no earlier than `from` and never goes back. */
  predicate Timely(es: seq<Event>, from: int)
  {
    es == [] || (from <= es[0].now && Timely(es[1..], es[0].now))
  }

  function Last(es: seq<Event>, from: int): int
  {
    if es == [] then from else es[|es| - 1].now
  }

  function WithoutSweeps(es: seq<Event>): (r: seq<Event>)
  {
    if es == [] then []
    else if es[0].op.Sweep? then WithoutSweeps(es[1..])
    else [es[0]] + WithoutSweeps(es[1..])
  }

  function Ops(es: seq<Event>): (ops: set<Op>) { set i | 0 <= i < |es| :: es[i].op }

  /** No key is both an access and a refresh token, and every refresh token expires no earlier
      than the access token it is linked to. */
  ghost predicate Coherent(ops: set<Op>)
  {
    forall a, r :: a in ops && r in ops && a.Issue? && r.IssueRefresh? ==>
      && a.access.token != r.refresh.token
      && (r.refresh.accessToken == a.access.token ==> a.access.expiresAt <= r.refresh.expiresAt)
  }

  // ---------- Purging is invisible ----------

  ghost predicate AccessFrom(ops: set<Op>, k: string, t: AccessToken)
  {
    exists op :: op in ops && op.Issue? && op.access.token == k && op.access.expiresAt == t.expiresAt
  }

  ghost predicate RefreshFrom(ops: set<Op>, k: string, t: RefreshToken)
  {
    exists op :: op in ops && op.IssueRefresh? && op.refresh.token == k
                 && op.refresh.expiresAt == t.expiresAt && op.refresh.accessToken == t.accessToken
  }

  /** Everything stored was issued by one of `ops`. */
  ghost predicate IssuedBy(s: Store, ops: set<Op>)
  {
    && (forall k :: k in s.access ==> AccessFrom(ops, k, s.access[k]))
    && (forall k :: k in s.refresh ==> RefreshFrom(ops, k, s.refresh[k]))
  }

  /** `a` is `b` with some expired entries swept away; an expired access entry that survives may
      have missed a family revocation. */
  ghost predicate Swept(a: Store, b: Store, now: int) { SweptRefresh(a, b, now) && SweptAccess(a, b, now) }

  ghost predicate SweptRefresh(a: Store, b: Store, now: int)
  {
    && (forall k :: k in a.refresh ==> k in b.refresh && a.refresh[k] == b.refresh[k])
    && (forall k :: k in b.refresh && b.refresh[k].expiresAt >= now ==> k in a.refresh)
  }

  ghost predicate SweptAccess(a: Store, b: Store, now: int)
  {
    && (forall k :: k in a.access ==> k in b.access && a.access[k].expiresAt == b.access[k].expiresAt)
    && (forall k :: k in a.access && b.access[k].expiresAt >= now ==> a.access[k] == b.access[k])
    && (forall k :: k in b.access && b.access[k].expiresAt >= now ==> k in a.access)
  }

  lemma LinkExpiry(s: Store, ops: set<Op>, r: string)
    requires IssuedBy(s, ops) && Coherent(ops) && r in s.refresh
    ensures s.refresh[r].accessToken in s.access ==>
              s.access[s.refresh[r].accessToken].expiresAt <= s.refresh[r].expiresAt
  {
    var k := s.refresh[r].accessToken;
    assert RefreshFrom(ops, r, s.refresh[r]);
    if k in s.access { assert AccessFrom(ops, k, s.access[k]); }
  }

  /** The one step where a swept store could differ: a live access token is revoked through its
      refresh token, which is then live as well and so still there. */
  lemma SameLinks(a: Store, b: Store, ops: set<Op>, family: string, k: string, now: int)
    requires Swept(a, b, now) && IssuedBy(b, ops) && Coherent(ops)
    requires k in b.access && b.access[k].expiresAt >= now
    ensures k in LinkedAccess(a, family, a.refresh.Keys) <==> k in LinkedAccess(b, family, b.refresh.Keys)
  {
    if k in LinkedAccess(a, family, a.refresh.Keys) {
      var r :| r in a.refresh && a.refresh[r].familyId == family && a.refresh[r].accessToken == k;
      assert b.refresh[r] == a.refresh[r];
    }
    if k in LinkedAccess(b, family, b.refresh.Keys) {
      var r :| r in b.refresh && b.refresh[r].familyId == family && b.refresh[r].accessToken == k;
      LinkExpiry(b, ops, r);
      assert a.refresh[r] == b.refresh[r];
    }
  }

  lemma SweptFamily(a: Store, b: Store, ops: set<Op>, family: string, now: int)
    requires Swept(a, b, now) && IssuedBy(b, ops) && Coherent(ops)
    ensures Swept(RevokeFamily(a, family), RevokeFamily(b, family), now)
  {
    FamilyShape(a, family);
    FamilyShape(b, family);
    var la, lb := LinkedAccess(a, family, a.refresh.Keys), LinkedAccess(b, family, b.refresh.Keys);
    forall k | k in b.access && b.access[k].expiresAt >= now
      ensures k in la <==> k in lb
    {
      SameLinks(a, b, ops, family, k, now);
    }
    hide RevokeFamily, LinkedAccess, IssuedBy, Coherent, SweptRefresh, SweptAccess, RefreshKilled, AccessKilled;
    SweptMembers(a, b, RevokeFamily(a, family), RevokeFamily(b, family), family, now);
    SweptLinks(a, b, RevokeFamily(a, family), RevokeFamily(b, family), la, lb, now);
  }

  ghost predicate RefreshKilled(s: Store, r: Store, family: string)
  {
    && r.refresh.Keys == s.refresh.Keys
    && (forall k :: k in s.refresh ==>
          r.refresh[k] == if s.refresh[k].familyId == family then s.refresh[k].(revoked := true) else s.refresh[k])
  }

  ghost predicate AccessKilled(s: Store, r: Store, linked: set<string>)
  {
    && r.access.Keys == s.access.Keys
    && (forall k :: k in s.access ==>
          r.access[k] == if k in linked then s.access[k].(revoked := true) else s.access[k])
  }

  lemma SweptMembers(a: Store, b: Store, ra: Store, rb: Store, family: string, now: int)
    requires SweptRefresh(a, b, now) && RefreshKilled(a, ra, family) && RefreshKilled(b, rb, family)
    ensures SweptRefresh(ra, rb, now)
  {
  }

  lemma SweptLinks(a: Store, b: Store, ra: Store, rb: Store, la: set<string>, lb: set<string>, now: int)
    requires SweptAccess(a, b, now) && AccessKilled(a, ra, la) && AccessKilled(b, rb, lb)
    requires forall k :: k in b.access && b.access[k].expiresAt >= now ==> (k in la <==> k in lb)
    ensures SweptAccess(ra, rb, now)
  {
  }

  lemma FamilyShape(s: Store, family: string)
    ensures RefreshKilled(s, RevokeFamily(s, family), family)
    ensures AccessKilled(s, RevokeFamily(s, family), LinkedAccess(s, family, s.refresh.Keys))
  {
    hide LinkedAccess;
  }

  lemma SweptPurge(a: Store, b: Store, now: int)
    requires Swept(a, b, now)
    ensures Swept(Purge(a, now), b, now)
  {
  }

  lemma SweptRevoke(a: Store, b: Store, key: string, now: int)
    requires Swept(a, b, now)
    ensures Swept(RevokeRefresh(a, key), RevokeRefresh(b, key), now)
  {
  }

  lemma SweptRevokeToken(a: Store, b: Store, key: string, revokedBy: string, now: int)
    requires Swept(a, b, now)
    ensures Swept(RevokeAccess(a, key, revokedBy, now), RevokeAccess(b, key, revokedBy, now), now)
  {
  }

  lemma SweptIssue(a: Store, b: Store, t: AccessToken, now: int)
    requires Swept(a, b, now)
    ensures Swept(SaveAccess(a, t, now), SaveAccess(b, t, now), now)
  {
  }

  lemma SweptIssueRefresh(a: Store, b: Store, t: RefreshToken, now: int)
    requires Swept(a, b, now)
    ensures Swept(SaveRefresh(a, t), SaveRefresh(b, t), now)
  {
  }

  lemma SweptCount(a: Store, b: Store, key: string, now: int)
    requires Swept(a, b, now)
    ensures Swept(CountIntrospection(a, key), CountIntrospection(b, key), now)
  {
  }

  lemma SweptStep(a: Store, b: Store, ops: set<Op>, e: Event)
    requires Swept(a, b, e.now) && IssuedBy(b, ops) && Coherent(ops)
    ensures Swept(Apply(a, e), if e.op.Sweep? then b else Apply(b, e), e.now)
  {
    hide Swept, IssuedBy, Coherent, RevokeFamily, Purge, RevokeRefresh, RevokeAccess, SaveAccess, SaveRefresh, CountIntrospection;
    match e.op
    case Issue(t) => SweptIssue(a, b, t, e.now);
    case IssueRefresh(t) => SweptIssueRefresh(a, b, t, e.now);
    case Revoke(key) => SweptRevoke(a, b, key, e.now);
    case Redeem(key) => SweptRevoke(a, b, key, e.now);
    case KillFamily(family) => SweptFamily(a, b, ops, family, e.now);
    case RevokeToken(key, revokedBy) => SweptRevokeToken(a, b, key, revokedBy, e.now);
    case CountUse(key) => SweptCount(a, b, key, e.now);
    case Sweep => SweptPurge(a, b, e.now);
  }

  function SomeAccess(): AccessToken { AccessToken("", "", "", "", 0, false, 0, "", "", 0, 0, 0, "", None) }

  function SomeRefresh(): RefreshToken { RefreshToken("", "", "", "", "", 0, false, "", 0, "", None) }

  /** An update keeps the expiry and the link of every row it does not issue. */
  lemma ApplyShape(s: Store, e: Event, k: string)
    ensures var r := Apply(s, e);
      && (k in r.access && !(e.op.Issue? && e.op.access.token == k) ==>
            k in s.access && r.access[k].expiresAt == s.access[k].expiresAt)
      && (k in r.refresh && !(e.op.IssueRefresh? && e.op.refresh.token == k) ==>
            k in s.refresh && r.refresh[k].expiresAt == s.refresh[k].expiresAt
            && r.refresh[k].accessToken == s.refresh[k].accessToken)
  {
    if e.op.KillFamily? {
      FamilyShape(s, e.op.family);
      hide RevokeFamily;
    }
  }

  lemma IssuedStep(b: Store, ops: set<Op>, e: Event)
    requires IssuedBy(b, ops) && e.op in ops
    ensures IssuedBy(Apply(b, e), ops)
  {
    hide Apply;
    var after := Apply(b, e);
    forall k | k in after.access
      ensures AccessFrom(ops, k, after.access[k])
    {
      ApplyShape(b, e, k);
      if e.op.Issue? && e.op.access.token == k {
        JustIssued(b, e);
      } else {
        assert AccessFrom(ops, k, b.access[k]);
      }
    }
    forall k | k in after.refresh
      ensures RefreshFrom(ops, k, after.refresh[k])
    {
      ApplyShape(b, e, k);
      if e.op.IssueRefresh? && e.op.refresh.token == k {
        JustIssued(b, e);
      } else {
        assert RefreshFrom(ops, k, b.refresh[k]);
      }
    }
  }

  lemma JustIssued(s: Store, e: Event)
    ensures e.op.IssueRefresh? ==> Apply(s, e) == SaveRefresh(s, e.op.refresh)
    ensures e.op.Issue? ==> Apply(s, e) == SaveAccess(s, e.op.access, e.now)
  {
  }

  lemma SweptLater(a: Store, b: Store, from: int, now: int)
    requires Swept(a, b, from) && from <= now
    ensures Swept(a, b, now)
  {
  }

  lemma {:induction false} SweptRun(a: Store, b: Store, ops: set<Op>, es: seq<Event>, from: int)
    requires Swept(a, b, from) && IssuedBy(b, ops) && Coherent(ops)
    requires Timely(es, from) && Ops(es) <= ops
    ensures Swept(Run(a, es), Run(b, WithoutSweeps(es)), Last(es, from))
    ensures IssuedBy(Run(b, WithoutSweeps(es)), ops)
    decreases |es|
  {
    hide Swept, IssuedBy, Coherent, Apply;
    if es != [] {
      var e := es[0];
      assert e.op in Ops(es);
      SweptLater(a, b, from, e.now);
      SweptStep(a, b, ops, e);
      assert Ops(es[1..]) <= Ops(es);
      if e.op.Sweep? {
        SweptRun(Apply(a, e), b, ops, es[1..], e.now);
      } else {
        IssuedStep(b, ops, e);
        assert WithoutSweeps(es)[1..] == WithoutSweeps(es[1..]);
        SweptRun(Apply(a, e), Apply(b, e), ops, es[1..], e.now);
      }
    }
  }

  lemma SweptAnswers(a: Store, b: Store, ops: set<Op>, from: int, key: string, now: int)
    requires Swept(a, b, from) && IssuedBy(b, ops) && Coherent(ops) && from <= now
    ensures GetAccess(a, key, now) == GetAccess(b, key, now)
    ensures GetRefresh(a, key, now) == GetRefresh(b, key, now)
    ensures Introspect(a, key, now) == Introspect(b, key, now)
    ensures key in b.refresh && b.refresh[key].expiresAt >= now ==> Redeemed(a, key) == Redeemed(b, key)
  {
    if key in b.access { NotBoth(b, ops, key); }
  }

  lemma NotBoth(b: Store, ops: set<Op>, key: string)
    requires IssuedBy(b, ops) && Coherent(ops) && key in b.access
    ensures key !in b.refresh
  {
    assert forall k :: k in b.refresh ==> RefreshFrom(ops, k, b.refresh[k]);
    assert AccessFrom(ops, key, b.access[key]);
  }

  /** Two runs that differ only in purgeExpired calls answer every read alike, forever; and a
      redemption differs only on a token that has expired. */
  lemma {:induction false} PurgeIsInvisible(es1: seq<Event>, es2: seq<Event>, from: int, key: string, now: int)
    requires WithoutSweeps(es1) == WithoutSweeps(es2)
    requires Timely(es1, from) && Timely(es2, from) && Last(es1, from) <= now && Last(es2, from) <= now
    requires Coherent(Ops(es1)) && Coherent(Ops(es2))
    ensures GetAccess(Run(EMPTY, es1), key, now) == GetAccess(Run(EMPTY, es2), key, now)
    ensures GetRefresh(Run(EMPTY, es1), key, now) == GetRefresh(Run(EMPTY, es2), key, now)
    ensures Introspect(Run(EMPTY, es1), key, now) == Introspect(Run(EMPTY, es2), key, now)
    ensures Redeemed(Run(EMPTY, es1), key) != Redeemed(Run(EMPTY, es2), key) ==>
              var s := Run(EMPTY, WithoutSweeps(es1)); key in s.refresh && s.refresh[key].expiresAt < now
  {
    hide Swept, IssuedBy, GetAccess, GetRefresh, Introspect, Coherent;
    var b := Run(EMPTY, WithoutSweeps(es1));
    EmptyIsSwept(from, Ops(es1));
    EmptyIsSwept(from, Ops(es2));
    SweptRun(EMPTY, EMPTY, Ops(es1), es1, from);
    SweptRun(EMPTY, EMPTY, Ops(es2), es2, from);
    SweptAnswers(Run(EMPTY, es1), b, Ops(es1), Last(es1, from), key, now);
    SweptAnswers(Run(EMPTY, es2), b, Ops(es2), Last(es2, from), key, now);
    if key !in b.refresh {
      NotRedeemed(Run(EMPTY, es1), b, Last(es1, from), key);
      NotRedeemed(Run(EMPTY, es2), b, Last(es2, from), key);
    }
  }

  lemma NotRedeemed(a: Store, b: Store, now: int, key: string)
    requires Swept(a, b, now) && key !in b.refresh
    ensures Redeemed(a, key) == Redeemed(b, key) == None
  {
  }

  lemma EmptyIsSwept(now: int, ops: set<Op>)
    ensures Swept(EMPTY, EMPTY, now) && IssuedBy(EMPTY, ops)
  {
  }

  /** The expiry assumption is needed: when a refresh token expires before its access token, a
      purge in between lets the access token survive the revocation of its family. */
  lemma EarlyExpiryIsVisible(a: AccessToken, r: RefreshToken, kill: Event, t1: int, t2: int)
    requires a.token != r.token && r.accessToken == a.token && !a.revoked
    requires kill.op == KillFamily(r.familyId) && r.expiresAt < t1 <= kill.now <= t2 < a.expiresAt
    ensures var issued := [Event(t1, Issue(a)), Event(t1, IssueRefresh(r))];
      && GetAccess(Run(EMPTY, issued + [kill]), a.token, t2) == None
      && GetAccess(Run(EMPTY, issued + [Event(t1, Sweep), kill]), a.token, t2) == Some(Stamped(a, t1))
  {
    var e1, e2, sweep := Event(t1, Issue(a)), Event(t1, IssueRefresh(r)), Event(t1, Sweep);
    var s := Store(map[a.token := Stamped(a, t1)], map[r.token := r]);
    assert Apply(Apply(EMPTY, e1), e2) == s;
    assert Run(EMPTY, [e1, e2] + [kill]) == Apply(s, kill) by {
      assert [e1, e2] + [kill] == [e1, e2, kill];
      Unroll3(EMPTY, e1, e2, kill);
    }
    assert Run(EMPTY, [e1, e2] + [sweep, kill]) == Apply(Apply(s, sweep), kill) by {
      assert [e1, e2] + [sweep, kill] == [e1] + [e2, sweep, kill];
      assert ([e1] + [e2, sweep, kill])[1..] == [e2, sweep, kill];
      Unroll3(Apply(EMPTY, e1), e2, sweep, kill);
    }
    assert a.token in LinkedAccess(s, r.familyId, s.refresh.Keys) by {
      assert s.refresh[r.token].accessToken == a.token;
    }
    assert Apply(s, sweep).refresh == map[];
  }

  lemma Unroll3(s: Store, a: Event, b: Event, c: Event)
    ensures Run(s, [a, b, c]) == Apply(Apply(Apply(s, a), b), c)
  {
    hide Apply;
    assert [a, b, c][1..] == [b, c] && [b, c][1..] == [c];
    var s2 := Apply(Apply(s, a), b);
    assert Run(s2, [c]) == Run(Apply(s2, c), []);
    assert Run(Apply(s, a), [b, c]) == Run(s2, [c]);
  }

  // ---------- Redemption ----------

  function Redemptions(s: Store, es: seq<Event>, key: string): (n: nat)
    decreases |es|
  {
    if es == [] then 0
    else (if es[0].op == Redeem(key) && Redeemed(s, key).Some? then 1 else 0)
         + Redemptions(Apply(s, es[0]), es[1..], key)
  }

  function TimesIssued(es: seq<Event>, key: string): (n: nat)
  {
    if es == [] then 0
    else (if es[0].op.IssueRefresh? && es[0].op.refresh.token == key then 1 else 0) + TimesIssued(es[1..], key)
  }

  /** A refresh token is redeemed at most once per time it was issued, whatever else happens:
      with fresh keys, at most once. */
  lemma {:induction false} RedeemedAtMostOnce(s: Store, es: seq<Event>, key: string)
    ensures Redemptions(s, es, key) <= (if Redeemed(s, key).Some? then 1 else 0) + TimesIssued(es, key)
    decreases |es|
  {
    if es != [] {
      RedeemedAtMostOnce(Apply(s, es[0]), es[1..], key);
      RedeemStep(s, es[0], key);
    }
  }

  lemma RedeemStep(s: Store, e: Event, key: string)
    ensures Redeemed(Apply(s, e), key).Some? && !(e.op.IssueRefresh? && e.op.refresh.token == key) ==>
              Redeemed(s, key).Some? && e.op != Redeem(key)
  {
  }

  // ---------- Family death ----------

  function IssuedKey(op: Op): Option<string>
  {
    match op
    case Issue(t) => Some(t.token)
    case IssueRefresh(t) => Some(t.token)
    case _ => None
  }

  /** No event issues `key`. */
  predicate NotIssued(es: seq<Event>, key: string)
  {
    forall i :: 0 <= i < |es| ==> IssuedKey(es[i].op) != Some(key)
  }

  /** Every issued key is new. */
  predicate FreshKeys(es: seq<Event>)
  {
    forall i, j :: 0 <= i < j < |es| && IssuedKey(es[i].op).Some? ==> IssuedKey(es[i].op) != IssuedKey(es[j].op)
  }

  /** What is left of an issued refresh token: its row, or its absence once expired. */
  ghost predicate RefreshTrace(s: Store, t: RefreshToken, now: int)
  {
    && t.token !in s.access
    && (t.token in s.refresh ==>
          var u := s.refresh[t.token];
          u.familyId == t.familyId && u.accessToken == t.accessToken && u.expiresAt == t.expiresAt)
    && (t.token !in s.refresh ==> t.expiresAt < now)
  }

  ghost predicate AccessTrace(s: Store, t: AccessToken, now: int)
  {
    && t.token !in s.refresh
    && (t.token in s.access ==> s.access[t.token].expiresAt == t.expiresAt)
    && (t.token !in s.access ==> t.expiresAt < now)
  }

  ghost predicate DeadRefresh(s: Store, key: string)
  {
    key !in s.access && (key in s.refresh ==> s.refresh[key].revoked)
  }

  ghost predicate DeadAccess(s: Store, key: string, now: int)
  {
    key !in s.refresh && (key in s.access ==> s.access[key].revoked || s.access[key].expiresAt < now)
  }

  lemma TraceStep(s: Store, e: Event, r: RefreshToken, a: AccessToken, now: int)
    requires now <= e.now
    ensures RefreshTrace(s, r, now) && IssuedKey(e.op) != Some(r.token) ==> RefreshTrace(Apply(s, e), r, e.now)
    ensures AccessTrace(s, a, now) && IssuedKey(e.op) != Some(a.token) ==> AccessTrace(Apply(s, e), a, e.now)
  {
  }

  lemma DeadStep(s: Store, e: Event, key: string, now: int)
    requires now <= e.now && IssuedKey(e.op) != Some(key)
    ensures DeadRefresh(s, key) ==> DeadRefresh(Apply(s, e), key)
    ensures DeadAccess(s, key, now) ==> DeadAccess(Apply(s, e), key, e.now)
  {
  }

  lemma {:induction false} DeadRun(s: Store, es: seq<Event>, key: string, from: int)
    requires Timely(es, from) && NotIssued(es, key)
    ensures DeadRefresh(s, key) ==> DeadRefresh(Run(s, es), key)
    ensures DeadAccess(s, key, from) ==> DeadAccess(Run(s, es), key, Last(es, from))
    decreases |es|
  {
    hide DeadRefresh, DeadAccess, Apply;
    if es != [] {
      DeadStep(s, es[0], key, from);
      DeadRun(Apply(s, es[0]), es[1..], key, es[0].now);
    }
  }

  /** A key no event has issued is nowhere in the store. */
  lemma {:induction false} Unissued(s: Store, es: seq<Event>, key: string)
    requires NotIssued(es, key) && key !in s.access && key !in s.refresh
    ensures key !in Run(s, es).access && key !in Run(s, es).refresh
    decreases |es|
  {
    if es != [] {
      Unissued(Apply(s, es[0]), es[1..], key);
    }
  }

  lemma {:induction false} TraceRun(s: Store, es: seq<Event>, r: RefreshToken, a: AccessToken, from: int)
    requires Timely(es, from)
    ensures RefreshTrace(s, r, from) && NotIssued(es, r.token) ==> RefreshTrace(Run(s, es), r, Last(es, from))
    ensures AccessTrace(s, a, from) && NotIssued(es, a.token) ==> AccessTrace(Run(s, es), a, Last(es, from))
    decreases |es|
  {
    hide RefreshTrace, AccessTrace, Apply;
    if es != [] {
      TraceStep(s, es[0], r, a, from);
      TraceRun(Apply(s, es[0]), es[1..], r, a, es[0].now);
    }
  }

  lemma {:induction false} RunConcat(s: Store, a: seq<Event>, b: seq<Event>, from: int)
    ensures Run(s, a + b) == Run(Run(s, a), b)
    ensures Timely(a + b, from) ==> Timely(a, from) && Timely(b, Last(a, from))
    decreases |a|
  {
    if a == [] {
      assert a + b == b;
    } else {
      assert (a + b)[1..] == a[1..] + b;
      RunConcat(Apply(s, a[0]), a[1..], b, a[0].now);
    }
  }

  lemma IssuedTrace(es: seq<Event>, i: nat, from: int)
    requires FreshKeys(es) && Timely(es, from) && i < |es| && IssuedKey(es[i].op).Some?
    ensures es[i].op.IssueRefresh? ==> RefreshTrace(Run(EMPTY, es), es[i].op.refresh, Last(es, from))
    ensures es[i].op.Issue? ==> AccessTrace(Run(EMPTY, es), es[i].op.access, Last(es, from))
  {
    var e, before, after := es[i], es[..i], es[i + 1..];
    var key := IssuedKey(e.op).value;
    assert es == before + [e] + after;
    SplitRun(before, e, after, from);
    OnlyHere(es, i);
    Unissued(EMPTY, before, key);
    FirstTrace(Run(EMPTY, before), e);
    hide RefreshTrace, AccessTrace, Apply, Run, Timely, FreshKeys, NotIssued;
    if e.op.IssueRefresh? {
      TraceRun(Apply(Run(EMPTY, before), e), after, e.op.refresh, SomeAccess(), e.now);
    } else {
      TraceRun(Apply(Run(EMPTY, before), e), after, SomeRefresh(), e.op.access, e.now);
    }
  }

  lemma OnlyHere(es: seq<Event>, i: nat)
    requires FreshKeys(es) && i < |es| && IssuedKey(es[i].op).Some?
    ensures NotIssued(es[..i], IssuedKey(es[i].op).value) && NotIssued(es[i + 1..], IssuedKey(es[i].op).value)
  {
    var after := es[i + 1..];
    assert forall j :: 0 <= j < |after| ==> after[j] == es[i + 1 + j];
    assert forall j :: 0 <= j < i && IssuedKey(es[j].op).Some? ==> IssuedKey(es[j].op) != IssuedKey(es[i].op);
  }

  lemma FirstTrace(s: Store, e: Event)
    requires IssuedKey(e.op).Some? && IssuedKey(e.op).value !in s.access && IssuedKey(e.op).value !in s.refresh
    ensures e.op.IssueRefresh? ==> RefreshTrace(Apply(s, e), e.op.refresh, e.now)
    ensures e.op.Issue? ==> AccessTrace(Apply(s, e), e.op.access, e.now)
  {
  }

  lemma KillNow(s: Store, r: RefreshToken, family: string, now: int)
    requires RefreshTrace(s, r, now) && r.familyId == family
    ensures DeadRefresh(RevokeFamily(s, family), r.token)
  {
  }

  lemma KillLinked(s: Store, r: RefreshToken, a: AccessToken, family: string, now: int)
    requires RefreshTrace(s, r, now) && AccessTrace(s, a, now)
    requires r.familyId == family && r.accessToken == a.token && a.expiresAt <= r.expiresAt
    ensures DeadAccess(RevokeFamily(s, family), a.token, now)
  {
    if r.token in s.refresh {
      assert s.refresh[r.token].accessToken in LinkedAccess(s, family, s.refresh.Keys);
    }
  }

  /** After revokeTokenFamily, no refresh token issued earlier in that family is ever returned,
      redeemed or active again. */
  lemma FamilyStaysDead(pre: seq<Event>, kill: Event, post: seq<Event>, i: nat, from: int, now: int)
    requires kill.op.KillFamily? && Timely(pre + [kill] + post, from) && FreshKeys(pre + [kill] + post)
    requires i < |pre| && pre[i].op.IssueRefresh? && pre[i].op.refresh.familyId == kill.op.family
    ensures var s, key := Run(EMPTY, pre + [kill] + post), pre[i].op.refresh.token;
      GetRefresh(s, key, now) == None && Redeemed(s, key) == None && !Introspect(s, key, now).active
  {
    var es, r := pre + [kill] + post, pre[i].op.refresh;
    SplitRun(pre, kill, post, from);
    IssuedBefore(pre, kill, post, i);
    IssuedTrace(pre, i, from);
    KillNow(Run(EMPTY, pre), r, kill.op.family, Last(pre, from));
    DeadRun(Apply(Run(EMPTY, pre), kill), post, r.token, kill.now);
  }

  /** Nor is the access token issued earlier and linked to it. */
  lemma LinkedStaysDead(pre: seq<Event>, kill: Event, post: seq<Event>, i: nat, j: nat, from: int, now: int)
    requires kill.op.KillFamily? && Timely(pre + [kill] + post, from) && FreshKeys(pre + [kill] + post)
    requires i < |pre| && pre[i].op.IssueRefresh? && pre[i].op.refresh.familyId == kill.op.family
    requires j < |pre| && pre[j].op.Issue? && pre[j].op.access.token == pre[i].op.refresh.accessToken
    requires pre[j].op.access.expiresAt <= pre[i].op.refresh.expiresAt
    requires Last(pre + [kill] + post, from) <= now
    ensures var s, key := Run(EMPTY, pre + [kill] + post), pre[j].op.access.token;
      GetAccess(s, key, now) == None && !Introspect(s, key, now).active
  {
    var r, a := pre[i].op.refresh, pre[j].op.access;
    SplitRun(pre, kill, post, from);
    IssuedBefore(pre, kill, post, i);
    IssuedBefore(pre, kill, post, j);
    IssuedTrace(pre, i, from);
    IssuedTrace(pre, j, from);
    var s := Run(EMPTY, pre);
    KillLinked(s, r, a, kill.op.family, Last(pre, from));
    assert DeadAccess(Apply(s, kill), a.token, kill.now);
    DeadRun(Apply(s, kill), post, a.token, kill.now);
    assert DeadAccess(Run(Apply(s, kill), post), a.token, now);
  }

  lemma SplitRun(pre: seq<Event>, kill: Event, post: seq<Event>, from: int)
    requires Timely(pre + [kill] + post, from)
    ensures Run(EMPTY, pre + [kill] + post) == Run(Apply(Run(EMPTY, pre), kill), post)
    ensures Timely(pre, from) && Last(pre, from) <= kill.now && Timely(post, kill.now)
    ensures Last(pre + [kill] + post, from) == Last(post, kill.now)
  {
    var tail := [kill] + post;
    assert pre + [kill] + post == pre + tail;
    RunConcat(EMPTY, pre, tail, from);
    assert tail[1..] == post;
  }

  lemma IssuedBefore(pre: seq<Event>, kill: Event, post: seq<Event>, i: nat)
    requires FreshKeys(pre + [kill] + post) && i < |pre| && IssuedKey(pre[i].op).Some?
    ensures FreshKeys(pre) && NotIssued(post, IssuedKey(pre[i].op).value)
  {
    var es := pre + [kill] + post;
    assert forall j :: 0 <= j < |pre| ==> es[j] == pre[j];
    assert forall j :: 0 <= j < |post| ==> es[|pre| + 1 + j] == post[j];
  }

  // ---------- Exactly when the linked access token dies ----------

  lemma {:induction false} IssuedRun(s: Store, es: seq<Event>, ops: set<Op>)
    requires IssuedBy(s, ops) && Ops(es) <= ops
    ensures IssuedBy(Run(s, es), ops)
    decreases |es|
  {
    hide IssuedBy, Apply;
    if es != [] {
      assert es[0].op in Ops(es) && Ops(es[1..]) <= Ops(es);
      IssuedStep(s, ops, es[0]);
      IssuedRun(Apply(s, es[0]), es[1..], ops);
    }
  }

  /** Only `r` was issued with a link to that access token. */
  ghost predicate OnlyLink(ops: set<Op>, r: RefreshToken)
  {
    forall op :: op in ops && op.IssueRefresh? && op.refresh.accessToken == r.accessToken ==> op.refresh.token == r.token
  }

  /** With no assumption on expiries: an access token that is live when its family is revoked dies
      exactly when the refresh token linked to it is still stored, that is, has not been purged. */
  lemma LinkedDiesIff(pre: seq<Event>, kill: Event, i: nat, from: int)
    requires kill.op.KillFamily? && Timely(pre, from) && FreshKeys(pre)
    requires i < |pre| && pre[i].op.IssueRefresh? && pre[i].op.refresh.familyId == kill.op.family
    requires OnlyLink(Ops(pre), pre[i].op.refresh)
    requires GetAccess(Run(EMPTY, pre), pre[i].op.refresh.accessToken, kill.now).Some?
    ensures var s, r := Run(EMPTY, pre), pre[i].op.refresh;
      GetAccess(Apply(s, kill), r.accessToken, kill.now) == None <==> r.token in s.refresh
  {
    var s, r, family := Run(EMPTY, pre), pre[i].op.refresh, kill.op.family;
    IssuedTrace(pre, i, from);
    EmptyIsSwept(from, Ops(pre));
    IssuedRun(EMPTY, pre, Ops(pre));
    FamilyShape(s, family);
    assert forall k :: k in s.refresh ==> RefreshFrom(Ops(pre), k, s.refresh[k]);
    hide Run, IssuedBy, Timely, FreshKeys, RevokeFamily;
    assert r.accessToken in LinkedAccess(s, family, s.refresh.Keys) <==> r.token in s.refresh by {
      if r.token in s.refresh {
        assert s.refresh[r.token].accessToken == r.accessToken && s.refresh[r.token].familyId == family;
      }
      forall k | k in s.refresh && s.refresh[k].accessToken == r.accessToken
        ensures k == r.token
      {
        assert RefreshFrom(Ops(pre), k, s.refresh[k]);
      }
    }
  }
}
