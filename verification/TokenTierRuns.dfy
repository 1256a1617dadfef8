/** Whole runs on either backend, any of the revocations' statements refused: refresh tokens are
    redeemed at most once, and a revoked family stays dead. */
module TokenTierRuns {
  import opened Options
  import opened Tokens
  import opened TokenStore
  import opened TokenRuns
  import opened TokenTiers

  /** One call, with the statements the database refuses it. */
  datatype Call = Call(event: Event, no: Refusals)

  function RunOn(b: Backend, s: Store, cs: seq<Call>): (r: Store)
    decreases |cs|
  {
    if cs == [] then s else RunOn(b, ApplyOn(b, s, cs[0].event, cs[0].no), cs[1..])
  }

  function Events(cs: seq<Call>): (es: seq<Event>)
    ensures |es| == |cs| && forall i :: 0 <= i < |cs| ==> es[i] == cs[i].event
  {
    if cs == [] then [] else [cs[0].event] + Events(cs[1..])
  }

  /** On memory this is the run of the events. */
  lemma {:induction false} MemoryRunIsRun(s: Store, cs: seq<Call>)
    ensures RunOn(Memory, s, cs) == Run(s, Events(cs))
    decreases |cs|
  {
    if cs != [] {
      MemoryRunIsRun(Apply(s, cs[0].event), cs[1..]);
      assert Events(cs)[1..] == Events(cs[1..]);
    }
  }

  /** A call on either backend is the memory store's step, or only revokes. */
  lemma StepKinds(b: Backend, s: Store, c: Call)
    ensures ApplyOn(b, s, c.event, c.no) == Apply(s, c.event) ||
            (IssuedKey(c.event.op) == None && !c.event.op.Redeem? && OnlyRevokes(s, ApplyOn(b, s, c.event, c.no)))
  {
    var op := c.event.op;
    if op.RevokeToken? { RevokeAccessOnlyRevokes(s, op.key, op.revokedBy, c.event.now, c.no); }
    if op.KillFamily? { RevokeFamilyOnlyRevokes(s, op.family, c.no); }
    hide Apply, PostgresRevokeAccess, PostgresRevokeFamily, OnlyRevokes;
  }

  // ---------- Redemption ----------

  function RedemptionsOn(b: Backend, s: Store, cs: seq<Call>, key: string): (n: nat)
    decreases |cs|
  {
    if cs == [] then 0
    else (if cs[0].event.op == Redeem(key) && Redeemed(s, key).Some? then 1 else 0)
         + RedemptionsOn(b, ApplyOn(b, s, cs[0].event, cs[0].no), cs[1..], key)
  }

  lemma RevokedIsNotRedeemed(s: Store, r: Store, key: string)
    requires OnlyRevokes(s, r)
    ensures Redeemed(r, key).Some? ==> Redeemed(s, key).Some?
  {
  }

  lemma {:induction false} RedeemedAtMostOnceOn(b: Backend, s: Store, cs: seq<Call>, key: string)
    ensures RedemptionsOn(b, s, cs, key) <= (if Redeemed(s, key).Some? then 1 else 0) + TimesIssued(Events(cs), key)
    decreases |cs|
  {
    if cs != [] {
      var next := ApplyOn(b, s, cs[0].event, cs[0].no);
      RedeemedAtMostOnceOn(b, next, cs[1..], key);
      assert Events(cs)[1..] == Events(cs[1..]);
      StepKinds(b, s, cs[0]);
      RedeemStep(s, cs[0].event, key);
      hide ApplyOn, Apply, Redeemed;
      if OnlyRevokes(s, next) { RevokedIsNotRedeemed(s, next, key); }
    }
  }

  // ---------- Family death ----------

  lemma TraceRevoked(s: Store, t: Store, r: RefreshToken, a: AccessToken, now: int, later: int)
    requires OnlyRevokes(s, t) && now <= later
    ensures RefreshTrace(s, r, now) ==> RefreshTrace(t, r, later)
    ensures AccessTrace(s, a, now) ==> AccessTrace(t, a, later)
  {
  }

  lemma DeadRevoked(s: Store, t: Store, key: string, now: int, later: int)
    requires OnlyRevokes(s, t) && now <= later
    ensures DeadRefresh(s, key) ==> DeadRefresh(t, key)
    ensures DeadAccess(s, key, now) ==> DeadAccess(t, key, later)
  {
  }

  lemma {:induction false} TraceRunOn(b: Backend, s: Store, cs: seq<Call>, r: RefreshToken, a: AccessToken, from: int)
    requires Timely(Events(cs), from)
    ensures RefreshTrace(s, r, from) && NotIssued(Events(cs), r.token) ==> RefreshTrace(RunOn(b, s, cs), r, Last(Events(cs), from))
    ensures AccessTrace(s, a, from) && NotIssued(Events(cs), a.token) ==> AccessTrace(RunOn(b, s, cs), a, Last(Events(cs), from))
    decreases |cs|
  {
    hide RefreshTrace, AccessTrace, ApplyOn, Apply, OnlyRevokes;
    if cs != [] {
      var e, next := cs[0].event, ApplyOn(b, s, cs[0].event, cs[0].no);
      assert Events(cs)[1..] == Events(cs[1..]);
      StepKinds(b, s, cs[0]);
      TraceStep(s, e, r, a, from);
      if OnlyRevokes(s, next) { TraceRevoked(s, next, r, a, from, e.now); }
      TraceRunOn(b, next, cs[1..], r, a, e.now);
    }
  }

  lemma {:induction false} DeadRunOn(b: Backend, s: Store, cs: seq<Call>, key: string, from: int)
    requires Timely(Events(cs), from) && NotIssued(Events(cs), key)
    ensures DeadRefresh(s, key) ==> DeadRefresh(RunOn(b, s, cs), key)
    ensures DeadAccess(s, key, from) ==> DeadAccess(RunOn(b, s, cs), key, Last(Events(cs), from))
    decreases |cs|
  {
    hide DeadRefresh, DeadAccess, ApplyOn, Apply, OnlyRevokes;
    if cs != [] {
      var e, next := cs[0].event, ApplyOn(b, s, cs[0].event, cs[0].no);
      assert Events(cs)[0] == e && Events(cs)[1..] == Events(cs[1..]);
      StepKinds(b, s, cs[0]);
      DeadStep(s, e, key, from);
      if OnlyRevokes(s, next) { DeadRevoked(s, next, key, from, e.now); }
      DeadRunOn(b, next, cs[1..], key, e.now);
    }
  }

  lemma {:induction false} UnissuedOn(b: Backend, s: Store, cs: seq<Call>, key: string)
    requires NotIssued(Events(cs), key) && key !in s.access && key !in s.refresh
    ensures key !in RunOn(b, s, cs).access && key !in RunOn(b, s, cs).refresh
    decreases |cs|
  {
    if cs != [] {
      var next := ApplyOn(b, s, cs[0].event, cs[0].no);
      assert Events(cs)[0] == cs[0].event && Events(cs)[1..] == Events(cs[1..]);
      StepKinds(b, s, cs[0]);
      hide ApplyOn;
      UnissuedOn(b, next, cs[1..], key);
    }
  }

  lemma {:induction false} RunOnConcat(b: Backend, s: Store, x: seq<Call>, y: seq<Call>)
    ensures RunOn(b, s, x + y) == RunOn(b, RunOn(b, s, x), y)
    decreases |x|
  {
    hide ApplyOn;
    if x == [] {
      assert x + y == y;
    } else {
      assert (x + y)[1..] == x[1..] + y;
      RunOnConcat(b, ApplyOn(b, s, x[0].event, x[0].no), x[1..], y);
    }
  }

  /** The call that kills a family reaches its refresh tokens: always in memory, in Postgres exactly
      with a family id and the first statement accepted. */
  predicate KillsRefresh(b: Backend, kill: Call)
    requires kill.event.op.KillFamily?
  {
    b.Memory? || (kill.event.op.family != "" && !kill.no.refresh)
  }

  predicate KillsAccess(b: Backend, kill: Call)
    requires kill.event.op.KillFamily?
  {
    KillsRefresh(b, kill) && (b.Memory? || !kill.no.familyAccess)
  }

  /** A live member of the family dies exactly then. */
  lemma MemberDiesIff(b: Backend, s: Store, kill: Call, key: string)
    requires kill.event.op.KillFamily? && key in s.refresh && key !in s.access
    requires s.refresh[key].familyId == kill.event.op.family && !s.refresh[key].revoked
    ensures DeadRefresh(ApplyOn(b, s, kill.event, kill.no), key) <==> KillsRefresh(b, kill)
  {
    hide LinkedAccess;
  }

  lemma KillMembers(b: Backend, s: Store, kill: Call, r: RefreshToken, a: AccessToken, now: int)
    requires kill.event.op.KillFamily? && RefreshTrace(s, r, now) && r.familyId == kill.event.op.family && KillsRefresh(b, kill)
    ensures DeadRefresh(ApplyOn(b, s, kill.event, kill.no), r.token)
    ensures AccessTrace(s, a, now) && KillsAccess(b, kill) && r.accessToken == a.token && a.expiresAt <= r.expiresAt ==>
              DeadAccess(ApplyOn(b, s, kill.event, kill.no), a.token, now)
  {
    var family := kill.event.op.family;
    if b.Memory? {
      KillNow(s, r, family, now);
      if AccessTrace(s, a, now) && r.accessToken == a.token && a.expiresAt <= r.expiresAt {
        KillLinked(s, r, a, family, now);
      }
      hide RevokeFamily;
    } else {
      var first := RefreshRevoked(s, Members(s, family));
      LinkedSame(s, first, family);
      assert r.token in s.refresh ==> r.accessToken in LinkedAccess(first, family, first.refresh.Keys) by {
        assert r.token in s.refresh ==> r.token in Members(s, family) && s.refresh[r.token].accessToken == r.accessToken;
      }
      hide LinkedAccess;
    }
  }

  lemma Answers(s: Store, key: string, now: int, later: int)
    requires now <= later
    ensures DeadRefresh(s, key) ==> GetRefresh(s, key, later) == None && Redeemed(s, key) == None && !Introspect(s, key, later).active
    ensures DeadAccess(s, key, now) ==> GetAccess(s, key, later) == None && !Introspect(s, key, later).active
  {
  }

  lemma {:induction false} EventsOfParts(pre: seq<Call>, i: nat)
    requires i < |pre|
    ensures Events(pre) == Events(pre[..i]) + [pre[i].event] + Events(pre[i + 1..])
    ensures Events(pre)[..i] == Events(pre[..i]) && Events(pre)[i + 1..] == Events(pre[i + 1..])
  {
    hide Events;
    var es := Events(pre);
    assert es[..i] == Events(pre[..i]) by {
      assert forall k :: 0 <= k < i ==> es[..i][k] == pre[..i][k].event;
    }
    var tail, rest := es[i + 1..], pre[i + 1..];
    assert tail == Events(rest) by { assert forall k :: 0 <= k < |rest| ==> tail[k] == rest[k].event; }
    assert es == es[..i] + [es[i]] + es[i + 1..];
  }

  lemma RunParts(b: Backend, pre: seq<Call>, i: nat)
    requires i < |pre|
    ensures RunOn(b, EMPTY, pre) == RunOn(b, ApplyOn(b, RunOn(b, EMPTY, pre[..i]), pre[i].event, pre[i].no), pre[i + 1..])
  {
    hide RunOn;
    RunThrough(b, pre[..i], pre[i], pre[i + 1..]);
    assert pre == pre[..i] + [pre[i]] + pre[i + 1..];
  }

  lemma IssueOn(b: Backend, s: Store, c: Call)
    requires IssuedKey(c.event.op).Some?
    ensures ApplyOn(b, s, c.event, c.no) == Apply(s, c.event)
  {
    hide Apply;
  }

  /** What `pre` has issued, just before a call. */
  lemma IssuedTraceOn(b: Backend, pre: seq<Call>, i: nat, from: int)
    requires FreshKeys(Events(pre)) && Timely(Events(pre), from) && i < |pre| && IssuedKey(pre[i].event.op).Some?
    ensures var op := pre[i].event.op;
      && (op.IssueRefresh? ==> RefreshTrace(RunOn(b, EMPTY, pre), op.refresh, Last(Events(pre), from)))
      && (op.Issue? ==> AccessTrace(RunOn(b, EMPTY, pre), op.access, Last(Events(pre), from)))
  {
    hide RefreshTrace, AccessTrace, Apply, ApplyOn, FreshKeys, NotIssued, RunOn, Timely, Last, Events;
    var c, before, after := pre[i], pre[..i], pre[i + 1..];
    var e := c.event;
    EventsOfParts(pre, i);
    RunParts(b, pre, i);
    SplitRun(Events(before), e, Events(after), from);
    OnlyHere(Events(pre), i);
    UnissuedOn(b, EMPTY, before, IssuedKey(e.op).value);
    var s := RunOn(b, EMPTY, before);
    FirstTrace(s, e);
    IssueOn(b, s, c);
    if e.op.IssueRefresh? {
      TraceRunOn(b, Apply(s, e), after, e.op.refresh, SomeAccess(), e.now);
    } else {
      TraceRunOn(b, Apply(s, e), after, SomeRefresh(), e.op.access, e.now);
    }
  }

  /** On either backend, once the call that kills a family reaches its refresh tokens, none issued
      earlier is ever returned, redeemed or active again, whatever else is refused. */
  lemma FamilyStaysDeadOn(b: Backend, pre: seq<Call>, kill: Call, post: seq<Call>, i: nat, from: int, now: int)
    requires kill.event.op.KillFamily? && KillsRefresh(b, kill)
    requires Timely(Events(pre) + [kill.event] + Events(post), from) && FreshKeys(Events(pre) + [kill.event] + Events(post))
    requires i < |pre| && pre[i].event.op.IssueRefresh? && pre[i].event.op.refresh.familyId == kill.event.op.family
    ensures var s, key := RunOn(b, EMPTY, pre + [kill] + post), pre[i].event.op.refresh.token;
      GetRefresh(s, key, now) == None && Redeemed(s, key) == None && !Introspect(s, key, now).active
  {
    var r := pre[i].event.op.refresh;
    SplitRun(Events(pre), kill.event, Events(post), from);
    IssuedBefore(Events(pre), kill.event, Events(post), i);
    IssuedTraceOn(b, pre, i, from);
    RunThrough(b, pre, kill, post);
    var s := RunOn(b, EMPTY, pre);
    KillMembers(b, s, kill, r, SomeAccess(), Last(Events(pre), from));
    hide ApplyOn, RunOn, DeadRefresh, DeadAccess;
    DeadRunOn(b, ApplyOn(b, s, kill.event, kill.no), post, r.token, kill.event.now);
    Answers(RunOn(b, EMPTY, pre + [kill] + post), r.token, now, now);
  }

  /** Nor, once it reaches the access tokens too, is the access token linked to it. */
  lemma LinkedStaysDeadOn(b: Backend, pre: seq<Call>, kill: Call, post: seq<Call>, i: nat, j: nat, from: int, now: int)
    requires kill.event.op.KillFamily? && KillsAccess(b, kill)
    requires Timely(Events(pre) + [kill.event] + Events(post), from) && FreshKeys(Events(pre) + [kill.event] + Events(post))
    requires i < |pre| && pre[i].event.op.IssueRefresh? && pre[i].event.op.refresh.familyId == kill.event.op.family
    requires j < |pre| && pre[j].event.op.Issue? && pre[j].event.op.access.token == pre[i].event.op.refresh.accessToken
    requires pre[j].event.op.access.expiresAt <= pre[i].event.op.refresh.expiresAt
    requires Last(Events(pre) + [kill.event] + Events(post), from) <= now
    ensures var s, key := RunOn(b, EMPTY, pre + [kill] + post), pre[j].event.op.access.token;
      GetAccess(s, key, now) == None && !Introspect(s, key, now).active
  {
    var r, a := pre[i].event.op.refresh, pre[j].event.op.access;
    SplitRun(Events(pre), kill.event, Events(post), from);
    IssuedBefore(Events(pre), kill.event, Events(post), i);
    IssuedBefore(Events(pre), kill.event, Events(post), j);
    IssuedTraceOn(b, pre, i, from);
    IssuedTraceOn(b, pre, j, from);
    RunThrough(b, pre, kill, post);
    var s, last := RunOn(b, EMPTY, pre), Last(Events(pre), from);
    KillMembers(b, s, kill, r, a, last);
    var t := ApplyOn(b, s, kill.event, kill.no);
    assert DeadAccess(t, a.token, kill.event.now);
    hide ApplyOn, RunOn, DeadRefresh, DeadAccess;
    DeadRunOn(b, t, post, a.token, kill.event.now);
    Answers(RunOn(b, EMPTY, pre + [kill] + post), a.token, Last(Events(post), kill.event.now), now);
  }

  lemma RunThrough(b: Backend, pre: seq<Call>, kill: Call, post: seq<Call>)
    ensures RunOn(b, EMPTY, pre + [kill] + post)
         == RunOn(b, ApplyOn(b, RunOn(b, EMPTY, pre), kill.event, kill.no), post)
  {
    hide ApplyOn;
    var tail := [kill] + post;
    assert pre + [kill] + post == pre + tail && tail[1..] == post;
    RunOnConcat(b, EMPTY, pre, tail);
  }
}
