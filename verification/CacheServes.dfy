/** The cache serves: from any state, a live token that is neither cached nor marked is answered from
    the table, cached, and answered from the cache the next time. */
module CacheServes {
  import opened Options
  import opened Tokens
  import opened TokenStore
  import opened TokenTiers
  import opened TokenCodec
  import opened TokenCache
  import opened TokenShield

  // ---------- One step ----------

  /** A new request gets the next number. */
  lemma CallStep(cfg: Config, s: State, token: string)
    ensures Next(cfg, s, CallGet(token)) == s.(tasks := s.tasks[s.nextId := LookupAccess(token)], nextId := s.nextId + 1)
    ensures Next(cfg, s, CallIntrospect(token)) == s.(tasks := s.tasks[s.nextId := LookupIntro(token)], nextId := s.nextId + 1)
  {
  }

  lemma MissStep(cfg: Config, s: State, id: nat, token: string)
    requires id in s.tasks && !Visible(s, RevokedKey(token))
    ensures s.tasks[id] == LookupAccess(token) && !Visible(s, AccessKey(token)) ==>
      Next(cfg, s, Proceed(id)) == s.(tasks := s.tasks[id := ReadAccess(token, true)])
    ensures s.tasks[id] == LookupIntro(token) && !Visible(s, IntroKey(token)) ==>
      Next(cfg, s, Proceed(id)) == s.(tasks := s.tasks[id := ReadIntro(token, true)])
  {
    hide Visible;
  }

  lemma HitStep(cfg: Config, s: State, id: nat, token: string)
    requires id in s.tasks && !Visible(s, RevokedKey(token))
    ensures s.tasks[id] == LookupAccess(token) && Visible(s, AccessKey(token)) ==>
      var cached := DeserializeAccess(s.redis[AccessKey(token)].payload);
      cached.Some? ==> Next(cfg, s, Proceed(id)) == s.(tasks := s.tasks - {id}, answers := s.answers + [AccessAnswer(id, token, cached)])
    ensures s.tasks[id] == LookupIntro(token) && Visible(s, IntroKey(token)) ==>
      var cached := DeserializeIntrospection(s.redis[IntroKey(token)].payload);
      cached.Some? ==> Next(cfg, s, Proceed(id)) == s.(tasks := s.tasks - {id}, answers := s.answers + [IntroAnswer(id, token, cached.value)])
  {
    hide DeserializeAccess, DeserializeIntrospection;
  }

  lemma {:induction false} OneStep(cfg: Config, s: State, e: Step, es: seq<Step>)
    ensures After(cfg, s, [e] + es) == After(cfg, Next(cfg, s, e), es) && After(cfg, s, []) == s
  {
    hide Next;
    assert ([e] + es)[1..] == es;
  }

  lemma {:induction false} FourSteps(cfg: Config, s: State, a: Step, b: Step, c: Step, d: Step)
    ensures After(cfg, s, [a, b, c, d]) == Next(cfg, Next(cfg, Next(cfg, Next(cfg, s, a), b), c), d)
  {
    hide *;
    var s1 := Next(cfg, s, a);
    var s2 := Next(cfg, s1, b);
    var s3 := Next(cfg, s2, c);
    OneStep(cfg, s, a, [b, c, d]);
    OneStep(cfg, s1, b, [c, d]);
    OneStep(cfg, s2, c, [d]);
    OneStep(cfg, s3, d, []);
    OneStep(cfg, Next(cfg, s3, d), d, []);
    assert [a] + [b, c, d] == [a, b, c, d] && [b] + [c, d] == [b, c, d] && [c] + [d] == [c, d] && [d] + [] == [d];
  }

  // ---------- Access tokens ----------

  /** What the wrapped repository hands out for a live row: all of it in memory; in Postgres the seven
      columns its reader maps, the rest blank. */
  ghost predicate HandsOut(b: Backend, row: AccessToken, t: AccessToken)
  {
    && t.token == row.token && t.clientId == row.clientId && t.userId == row.userId && t.scope == row.scope
    && t.expiresAt == row.expiresAt && t.revoked == row.revoked && t.orgId == row.orgId
    && (b.Memory? ==> t == row)
    && (b.Postgres? ==> t.issuedAt == 0 && t.issuer == "" && t.audience == "" && t.notBefore == 0
                        && t.introspectCount == 0 && t.revokedAt == 0 && t.revokedBy == "")
  }

  predicate LiveRow(s: State, token: string)
  {
    token in s.table.access && !s.table.access[token].revoked && s.table.access[token].expiresAt > Seconds(s)
  }

  lemma LiveIsHandedOut(cfg: Config, s: State, token: string)
    requires LiveRow(s, token)
    ensures var got := WrappedGet(cfg.backend, s.table, token, Seconds(s));
      got.Some? && HandsOut(cfg.backend, s.table.access[token], got.value)
  {
  }

  /** A first read, undisturbed: looked up, read from the table, answered. */
  ghost function Reading(cfg: Config, s: State, token: string): (r: State)
  {
    After(cfg, s, [CallGet(token), Proceed(s.nextId), Proceed(s.nextId), Proceed(s.nextId)])
  }

  /** A token the table has live and Redis has neither cached nor marked: the caller gets the row, and
      the one new task is the SET that caches it, for the lifetime left or the maximum. */
  lemma {:induction false} MissReadsTheTable(cfg: Config, s: State, token: string)
    requires Sane(s) && LiveRow(s, token) && !Visible(s, RevokedKey(token)) && !Visible(s, AccessKey(token))
    ensures var r, n := Reading(cfg, s, token), s.nextId;
      && |r.answers| == |s.answers| + 1 && r.answers[..|s.answers|] == s.answers
      && var a := r.answers[|s.answers|];
         && a.AccessAnswer? && a.id == n && a.token == token && a.got.Some?
         && HandsOut(cfg.backend, s.table.access[token], a.got.value)
         && r.redis == s.redis && r.table == s.table && r.clock == s.clock && r.nextId == n + 2
         && n + 1 in r.tasks
         && r.tasks[n + 1] == SetEntry(AccessKey(token), SerializeAccess(a.got.value), Capped(cfg, a.got.value.expiresAt - Seconds(s)), s.clock)
  {
    var n := s.nextId;
    FourSteps(cfg, s, CallGet(token), Proceed(n), Proceed(n), Proceed(n));
    LiveIsHandedOut(cfg, s, token);
    var got := WrappedGet(cfg.backend, s.table, token, Seconds(s));
    CallStep(cfg, s, token);
    var s1 := Next(cfg, s, CallGet(token));
    SameRedis(s, s1);
    MissStep(cfg, s1, n, token);
    var s2 := Next(cfg, s1, Proceed(n));
    ReadStep(cfg, s2, n, token);
    var s3 := Next(cfg, s2, Proceed(n));
    AnswerStep(cfg, s3, n, token, got.value);
    hide *;
  }

  lemma SameRedis(s: State, t: State)
    requires t.redis == s.redis && t.clock == s.clock
    ensures forall key :: Visible(t, key) == Visible(s, key)
  {
  }

  lemma ReadStep(cfg: Config, s: State, id: nat, token: string)
    requires id in s.tasks && s.tasks[id] == ReadAccess(token, true)
    ensures var r := Next(cfg, s, Proceed(id));
      && r.tasks == s.tasks[id := AnswerAccess(token, true, WrappedGet(cfg.backend, s.table, token, Seconds(s)))]
      && r == s.(tasks := r.tasks, seen := r.seen)
  {
    hide WrappedGet;
  }

  lemma AnswerStep(cfg: Config, s: State, id: nat, token: string, t: AccessToken)
    requires id in s.tasks && s.tasks[id] == AnswerAccess(token, true, Some(t)) && t.expiresAt > Seconds(s)
    ensures var r := Next(cfg, s, Proceed(id));
      && r.answers == s.answers + [AccessAnswer(id, token, Some(t))]
      && r.redis == s.redis && r.table == s.table && r.clock == s.clock && r.nextId == s.nextId + 1
      && s.nextId in r.tasks
      && r.tasks[s.nextId] == SetEntry(AccessKey(token), SerializeAccess(t), Capped(cfg, t.expiresAt - Seconds(s)), s.clock)
  {
    hide SerializeAccess, Capped;
  }

  lemma SetStep(cfg: Config, s: State, id: nat)
    requires id in s.tasks && s.tasks[id].SetEntry?
    ensures var t := s.tasks[id];
      Next(cfg, s, Proceed(id)) == s.(redis := s.redis[t.key := Entry(t.payload, t.ttl, t.decidedAt, s.clock)], tasks := s.tasks - {id})
  {
  }

  lemma TickStep(cfg: Config, s: State, ms: nat)
    ensures Next(cfg, s, Tick(ms)) == s.(clock := s.clock + ms)
  {
  }

  /** After the SET of an entry and any time short of its TTL, the entry is there and nothing else has
      appeared. */
  lemma SetThenTick(cfg: Config, s: State, id: nat, ms: nat)
    requires id in s.tasks && s.tasks[id].SetEntry? && ms < 1000 * s.tasks[id].ttl
    ensures var t, r := s.tasks[id], Next(cfg, Next(cfg, s, Proceed(id)), Tick(ms));
      && r.answers == s.answers && r.table == s.table && r.nextId == s.nextId && r.tasks == s.tasks - {id}
      && Visible(r, t.key) && r.redis[t.key].payload == t.payload
      && forall key :: key != t.key && Visible(r, key) ==> Visible(s, key)
  {
    SetStep(cfg, s, id);
    TickStep(cfg, Next(cfg, s, Proceed(id)), ms);
    hide Next;
  }

  /** And the next read, any time before the entry expires, is answered from the cache: the same token
      without its organisation, and the table is not read. */
  lemma {:induction false} HitAfterFill(cfg: Config, s: State, id: nat, token: string, t: AccessToken, ms: nat)
    requires id in s.tasks && s.tasks[id].SetEntry? && ms < 1000 * s.tasks[id].ttl
    requires s.tasks[id].key == AccessKey(token) && s.tasks[id].payload == SerializeAccess(t) && !Visible(s, RevokedKey(token))
    ensures var r := After(cfg, s, [Proceed(id), Tick(ms), CallGet(token), Proceed(s.nextId)]);
      && r.answers == s.answers + [AccessAnswer(s.nextId, token, Some(t.(orgId := None)))]
      && r.table == s.table && r.seen == s.seen
  {
    FourSteps(cfg, s, Proceed(id), Tick(ms), CallGet(token), Proceed(s.nextId));
    SetThenTick(cfg, s, id, ms);
    SetStep(cfg, s, id);
    TickStep(cfg, Next(cfg, s, Proceed(id)), ms);
    var s2 := Next(cfg, Next(cfg, s, Proceed(id)), Tick(ms));
    CallStep(cfg, s2, token);
    var s3 := Next(cfg, s2, CallGet(token));
    SameRedis(s2, s3);
    AccessRoundTrip(t);
    HitStep(cfg, s3, s.nextId, token);
    hide *;
  }

  // ---------- Introspection ----------

  ghost function Inspecting(cfg: Config, s: State, token: string): (r: State)
  {
    After(cfg, s, [CallIntrospect(token), Proceed(s.nextId), Proceed(s.nextId), Proceed(s.nextId)])
  }

  /** The answer for a live access token, field by field. */
  ghost predicate Describes(found: Introspection, row: AccessToken)
  {
    && found.active && found.clientId == row.clientId && found.tokenType == "Bearer" && found.exp == row.expiresAt
    && found.iat == row.issuedAt && found.nbf == row.notBefore && found.sub == row.userId && found.aud == row.audience
    && found.iss == row.issuer && found.scope == row.scope && found.orgId == row.orgId
  }

  lemma ReadIntroStep(cfg: Config, s: State, id: nat, token: string)
    requires id in s.tasks && s.tasks[id] == ReadIntro(token, true)
    ensures var r := Next(cfg, s, Proceed(id));
      && r.tasks == s.tasks[id := AnswerIntro(token, true, Introspect(s.table, token, Seconds(s)))]
      && r == s.(tasks := r.tasks, rows := r.rows)
  {
    hide Introspect;
  }

  lemma AnswerIntroStep(cfg: Config, s: State, id: nat, token: string, found: Introspection)
    requires id in s.tasks && s.tasks[id] == AnswerIntro(token, true, found) && found.active
    ensures var r := Next(cfg, s, Proceed(id));
      && r.answers == s.answers + [IntroAnswer(id, token, found)]
      && r.redis == s.redis && r.table == s.table && r.clock == s.clock && r.nextId == s.nextId + 1
      && s.nextId in r.tasks && r.tasks[s.nextId] == CheckAccessKey(token, found)
  {
  }

  lemma LiveIsDescribed(s: State, token: string)
    requires LiveRow(s, token)
    ensures Describes(Introspect(s.table, token, Seconds(s)), s.table.access[token])
  {
  }

  /** A live token without cached answer or marker: the caller gets the row's fields, and the answer
      becomes a candidate for the cache. */
  lemma {:induction false} MissDescribesTheRow(cfg: Config, s: State, token: string)
    requires Sane(s) && LiveRow(s, token) && !Visible(s, RevokedKey(token)) && !Visible(s, IntroKey(token))
    ensures var r, n := Inspecting(cfg, s, token), s.nextId;
      && |r.answers| == |s.answers| + 1 && r.answers[..|s.answers|] == s.answers
      && var a := r.answers[|s.answers|];
         && a.IntroAnswer? && a.id == n && a.token == token && Describes(a.found, s.table.access[token])
         && r.redis == s.redis && r.table == s.table && r.clock == s.clock && r.nextId == n + 2
         && n + 1 in r.tasks && r.tasks[n + 1] == CheckAccessKey(token, a.found)
  {
    var n := s.nextId;
    FourSteps(cfg, s, CallIntrospect(token), Proceed(n), Proceed(n), Proceed(n));
    LiveIsDescribed(s, token);
    var found := Introspect(s.table, token, Seconds(s));
    CallStep(cfg, s, token);
    var s1 := Next(cfg, s, CallIntrospect(token));
    SameRedis(s, s1);
    MissStep(cfg, s1, n, token);
    var s2 := Next(cfg, s1, Proceed(n));
    ReadIntroStep(cfg, s2, n, token);
    var s3 := Next(cfg, s2, Proceed(n));
    AnswerIntroStep(cfg, s3, n, token, found);
    hide *;
  }

  /** A candidate whose access entry is visible and whose lifetime is left gets its SET. */
  lemma CandidateIsCached(cfg: Config, s: State, id: nat, token: string, found: Introspection)
    requires id in s.tasks && s.tasks[id] == CheckAccessKey(token, found) && Visible(s, AccessKey(token)) && found.exp > Seconds(s)
    ensures var r := Next(cfg, Next(cfg, s, Proceed(id)), Proceed(id));
      && r.answers == s.answers && r.redis == s.redis && r.clock == s.clock && r.nextId == s.nextId + 1 && s.nextId in r.tasks
      && r.tasks[s.nextId] == SetEntry(IntroKey(token), SerializeIntrospection(found), Capped(cfg, found.exp - Seconds(s)), s.clock)
  {
    hide SerializeIntrospection, Capped, Visible;
  }

  /** And the next introspection, any time before the entry expires, is answered from the cache. */
  lemma {:induction false} IntroHitAfterFill(cfg: Config, s: State, id: nat, token: string, found: Introspection, ms: nat)
    requires id in s.tasks && s.tasks[id].SetEntry? && ms < 1000 * s.tasks[id].ttl
    requires s.tasks[id].key == IntroKey(token) && s.tasks[id].payload == SerializeIntrospection(found) && !Visible(s, RevokedKey(token))
    ensures var r := After(cfg, s, [Proceed(id), Tick(ms), CallIntrospect(token), Proceed(s.nextId)]);
      && r.answers == s.answers + [IntroAnswer(s.nextId, token, found.(orgId := None))]
      && r.table == s.table && r.rows == s.rows
  {
    FourSteps(cfg, s, Proceed(id), Tick(ms), CallIntrospect(token), Proceed(s.nextId));
    SetThenTick(cfg, s, id, ms);
    SetStep(cfg, s, id);
    TickStep(cfg, Next(cfg, s, Proceed(id)), ms);
    var s2 := Next(cfg, Next(cfg, s, Proceed(id)), Tick(ms));
    CallStep(cfg, s2, token);
    var s3 := Next(cfg, s2, CallIntrospect(token));
    SameRedis(s2, s3);
    IntrospectionRoundTrip(found);
    HitStep(cfg, s3, s.nextId, token);
    hide *;
  }
}
