/** RedisCachedTokenRepository and DelayedDoubleDelete: every asynchronous step of the cache as
    one event, in any order the callbacks allow. */
module TokenCache {
  import opened Options
  import opened Tokens
  import opened TokenStore
  import opened TokenRuns
  import opened TokenTiers
  import opened TokenCodec

  // ---------- Configuration ----------

  datatype Config = Config(maxTtl: int, delayMs: int, backend: Backend)

  const MARKER_SECONDS := 60

  const DEFAULT_DELAY_MS := 200

  function EffectiveTtl(seconds: int): (r: int)
    ensures r > 0 && (seconds > 0 ==> r == seconds)
  {
    if seconds > 0 then seconds else 60
  }

  /** The delay of the second delete: the default, or the argument clamped to [50, 2000]. */
  function EffectiveDelay(delayMs: int): (r: int)
    ensures 50 <= r <= 2000 && (50 <= delayMs <= 2000 ==> r == delayMs)
    ensures delayMs <= 0 ==> r == 200
  {
    if delayMs <= 0 then DEFAULT_DELAY_MS
    else if delayMs < 50 then 50 else if delayMs > 2000 then 2000 else delayMs
  }

  function WrappedGet(b: Backend, table: Store, token: string, seconds: int): (r: Option<AccessToken>)
  {
    match b
    case Memory => GetAccess(table, token, seconds)
    case Postgres =>
      if token !in table.access then None
      else
        var t := table.access[token];
        Some(AccessToken(t.token, t.clientId, t.userId, t.scope, t.expiresAt, t.revoked,
                         0, "", "", 0, 0, 0, "", t.orgId))
  }

  // ---------- State ----------

  datatype Key = AccessKey(token: string) | IntroKey(token: string) | RevokedKey(token: string)

  /** A Redis entry, with the instants (ms) its TTL was computed and its SET executed. */
  datatype Entry = Entry(payload: Payload, ttl: int, decidedAt: int, landedAt: int) {
    function Expires(): int { landedAt + 1000 * ttl }
  }

  /** One asynchronous continuation waiting for its turn. */
  datatype Task =
    | LookupAccess(token: string)
    | ReadAccess(token: string, fill: bool)
    | AnswerAccess(token: string, fill: bool, got: Option<AccessToken>)
    | LookupIntro(token: string)
    | ReadIntro(token: string, fill: bool)
    | AnswerIntro(token: string, fill: bool, found: Introspection)
    | CheckAccessKey(token: string, found: Introspection)
    | DecideIntro(token: string, found: Introspection)
    | Saved(access: AccessToken)
    | RevokedRow(token: string)
    | SetEntry(key: Key, payload: Payload, ttl: int, decidedAt: int)
    | Delete(key: Key, isRetry: bool)
    | Timer(key: Key, setAt: int, due: int)

  datatype Answer =
    | AccessAnswer(id: nat, token: string, got: Option<AccessToken>)
    | IntroAnswer(id: nat, token: string, found: Introspection)

  /** `table` is the wrapped repository; `calls`, `seen` and `rows` keep what was written to it, which
      access tokens it returned or saved, and which access rows an introspection read. */
  datatype State = State(
    clock: int,
    redis: map<Key, Entry>,
    table: Store,
    tasks: map<nat, Task>,
    nextId: nat,
    answers: seq<Answer>,
    calls: set<Op>,
    seen: set<AccessToken>,
    rows: set<AccessToken>)

  datatype Step =
    | Tick(ms: nat)
    /** A call on the wrapped repository that does not pass through the cache. */
    | StoreCall(op: Op, no: Refusals)
    | CallGet(token: string)
    | CallIntrospect(token: string)
    | CallRevoke(token: string, revokedBy: string, no: Refusals)
    | CallSave(access: AccessToken)
    | Proceed(id: nat)
    | Fail(id: nat)

  const INITIAL := State(0, map[], EMPTY, map[], 0, [], {}, {}, {})

  function Seconds(s: State): int { s.clock / 1000 }

  predicate Visible(s: State, key: Key) { key in s.redis && s.clock < s.redis[key].Expires() }

  function LookUp(s: State, token: string, key: Key): Lookup
  {
    Decode(RevokedThenGet(Visible(s, RevokedKey(token)), if Visible(s, key) then Some(s.redis[key].payload) else None))
  }

  function Become(s: State, id: nat, t: Task): State { s.(tasks := s.tasks[id := t]) }

  function Finish(s: State, id: nat): State { s.(tasks := s.tasks - {id}) }

  function Spawn(s: State, t: Task): State { s.(tasks := s.tasks[s.nextId := t], nextId := s.nextId + 1) }

  function Tell(s: State, a: Answer): State { s.(answers := s.answers + [a]) }

  function WriteTable(cfg: Config, s: State, op: Op, no: Refusals): State
  {
    s.(table := ApplyOn(cfg.backend, s.table, Event(Seconds(s), op), no), calls := s.calls + {op})
  }

  /** Schedules the SET of an entry, unless the token has no lifetime left. */
  function Fill(cfg: Config, s: State, key: Key, payload: Payload, expiresAt: int): State
  {
    var remaining := expiresAt - Seconds(s);
    if remaining > 0 then Spawn(s, SetEntry(key, payload, Capped(cfg, remaining), s.clock)) else s
  }

  /** The lifetime an entry gets: what the token has left, at most the maximum. */
  function Capped(cfg: Config, remaining: int): (ttl: int)
    ensures remaining > 0 ==> 0 < ttl <= remaining
    ensures ttl <= EffectiveTtl(cfg.maxTtl) && (ttl == remaining || ttl == EffectiveTtl(cfg.maxTtl))
  {
    if remaining < EffectiveTtl(cfg.maxTtl) then remaining else EffectiveTtl(cfg.maxTtl)
  }

  function DoubleDelete(cfg: Config, s: State, key: Key): State
  {
    Spawn(Spawn(s, Delete(key, false)), Timer(key, s.clock, s.clock + EffectiveDelay(cfg.delayMs)))
  }

  // ---------- Steps ----------

  function OnLookupAccess(s: State, id: nat, token: string): State
  {
    match LookUp(s, token, AccessKey(token))
    case Revoked => Finish(Tell(s, AccessAnswer(id, token, None)), id)
    case Miss => Become(s, id, ReadAccess(token, true))
    case Value(p) =>
      var cached := DeserializeAccess(p);
      if cached.Some? then Finish(Tell(s, AccessAnswer(id, token, cached)), id)
      else Become(s, id, ReadAccess(token, true))
  }

  function OnReadAccess(cfg: Config, s: State, id: nat, token: string, fill: bool): State
  {
    var got := WrappedGet(cfg.backend, s.table, token, Seconds(s));
    Become(s.(seen := if got.Some? then s.seen + {got.value} else s.seen), id, AnswerAccess(token, fill, got))
  }

  function OnAnswerAccess(cfg: Config, s: State, id: nat, token: string, fill: bool, got: Option<AccessToken>): State
  {
    var told := Finish(Tell(s, AccessAnswer(id, token, got)), id);
    if fill && got.Some?
    then Fill(cfg, told, AccessKey(token), SerializeAccess(got.value), got.value.expiresAt) else told
  }

  function OnReadIntro(s: State, id: nat, token: string, fill: bool): State
  {
    Become(s.(rows := if token in s.table.access then s.rows + {s.table.access[token]} else s.rows),
           id, AnswerIntro(token, fill, Introspect(s.table, token, Seconds(s))))
  }

  function OnLookupIntro(s: State, id: nat, token: string): State
  {
    match LookUp(s, token, IntroKey(token))
    case Revoked => Finish(Tell(s, IntroAnswer(id, token, INACTIVE)), id)
    case Miss => Become(s, id, ReadIntro(token, true))
    case Value(p) =>
      var cached := DeserializeIntrospection(p);
      if cached.Some? then Finish(Tell(s, IntroAnswer(id, token, cached.value)), id)
      else Become(s, id, ReadIntro(token, true))
  }

  function OnAnswerIntro(s: State, id: nat, token: string, fill: bool, found: Introspection): State
  {
    var told := Finish(Tell(s, IntroAnswer(id, token, found)), id);
    if fill && found.active then Spawn(told, CheckAccessKey(token, found)) else told
  }

  function OnRevokedRow(cfg: Config, s: State, id: nat, token: string): State
  {
    var marked := Spawn(Finish(s, id), SetEntry(RevokedKey(token), map[], MARKER_SECONDS, s.clock));
    DoubleDelete(cfg, DoubleDelete(cfg, marked, AccessKey(token)), IntroKey(token))
  }

  function OnSetEntry(s: State, id: nat, key: Key, payload: Payload, ttl: int, decidedAt: int): State
  {
    Finish(s.(redis := s.redis[key := Entry(payload, ttl, decidedAt, s.clock)]), id)
  }

  /** The next step of a task, its Redis command or callback succeeding. */
  function OnProceed(cfg: Config, s: State, id: nat): State
    requires id in s.tasks
  {
    match s.tasks[id]
    case LookupAccess(token) => OnLookupAccess(s, id, token)
    case ReadAccess(token, fill) => OnReadAccess(cfg, s, id, token, fill)
    case AnswerAccess(token, fill, got) => OnAnswerAccess(cfg, s, id, token, fill, got)
    case LookupIntro(token) => OnLookupIntro(s, id, token)
    case ReadIntro(token, fill) => OnReadIntro(s, id, token, fill)
    case AnswerIntro(token, fill, found) => OnAnswerIntro(s, id, token, fill, found)
    case CheckAccessKey(token, found) =>
      if Visible(s, AccessKey(token)) then Become(s, id, DecideIntro(token, found)) else Finish(s, id)
    case DecideIntro(token, found) =>
      Fill(cfg, Finish(s, id), IntroKey(token), SerializeIntrospection(found), found.exp)
    case Saved(t) => Fill(cfg, Finish(s, id), AccessKey(t.token), SerializeAccess(t), t.expiresAt)
    case RevokedRow(token) => OnRevokedRow(cfg, s, id, token)
    case SetEntry(key, payload, ttl, decidedAt) => OnSetEntry(s, id, key, payload, ttl, decidedAt)
    case Delete(key, _) => Finish(s.(redis := s.redis - {key}), id)
    case Timer(key, _, due) => if s.clock >= due then Become(s, id, Delete(key, false)) else s
  }

  /** The Redis command of a task failing: reads fall back to the table, writes are lost, and a
      delete is retried once. */
  function OnFail(s: State, id: nat): State
    requires id in s.tasks
  {
    match s.tasks[id]
    case LookupAccess(token) => Become(s, id, ReadAccess(token, false))
    case LookupIntro(token) => Become(s, id, ReadIntro(token, false))
    case CheckAccessKey(_, _) => Finish(s, id)
    case SetEntry(_, _, _, _) => Finish(s, id)
    case Delete(key, isRetry) => if isRetry then Finish(s, id) else Become(s, id, Delete(key, true))
    case _ => s
  }

  function Next(cfg: Config, s: State, e: Step): (r: State)
  {
    match e
    case Tick(ms) => s.(clock := s.clock + ms)
    case StoreCall(op, no) => WriteTable(cfg, s, op, no)
    case CallGet(token) => Spawn(s, LookupAccess(token))
    case CallIntrospect(token) => Spawn(s, LookupIntro(token))
    case CallRevoke(token, revokedBy, no) =>
      Spawn(WriteTable(cfg, s, RevokeToken(token, revokedBy), no), RevokedRow(token))
    case CallSave(t) =>
      var saved := WriteTable(cfg, s, Issue(t), NONE_REFUSED);
      Spawn(saved.(seen := saved.seen + {t}), Saved(t))
    case Proceed(id) => if id in s.tasks then OnProceed(cfg, s, id) else s
    case Fail(id) => if id in s.tasks then OnFail(s, id) else s
  }

  function After(cfg: Config, s: State, es: seq<Step>): (r: State)
    decreases |es|
  {
    if es == [] then s else After(cfg, Next(cfg, s, es[0]), es[1..])
  }
}
