/** The revocation shield: marker, first delete, delayed second delete. */
module TokenShield {
  import opened Options
  import opened Tokens
  import opened TokenStore
  import opened TokenRuns
  import opened TokenTiers
  import opened TokenCodec
  import opened TokenCache

  // ---------- Vocabulary ----------

  predicate HarmlessAccess(got: Option<AccessToken>) { got.None? || got.value.revoked }

  /** A cached payload that would be served as an unrevoked token or an active introspection. */
  predicate Positive(key: Key, p: Payload)
  {
    match key
    case AccessKey(_) => !HarmlessAccess(DeserializeAccess(p))
    case IntroKey(_) => DeserializeIntrospection(p).Some? && DeserializeIntrospection(p).value.active
    case RevokedKey(_) => false
  }

  /** A task on its way to filling `key` with such a payload. */
  predicate Stale(key: Key, t: Task)
  {
    || (t.SetEntry? && t.key == key && Positive(key, t.payload))
    || (key.AccessKey? && t.AnswerAccess? && t.token == key.token && t.fill && !HarmlessAccess(t.got))
    || (key.AccessKey? && t.Saved? && t.access.token == key.token && !t.access.revoked)
    || (key.IntroKey? && t.AnswerIntro? && t.token == key.token && t.fill && t.found.active)
    || (key.IntroKey? && (t.CheckAccessKey? || t.DecideIntro?) && t.token == key.token && t.found.active)
  }

  predicate NoStaleTask(s: State, key: Key)
  {
    forall id :: id in s.tasks ==> !Stale(key, s.tasks[id])
  }

  predicate Harmless(s: State, key: Key)
  {
    key in s.redis ==> !Positive(key, s.redis[key].payload)
  }

  /** The key holds nothing positive and nothing positive is on its way. */
  predicate KeyClean(s: State, key: Key) { Harmless(s, key) && NoStaleTask(s, key) }

  /** The table's row for the token, in either table, is revoked or absent. */
  predicate DeadRow(table: Store, token: string)
  {
    && (token in table.access ==> table.access[token].revoked)
    && (token in table.refresh ==> table.refresh[token].revoked)
  }

  predicate Reissues(e: Step, token: string)
  {
    || (e.StoreCall? && IssuedKey(e.op) == Some(token))
    || (e.CallSave? && e.access.token == token)
  }

  predicate NoReissue(es: seq<Step>, token: string)
  {
    forall i :: 0 <= i < |es| ==> !Reissues(es[i], token)
  }

  /** Markers live sixty seconds, only positive keys are ever deleted, and a pending second delete
      was scheduled 50 to 2000 ms after the first. */
  predicate SaneTask(t: Task, clock: int)
  {
    && (t.SetEntry? && t.key.RevokedKey? ==> t.ttl == MARKER_SECONDS)
    && (t.Delete? || t.Timer? ==> !t.key.RevokedKey?)
    && (t.Timer? ==> t.setAt <= clock && 50 <= t.due - t.setAt <= 2000)
  }

  /** Tasks and answers are numbered below `nextId`, and a task that is still there has not answered. */
  predicate Sane(s: State)
  {
    && (forall id :: id in s.tasks ==> id < s.nextId && SaneTask(s.tasks[id], s.clock))
    && (forall i :: 0 <= i < |s.answers| ==> s.answers[i].id < s.nextId && s.answers[i].id !in s.tasks)
  }

  /** For the reader behind `key`: a pending result, or a delivered answer, that does no harm. */
  predicate HarmlessTask(key: Key, t: Task)
  {
    && (key.AccessKey? && t.AnswerAccess? && t.token == key.token ==> HarmlessAccess(t.got))
    && (key.IntroKey? && t.AnswerIntro? && t.token == key.token ==> !t.found.active)
  }

  predicate HarmlessAnswer(key: Key, a: Answer)
  {
    && (key.AccessKey? && a.AccessAnswer? && a.token == key.token ==> HarmlessAccess(a.got))
    && (key.IntroKey? && a.IntroAnswer? && a.token == key.token ==> !a.found.active)
  }

  /** The requests a guarantee speaks of: those made from some point on, and some made earlier. */
  datatype Scope = Scope(from: nat, queued: set<nat>) {
    predicate Covers(id: nat) { id >= from || id in queued }
  }

  /** From state `s` on: every new request, and every earlier one whose lookup has not executed. */
  function LookupsFrom(s: State): Scope
  {
    Scope(s.nextId, set id | id in s.tasks && (s.tasks[id].LookupAccess? || s.tasks[id].LookupIntro?))
  }

  /** Every request in scope is harmless so far. */
  predicate LaterRequestsHarmless(s: State, key: Key, scope: Scope)
  {
    && (forall id :: id in s.tasks && scope.Covers(id) ==> HarmlessTask(key, s.tasks[id]))
    && (forall i :: 0 <= i < |s.answers| && scope.Covers(s.answers[i].id) ==> HarmlessAnswer(key, s.answers[i]))
  }

  // ---------- The table ----------

  lemma DeadReads(b: Backend, table: Store, token: string, seconds: int)
    requires DeadRow(table, token)
    ensures HarmlessAccess(WrappedGet(b, table, token, seconds))
    ensures !Introspect(table, token, seconds).active
  {
  }

  lemma DeadRowStaysDead(cfg: Config, s: State, e: Step, token: string)
    requires DeadRow(s.table, token) && !Reissues(e, token)
    ensures DeadRow(Next(cfg, s, e).table, token)
  {
    match e
    case StoreCall(op, no) => DeadApply(cfg.backend, s.table, Event(Seconds(s), op), no, token);
    case CallRevoke(t, revokedBy, no) => DeadApply(cfg.backend, s.table, Event(Seconds(s), RevokeToken(t, revokedBy)), no, token);
    case CallSave(t) => DeadApply(cfg.backend, s.table, Event(Seconds(s), Issue(t)), NONE_REFUSED, token);
    case Proceed(id) => assert Next(cfg, s, e).table == s.table;
    case _ =>
  }

  lemma DeadApply(b: Backend, table: Store, e: Event, no: Refusals, token: string)
    requires DeadRow(table, token) && IssuedKey(e.op) != Some(token)
    ensures DeadRow(ApplyOn(b, table, e, no), token)
  {
    if b.Postgres? && e.op.RevokeToken? {
      RevokeAccessOnlyRevokes(table, e.op.key, e.op.revokedBy, e.now, no);
      hide PostgresRevokeAccess;
    } else if b.Postgres? && e.op.KillFamily? {
      RevokeFamilyOnlyRevokes(table, e.op.family, no);
      hide PostgresRevokeFamily;
    } else {
      DeadInMemory(table, e, token);
      hide Apply;
    }
  }

  lemma DeadInMemory(table: Store, e: Event, token: string)
    requires DeadRow(table, token) && IssuedKey(e.op) != Some(token)
    ensures DeadRow(Apply(table, e), token)
  {
  }

  /** What one revoke call has to do to a token's rows: the memory store always does; Postgres only if
      the access row is absent, dead already, or found and updated, and a refresh row under the same
      key is absent, dead already, or reached by the cascade. */
  predicate Revokes(b: Backend, table: Store, token: string, no: Refusals)
  {
    b.Memory? ||
    (&& (token in table.access ==> table.access[token].revoked || Takes(table, token, no))
     && (token in table.refresh ==>
           table.refresh[token].revoked || (Takes(table, token, no) && token in Reached(table, token, no))))
  }

  /** revokeAccessToken leaves the row dead exactly then. */
  lemma RevokeKillsRowIff(cfg: Config, s: State, token: string, revokedBy: string, no: Refusals)
    ensures DeadRow(Next(cfg, s, CallRevoke(token, revokedBy, no)).table, token) <==>
              Revokes(cfg.backend, s.table, token, no)
  {
    var table := s.table;
    if cfg.backend.Postgres? && Takes(table, token, no) {
      var now := Seconds(s);
      var row := if no.audit then table.access[token].(revoked := true)
                 else table.access[token].(revoked := true, revokedAt := now, revokedBy := revokedBy);
      var marked := table.(access := table.access[token := row]);
      assert Paired(marked, token) == Paired(table, token);
      assert Reached(marked, token, no) == Reached(table, token, no);
      KeepsDead(marked, token, no);
      CascadeRefresh(marked, token, no);
      hide Cascade, Reached;
    }
  }

  lemma CascadeRefresh(table: Store, token: string, no: Refusals)
    ensures Cascade(table, token, no).refresh == RefreshRevoked(table, Reached(table, token, no)).refresh
  {
    hide Reached;
  }

  /** The revocation endpoint follows up with revokeRefreshToken: then only an access row that is
      still alive because its lookup or both updates were refused is left. */
  lemma EndpointKillsRowIff(cfg: Config, s: State, token: string, revokedBy: string, no: Refusals)
    ensures DeadRow(After(cfg, s, [CallRevoke(token, revokedBy, no), StoreCall(Revoke(token), NONE_REFUSED)]).table, token) <==>
              (cfg.backend.Memory? || (token in s.table.access ==> s.table.access[token].revoked || Takes(s.table, token, no)))
  {
    var e1, e2 := CallRevoke(token, revokedBy, no), StoreCall(Revoke(token), NONE_REFUSED);
    var s1 := Next(cfg, s, e1);
    assert [e1, e2][1..] == [e2] && [e2][1..] == [];
    assert After(cfg, s1, [e2]) == After(cfg, Next(cfg, s1, e2), []);
    var s2 := Next(cfg, s1, e2);
    assert s2.table == RevokeRefresh(s1.table, token);
    AccessAfterRevoke(cfg, s, token, revokedBy, no);
    hide Next;
  }

  lemma AccessAfterRevoke(cfg: Config, s: State, token: string, revokedBy: string, no: Refusals)
    ensures var r := Next(cfg, s, CallRevoke(token, revokedBy, no)).table;
      && (token in r.access <==> token in s.table.access)
      && (token in r.access ==> (r.access[token].revoked <==>
            cfg.backend.Memory? || s.table.access[token].revoked || Takes(s.table, token, no)))
  {
    if cfg.backend.Postgres? {
      RevokeAccessOnlyRevokes(s.table, token, revokedBy, Seconds(s), no);
      if Takes(s.table, token, no) {
        var row := if no.audit then s.table.access[token].(revoked := true)
                   else s.table.access[token].(revoked := true, revokedAt := Seconds(s), revokedBy := revokedBy);
        KeepsDead(s.table.(access := s.table.access[token := row]), token, no);
        hide Cascade;
      }
    }
  }

  // ---------- Clean keys stay clean ----------

  lemma PositiveFill(t: AccessToken, r: Introspection, token: string)
    ensures Positive(AccessKey(token), SerializeAccess(t)) == !t.revoked
    ensures Positive(IntroKey(token), SerializeIntrospection(r)) == r.active
  {
    AccessRoundTrip(t);
    IntrospectionRoundTrip(r);
  }

  lemma CleanTasks(s: State, id: nat, t: Task, answers: seq<Answer>, key: Key)
    requires KeyClean(s, key) && !Stale(key, t)
    ensures KeyClean(Spawn(s, t), key) && KeyClean(Become(s, id, t), key)
    ensures KeyClean(Finish(s.(answers := answers), id), key)
  {
    hide Stale, Positive;
  }

  lemma CleanFill(cfg: Config, s: State, target: Key, p: Payload, expiresAt: int, key: Key)
    requires KeyClean(s, key) && (target == key ==> !Positive(key, p))
    ensures KeyClean(Fill(cfg, s, target, p, expiresAt), key)
  {
    hide Positive;
  }

  lemma CleanRevokedRow(cfg: Config, s: State, id: nat, token: string, key: Key)
    requires KeyClean(s, key)
    ensures KeyClean(OnRevokedRow(cfg, s, id, token), key)
  {
    NoMarkerPositive(token);
    hide Positive;
  }

  lemma CleanLookup(s: State, id: nat, token: string, key: Key)
    requires KeyClean(s, key)
    ensures KeyClean(OnLookupAccess(s, id, token), key) && KeyClean(OnLookupIntro(s, id, token), key)
  {
    hide KeyClean, LookUp, DeserializeAccess, DeserializeIntrospection;
    CleanTasks(s, id, ReadAccess(token, true), s.answers, key);
    CleanTasks(s, id, ReadIntro(token, true), s.answers, key);
    forall a: Answer
      ensures KeyClean(Finish(Tell(s, a), id), key)
    {
      CleanTasks(s, id, ReadIntro(token, true), s.answers + [a], key);
    }
  }

  lemma CleanRead(cfg: Config, s: State, id: nat, token: string, fill: bool, key: Key)
    requires KeyClean(s, key) && DeadRow(s.table, key.token)
    ensures KeyClean(OnReadAccess(cfg, s, id, token, fill), key)
    ensures KeyClean(OnReadIntro(s, id, token, fill), key)
  {
    DeadReads(cfg.backend, s.table, key.token, Seconds(s));
    hide DeadRow, WrappedGet, Introspect, HarmlessAccess, Positive;
  }

  lemma CleanAnswer(cfg: Config, s: State, id: nat, key: Key)
    requires KeyClean(s, key) && id in s.tasks && (s.tasks[id].AnswerAccess? || s.tasks[id].AnswerIntro?)
    ensures KeyClean(OnProceed(cfg, s, id), key)
  {
    var task := s.tasks[id];
    assert !Stale(key, task);
    hide KeyClean, SerializeAccess, Positive;
    match task
    case AnswerAccess(token, fill, got) =>
      CleanTasks(s, id, LookupAccess(token), s.answers + [AccessAnswer(id, token, got)], key);
      if fill && got.Some? {
        PositiveFill(got.value, INACTIVE, token);
        var told := Finish(Tell(s, AccessAnswer(id, token, got)), id);
        CleanFill(cfg, told, AccessKey(token), SerializeAccess(got.value), got.value.expiresAt, key);
      }
    case AnswerIntro(token, fill, found) =>
      CleanTasks(s, id, LookupAccess(token), s.answers + [IntroAnswer(id, token, found)], key);
      if fill && found.active {
        CleanTasks(Finish(Tell(s, IntroAnswer(id, token, found)), id), id, CheckAccessKey(token, found), [], key);
      }
  }

  lemma CleanRedis(cfg: Config, s: State, id: nat, key: Key)
    requires KeyClean(s, key) && id in s.tasks && (s.tasks[id].SetEntry? || s.tasks[id].Delete?)
    ensures KeyClean(OnProceed(cfg, s, id), key)
  {
    assert !Stale(key, s.tasks[id]);
    hide Positive;
  }

  lemma CleanDrop(s: State, id: nat, key: Key)
    requires KeyClean(s, key)
    ensures KeyClean(Finish(s, id), key)
  {
    hide Stale, Positive;
  }

  lemma CleanDecide(cfg: Config, s: State, id: nat, token: string, found: Introspection, key: Key)
    requires KeyClean(s, key) && !Stale(key, DecideIntro(token, found))
    ensures KeyClean(Fill(cfg, Finish(s, id), IntroKey(token), SerializeIntrospection(found), found.exp), key)
  {
    PositiveFill(SomeAccess(), found, token);
    CleanDrop(s, id, key);
    hide KeyClean, Fill, Finish, SerializeIntrospection, Positive;
    CleanFill(cfg, Finish(s, id), IntroKey(token), SerializeIntrospection(found), found.exp, key);
  }

  lemma CleanSaved(cfg: Config, s: State, id: nat, t: AccessToken, key: Key)
    requires KeyClean(s, key) && !Stale(key, Saved(t))
    ensures KeyClean(Fill(cfg, Finish(s, id), AccessKey(t.token), SerializeAccess(t), t.expiresAt), key)
  {
    PositiveFill(t, INACTIVE, t.token);
    CleanDrop(s, id, key);
    hide KeyClean, Fill, Finish, SerializeAccess, Positive;
    CleanFill(cfg, Finish(s, id), AccessKey(t.token), SerializeAccess(t), t.expiresAt, key);
  }

  lemma CleanChecked(s: State, id: nat, token: string, found: Introspection, k: Key, key: Key)
    requires KeyClean(s, key)
    ensures !Stale(key, CheckAccessKey(token, found)) ==> KeyClean(Become(s, id, DecideIntro(token, found)), key)
    ensures KeyClean(Become(s, id, Delete(k, false)), key)
  {
    hide Positive;
  }

  lemma CleanProceed(cfg: Config, s: State, id: nat, key: Key)
    requires KeyClean(s, key) && DeadRow(s.table, key.token) && id in s.tasks
    ensures KeyClean(OnProceed(cfg, s, id), key)
  {
    assert !Stale(key, s.tasks[id]);
    hide KeyClean, DeadRow, Stale, Introspect, OnLookupAccess, OnLookupIntro, OnReadAccess, OnReadIntro, OnRevokedRow, Fill,
      SerializeAccess, SerializeIntrospection, OnAnswerAccess, OnAnswerIntro, Become, Finish, Visible;
    match s.tasks[id]
    case LookupAccess(token) => CleanLookup(s, id, token, key);
    case LookupIntro(token) => CleanLookup(s, id, token, key);
    case ReadAccess(token, fill) => CleanRead(cfg, s, id, token, fill, key);
    case ReadIntro(token, fill) => CleanRead(cfg, s, id, token, fill, key);
    case AnswerAccess(_, _, _) => CleanAnswer(cfg, s, id, key);
    case AnswerIntro(_, _, _) => CleanAnswer(cfg, s, id, key);
    case SetEntry(_, _, _, _) => CleanRedis(cfg, s, id, key);
    case Delete(_, _) => CleanRedis(cfg, s, id, key);
    case CheckAccessKey(token, found) => CleanChecked(s, id, token, found, key, key); CleanDrop(s, id, key);
    case DecideIntro(token, found) => CleanDecide(cfg, s, id, token, found, key);
    case Saved(t) => CleanSaved(cfg, s, id, t, key);
    case RevokedRow(token) => CleanRevokedRow(cfg, s, id, token, key);
    case Timer(k, _, _) => CleanChecked(s, id, "", INACTIVE, k, key);
  }

  lemma NoMarkerPositive(token: string)
    ensures !Positive(RevokedKey(token), map[])
  {
  }

  lemma CleanStep(cfg: Config, s: State, e: Step, key: Key)
    requires KeyClean(s, key) && DeadRow(s.table, key.token) && !Reissues(e, key.token)
    ensures KeyClean(Next(cfg, s, e), key)
  {
    if e.Proceed? && e.id in s.tasks {
      CleanProceed(cfg, s, e.id, key);
    } else {
      hide Positive, HarmlessAccess, DeadRow;
    }
  }

  /** The second delete with no stale fill left in flight cleans the key. */
  lemma DeleteCleans(cfg: Config, s: State, id: nat, key: Key)
    requires id in s.tasks && s.tasks[id].Delete? && s.tasks[id].key == key && NoStaleTask(s, key)
    ensures KeyClean(Next(cfg, s, Proceed(id)), key)
  {
  }

  // ---------- The marker ----------

  lemma SaneSpawn(s: State, t: Task)
    requires Sane(s) && SaneTask(t, s.clock)
    ensures Sane(Spawn(s, t))
  {
  }

  lemma SaneRevokedRow(cfg: Config, s: State, id: nat, token: string)
    requires Sane(s)
    ensures Sane(OnRevokedRow(cfg, s, id, token)) && s.nextId <= OnRevokedRow(cfg, s, id, token).nextId
    ensures OnRevokedRow(cfg, s, id, token).clock == s.clock
  {
    hide Sane;
    assert Sane(Finish(s, id)) by { SaneFinish(s, id); }
    var s1 := Spawn(Finish(s, id), SetEntry(RevokedKey(token), map[], MARKER_SECONDS, s.clock));
    SaneSpawn(Finish(s, id), SetEntry(RevokedKey(token), map[], MARKER_SECONDS, s.clock));
    SaneDoubleDelete(cfg, s1, AccessKey(token));
    SaneDoubleDelete(cfg, DoubleDelete(cfg, s1, AccessKey(token)), IntroKey(token));
  }

  lemma SaneFinish(s: State, id: nat)
    requires Sane(s)
    ensures Sane(Finish(s, id))
  {
  }

  lemma SaneDoubleDelete(cfg: Config, s: State, key: Key)
    requires Sane(s) && !key.RevokedKey?
    ensures Sane(DoubleDelete(cfg, s, key)) && DoubleDelete(cfg, s, key).nextId == s.nextId + 2
  {
    hide Sane;
    SaneSpawn(s, Delete(key, false));
    SaneSpawn(Spawn(s, Delete(key, false)), Timer(key, s.clock, s.clock + EffectiveDelay(cfg.delayMs)));
  }

  lemma SaneFill(cfg: Config, s: State, key: Key, p: Payload, expiresAt: int)
    requires Sane(s) && !key.RevokedKey?
    ensures var r := Fill(cfg, s, key, p, expiresAt); Sane(r) && s.nextId <= r.nextId && s.clock == r.clock
  {
  }

  lemma SaneTold(s: State, id: nat, a: Answer)
    requires Sane(s) && id in s.tasks && a.id == id
    ensures Sane(Finish(Tell(s, a), id))
  {
  }

  lemma SaneAnswer(cfg: Config, s: State, id: nat)
    requires Sane(s) && id in s.tasks && (s.tasks[id].AnswerAccess? || s.tasks[id].AnswerIntro?)
    ensures var r := OnProceed(cfg, s, id); Sane(r) && s.nextId <= r.nextId && s.clock <= r.clock
  {
    hide Sane, Fill, SerializeAccess;
    match s.tasks[id]
    case AnswerAccess(token, fill, got) =>
      SaneTold(s, id, AccessAnswer(id, token, got));
      if got.Some? {
        SaneFill(cfg, Finish(Tell(s, AccessAnswer(id, token, got)), id), AccessKey(token), SerializeAccess(got.value), got.value.expiresAt);
      }
    case AnswerIntro(token, fill, found) =>
      SaneTold(s, id, IntroAnswer(id, token, found));
      SaneSpawn(Finish(Tell(s, IntroAnswer(id, token, found)), id), CheckAccessKey(token, found));
  }

  lemma SaneBecome(s: State, r: State, id: nat, t: Task)
    requires Sane(s) && id in s.tasks && SaneTask(t, s.clock)
    requires r == s.(seen := r.seen, rows := r.rows, tasks := s.tasks[id := t])
    ensures Sane(r)
  {
  }

  lemma SaneRead(cfg: Config, s: State, id: nat, token: string, fill: bool)
    requires Sane(s) && id in s.tasks
    ensures var r := OnReadAccess(cfg, s, id, token, fill); Sane(r) && r.nextId == s.nextId && r.clock == s.clock
    ensures var r := OnReadIntro(s, id, token, fill); Sane(r) && r.nextId == s.nextId && r.clock == s.clock
  {
    hide Sane, WrappedGet, Introspect;
    SaneBecome(s, OnReadAccess(cfg, s, id, token, fill), id, AnswerAccess(token, fill, WrappedGet(cfg.backend, s.table, token, Seconds(s))));
    SaneBecome(s, OnReadIntro(s, id, token, fill), id, AnswerIntro(token, fill, Introspect(s.table, token, Seconds(s))));
  }

  lemma SaneLookup(s: State, id: nat, token: string)
    requires Sane(s) && id in s.tasks
    ensures var r := OnLookupAccess(s, id, token); Sane(r) && r.nextId == s.nextId && r.clock == s.clock
    ensures var r := OnLookupIntro(s, id, token); Sane(r) && r.nextId == s.nextId && r.clock == s.clock
  {
    hide Sane, LookUp, DeserializeAccess, DeserializeIntrospection;
    SaneBecome(s, Become(s, id, ReadAccess(token, true)), id, ReadAccess(token, true));
    SaneBecome(s, Become(s, id, ReadIntro(token, true)), id, ReadIntro(token, true));
    forall a: Answer | a.id == id
      ensures Sane(Finish(Tell(s, a), id))
    {
      SaneTold(s, id, a);
    }
  }

  lemma SaneRedis(s: State, id: nat, redis: map<Key, Entry>)
    requires Sane(s)
    ensures Sane(Finish(s.(redis := redis), id))
  {
  }

  lemma SaneProceed(cfg: Config, s: State, id: nat)
    requires Sane(s) && id in s.tasks
    ensures var r := OnProceed(cfg, s, id); Sane(r) && s.nextId <= r.nextId && s.clock <= r.clock
  {
    assert SaneTask(s.tasks[id], s.clock);
    assert s.tasks[id].Timer? ==> SaneTask(Delete(s.tasks[id].key, false), s.clock);
    assert s.tasks[id].CheckAccessKey? ==> SaneTask(DecideIntro(s.tasks[id].token, s.tasks[id].found), s.clock);
    SaneFinish(s, id);
    hide Sane, LookUp, WrappedGet, Introspect, SerializeAccess, SerializeIntrospection, DeserializeAccess,
      DeserializeIntrospection, OnRevokedRow, OnAnswerAccess, OnAnswerIntro, Fill, Visible, OnLookupAccess, OnLookupIntro,
      OnReadAccess, OnReadIntro, SaneTask;
    match s.tasks[id]
    case LookupAccess(token) => SaneLookup(s, id, token);
    case LookupIntro(token) => SaneLookup(s, id, token);
    case ReadAccess(token, fill) => SaneRead(cfg, s, id, token, fill);
    case ReadIntro(token, fill) => SaneRead(cfg, s, id, token, fill);
    case AnswerAccess(_, _, _) => SaneAnswer(cfg, s, id);
    case AnswerIntro(_, _, _) => SaneAnswer(cfg, s, id);
    case CheckAccessKey(token, found) =>
      SaneBecome(s, Become(s, id, DecideIntro(token, found)), id, DecideIntro(token, found));
    case DecideIntro(token, found) => SaneFill(cfg, Finish(s, id), IntroKey(token), SerializeIntrospection(found), found.exp);
    case Saved(t) => SaneFill(cfg, Finish(s, id), AccessKey(t.token), SerializeAccess(t), t.expiresAt);
    case RevokedRow(token) => SaneRevokedRow(cfg, s, id, token);
    case SetEntry(k, p, ttl, decidedAt) => SaneRedis(s, id, s.redis[k := Entry(p, ttl, decidedAt, s.clock)]);
    case Delete(k, _) => SaneRedis(s, id, s.redis - {k});
    case Timer(k, _, _) => SaneBecome(s, Become(s, id, Delete(k, false)), id, Delete(k, false));
  }

  lemma SaneStep(cfg: Config, s: State, e: Step)
    requires Sane(s)
    ensures Sane(Next(cfg, s, e)) && s.nextId <= Next(cfg, s, e).nextId && s.clock <= Next(cfg, s, e).clock
  {
    hide OnProceed, ApplyOn;
    if e.Proceed? && e.id in s.tasks { SaneProceed(cfg, s, e.id); }
  }

  /** The marker, set at most sixty seconds before its expiry, is never shortened or removed. */
  predicate MarkerUntil(s: State, token: string, until: int)
  {
    RevokedKey(token) in s.redis && until <= s.redis[RevokedKey(token)].Expires() && until <= s.clock + 1000 * MARKER_SECONDS
  }

  lemma MarkerStep(cfg: Config, s: State, e: Step, token: string, until: int)
    requires Sane(s) && MarkerUntil(s, token, until)
    ensures MarkerUntil(Next(cfg, s, e), token, until)
  {
    hide LookUp, WrappedGet, Introspect, SerializeAccess, SerializeIntrospection, DeserializeAccess, DeserializeIntrospection;
  }

  // ---------- Later requests ----------

  lemma LookupIsHarmless(s: State, key: Key)
    requires !key.RevokedKey? && (Visible(s, RevokedKey(key.token)) || Harmless(s, key))
    ensures LookUp(s, key.token, key).Value? ==> !Positive(key, LookUp(s, key.token, key).payload)
  {
  }

  lemma LaterRevokedRow(cfg: Config, s: State, id: nat, token: string, key: Key, scope: Scope)
    requires LaterRequestsHarmless(s, key, scope)
    ensures LaterRequestsHarmless(OnRevokedRow(cfg, s, id, token), key, scope)
  {
  }

  lemma LaterLookup(s: State, id: nat, token: string, key: Key, scope: Scope)
    requires !key.RevokedKey? && LaterRequestsHarmless(s, key, scope)
    requires Visible(s, RevokedKey(key.token)) || Harmless(s, key)
    ensures LaterRequestsHarmless(OnLookupAccess(s, id, token), key, scope)
    ensures LaterRequestsHarmless(OnLookupIntro(s, id, token), key, scope)
  {
    LookupIsHarmless(s, key);
    LaterQuiet(s, id, ReadAccess(token, true), s.redis, key, scope);
    LaterQuiet(s, id, ReadIntro(token, true), s.redis, key, scope);
    hide LookUp, Visible, Harmless, DeserializeAccess, DeserializeIntrospection, LaterRequestsHarmless;
    forall a: Answer | HarmlessAnswer(key, a)
      ensures LaterRequestsHarmless(Finish(Tell(s, a), id), key, scope)
    {
      LaterAnswer(s, id, a, LookupAccess(""), key, scope);
    }
  }

  lemma LaterRead(cfg: Config, s: State, id: nat, token: string, fill: bool, key: Key, scope: Scope)
    requires LaterRequestsHarmless(s, key, scope) && DeadRow(s.table, key.token)
    ensures LaterRequestsHarmless(OnReadAccess(cfg, s, id, token, fill), key, scope)
    ensures LaterRequestsHarmless(OnReadIntro(s, id, token, fill), key, scope)
  {
    DeadReads(cfg.backend, s.table, key.token, Seconds(s));
    hide WrappedGet, Introspect, DeadRow, HarmlessAccess;
  }

  lemma LaterQuiet(s: State, id: nat, t: Task, redis: map<Key, Entry>, key: Key, scope: Scope)
    requires LaterRequestsHarmless(s, key, scope) && !t.AnswerAccess? && !t.AnswerIntro?
    ensures LaterRequestsHarmless(Spawn(s, t), key, scope)
    ensures LaterRequestsHarmless(Become(s, id, t), key, scope)
    ensures LaterRequestsHarmless(Finish(s, id), key, scope)
    ensures LaterRequestsHarmless(Finish(s.(redis := redis), id), key, scope)
  {
  }

  lemma LaterFill(cfg: Config, s: State, target: Key, p: Payload, expiresAt: int, key: Key, scope: Scope)
    requires LaterRequestsHarmless(s, key, scope)
    ensures LaterRequestsHarmless(Fill(cfg, s, target, p, expiresAt), key, scope)
  {
  }

  lemma LaterAnswer(s: State, id: nat, a: Answer, t: Task, key: Key, scope: Scope)
    requires LaterRequestsHarmless(s, key, scope) && !t.AnswerAccess? && !t.AnswerIntro?
    requires scope.Covers(a.id) ==> HarmlessAnswer(key, a)
    ensures LaterRequestsHarmless(Finish(Tell(s, a), id), key, scope)
    ensures LaterRequestsHarmless(Spawn(Finish(Tell(s, a), id), t), key, scope)
  {
    var told := Tell(s, a);
    assert LaterRequestsHarmless(told, key, scope);
    LaterQuiet(told, id, t, told.redis, key, scope);
    LaterQuiet(Finish(told, id), id, t, told.redis, key, scope);
  }

  lemma LaterTold(cfg: Config, s: State, id: nat, key: Key, scope: Scope)
    requires id in s.tasks && LaterRequestsHarmless(s, key, scope)
    requires s.tasks[id].AnswerAccess? || s.tasks[id].AnswerIntro?
    ensures LaterRequestsHarmless(OnProceed(cfg, s, id), key, scope)
  {
    assert scope.Covers(id) ==> HarmlessTask(key, s.tasks[id]);
    hide LaterRequestsHarmless, SerializeAccess, Fill, HarmlessAccess;
    match s.tasks[id]
    case AnswerAccess(token, fill, got) =>
      var told := Finish(Tell(s, AccessAnswer(id, token, got)), id);
      LaterAnswer(s, id, AccessAnswer(id, token, got), LookupAccess(token), key, scope);
      if got.Some? { LaterFill(cfg, told, AccessKey(token), SerializeAccess(got.value), got.value.expiresAt, key, scope); }
    case AnswerIntro(token, fill, found) =>
      LaterAnswer(s, id, IntroAnswer(id, token, found), CheckAccessKey(token, found), key, scope);
  }

  lemma LaterBackground(cfg: Config, s: State, id: nat, key: Key, scope: Scope)
    requires id in s.tasks && LaterRequestsHarmless(s, key, scope)
    requires var t := s.tasks[id];
      t.CheckAccessKey? || t.DecideIntro? || t.Saved? || t.RevokedRow? || t.SetEntry? || t.Delete? || t.Timer?
    ensures LaterRequestsHarmless(OnProceed(cfg, s, id), key, scope)
  {
    var task := s.tasks[id];
    hide LaterRequestsHarmless, OnRevokedRow, SerializeAccess, SerializeIntrospection, Fill, Visible;
    LaterQuiet(s, id, task, s.redis, key, scope);
    match task
    case CheckAccessKey(token, found) => LaterQuiet(s, id, DecideIntro(token, found), s.redis, key, scope);
    case DecideIntro(token, found) =>
      LaterFill(cfg, Finish(s, id), IntroKey(token), SerializeIntrospection(found), found.exp, key, scope);
    case Saved(t) => LaterFill(cfg, Finish(s, id), AccessKey(t.token), SerializeAccess(t), t.expiresAt, key, scope);
    case RevokedRow(token) => LaterRevokedRow(cfg, s, id, token, key, scope);
    case SetEntry(k, payload, ttl, decidedAt) =>
      LaterQuiet(s, id, task, s.redis[k := Entry(payload, ttl, decidedAt, s.clock)], key, scope);
    case Delete(k, _) => LaterQuiet(s, id, task, s.redis - {k}, key, scope);
    case Timer(k, _, _) => LaterQuiet(s, id, Delete(k, false), s.redis, key, scope);
  }

  lemma LaterProceed(cfg: Config, s: State, id: nat, key: Key, scope: Scope)
    requires id in s.tasks && !key.RevokedKey?
    requires LaterRequestsHarmless(s, key, scope) && DeadRow(s.table, key.token)
    requires Visible(s, RevokedKey(key.token)) || Harmless(s, key)
    ensures LaterRequestsHarmless(OnProceed(cfg, s, id), key, scope)
  {
    hide LaterRequestsHarmless, DeadRow, Visible, Harmless, OnRevokedRow, OnLookupAccess, OnLookupIntro, Introspect,
      OnReadAccess, OnReadIntro, OnAnswerAccess, OnAnswerIntro, OnSetEntry, SerializeAccess, SerializeIntrospection, Fill, Become, Finish;
    match s.tasks[id]
    case LookupAccess(token) => LaterLookup(s, id, token, key, scope);
    case LookupIntro(token) => LaterLookup(s, id, token, key, scope);
    case ReadAccess(token, fill) => LaterRead(cfg, s, id, token, fill, key, scope);
    case ReadIntro(token, fill) => LaterRead(cfg, s, id, token, fill, key, scope);
    case AnswerAccess(_, _, _) => LaterTold(cfg, s, id, key, scope);
    case AnswerIntro(_, _, _) => LaterTold(cfg, s, id, key, scope);
    case _ => LaterBackground(cfg, s, id, key, scope);
  }

  lemma LaterStep(cfg: Config, s: State, e: Step, key: Key, scope: Scope)
    requires scope.from <= s.nextId && !key.RevokedKey?
    requires LaterRequestsHarmless(s, key, scope) && DeadRow(s.table, key.token)
    requires Visible(s, RevokedKey(key.token)) || Harmless(s, key)
    ensures LaterRequestsHarmless(Next(cfg, s, e), key, scope)
  {
    hide OnProceed, ApplyOn, DeadRow, Visible;
    if e.Proceed? && e.id in s.tasks { LaterProceed(cfg, s, e.id, key, scope); }
  }

  // ---------- Whole runs ----------

  /** While the marker lives, every lookup sees it. */
  lemma {:induction false} MarkedRun(cfg: Config, s: State, es: seq<Step>, key: Key, scope: Scope, until: int)
    requires Sane(s) && scope.from <= s.nextId && !key.RevokedKey? && NoReissue(es, key.token)
    requires MarkerUntil(s, key.token, until) && DeadRow(s.table, key.token) && LaterRequestsHarmless(s, key, scope)
    requires After(cfg, s, es).clock < until
    ensures var r := After(cfg, s, es);
      Sane(r) && scope.from <= r.nextId && DeadRow(r.table, key.token) && LaterRequestsHarmless(r, key, scope) && s.clock <= r.clock
    ensures MarkerUntil(After(cfg, s, es), key.token, until)
    decreases |es|
  {
    hide Sane, DeadRow, LaterRequestsHarmless, Next;
    if es != [] {
      var e := es[0];
      var next := Next(cfg, s, e);
      ClockRuns(cfg, s, es);
      SaneStep(cfg, s, e);
      MarkerStep(cfg, s, e, key.token, until);
      DeadRowStaysDead(cfg, s, e, key.token);
      LaterStep(cfg, s, e, key, scope);
      MarkedRun(cfg, next, es[1..], key, scope, until);
    }
  }

  lemma {:induction false} ClockRuns(cfg: Config, s: State, es: seq<Step>)
    requires Sane(s)
    ensures s.clock <= After(cfg, s, es).clock
    decreases |es|
  {
    hide Sane, Next;
    if es != [] {
      SaneStep(cfg, s, es[0]);
      ClockRuns(cfg, Next(cfg, s, es[0]), es[1..]);
    }
  }

  /** Every reachable state is sane. */
  lemma {:induction false} ReachableIsSane(cfg: Config, s: State, es: seq<Step>)
    requires Sane(s) || s == INITIAL
    ensures Sane(After(cfg, s, es))
    decreases |es|
  {
    hide Next;
    if es != [] {
      SaneStep(cfg, s, es[0]);
      ReachableIsSane(cfg, Next(cfg, s, es[0]), es[1..]);
    }
  }

  /** The marker's SET executing is what `RevocationShield` calls a marked state. */
  lemma MarkerLands(cfg: Config, s: State, id: nat, token: string)
    requires Sane(s) && id in s.tasks && s.tasks[id].SetEntry? && s.tasks[id].key == RevokedKey(token)
    ensures var r := Next(cfg, s, Proceed(id));
      && RevokedKey(token) in r.redis && r.redis[RevokedKey(token)].Expires() == r.clock + 1000 * MARKER_SECONDS
      && r.table == s.table
  {
  }

  /** The shield does depend on the fill landing in time: a stale fill that is still in flight
      when no marker is left will be served as an unrevoked token, dead row or not. */
  lemma LateFillIsServed(cfg: Config, s: State, id: nat, t: AccessToken)
    requires id in s.tasks && Sane(s) && s.tasks[id].SetEntry? && s.tasks[id].ttl > 0
    requires s.tasks[id].key == AccessKey(t.token) && s.tasks[id].payload == SerializeAccess(t)
    requires !t.revoked && !Visible(s, RevokedKey(t.token))
    ensures var r := After(cfg, s, [Proceed(id), CallGet(t.token), Proceed(s.nextId)]);
      r.answers == s.answers + [AccessAnswer(s.nextId, t.token, Some(t.(orgId := None)))]
  {
    hide SerializeAccess, DeserializeAccess;
    AccessRoundTrip(t);
    var s1 := Next(cfg, s, Proceed(id));
    var s2 := Next(cfg, s1, CallGet(t.token));
    var s3 := Next(cfg, s2, Proceed(s.nextId));
    assert s2.tasks[s.nextId] == LookupAccess(t.token);
    assert Visible(s2, AccessKey(t.token)) && !Visible(s2, RevokedKey(t.token));
    assert LookUp(s2, t.token, AccessKey(t.token)) == Value(SerializeAccess(t));
    ThreeSteps(cfg, s, Proceed(id), CallGet(t.token), Proceed(s.nextId));
  }

  lemma ThreeSteps(cfg: Config, s: State, a: Step, b: Step, c: Step)
    ensures After(cfg, s, [a, b, c]) == Next(cfg, Next(cfg, Next(cfg, s, a), b), c)
  {
    hide Next;
    assert [a, b, c][1..] == [b, c] && [b, c][1..] == [c];
    var s2 := Next(cfg, Next(cfg, s, a), b);
    assert After(cfg, s2, [c]) == After(cfg, Next(cfg, s2, c), []);
    assert After(cfg, Next(cfg, s, a), [b, c]) == After(cfg, s2, [c]);
  }

  /** Once the key is clean, it stays so and every lookup falls through to the dead row. */
  lemma {:induction false} CleanRun(cfg: Config, s: State, es: seq<Step>, key: Key, scope: Scope)
    requires Sane(s) && scope.from <= s.nextId && !key.RevokedKey? && NoReissue(es, key.token)
    requires KeyClean(s, key) && DeadRow(s.table, key.token) && LaterRequestsHarmless(s, key, scope)
    ensures LaterRequestsHarmless(After(cfg, s, es), key, scope) && KeyClean(After(cfg, s, es), key)
    decreases |es|
  {
    hide Sane, DeadRow, LaterRequestsHarmless, Next, Harmless, NoStaleTask;
    if es != [] {
      SaneStep(cfg, s, es[0]);
      DeadRowStaysDead(cfg, s, es[0], key.token);
      LaterStep(cfg, s, es[0], key, scope);
      CleanStep(cfg, s, es[0], key);
      CleanRun(cfg, Next(cfg, s, es[0]), es[1..], key, scope);
    }
  }

  lemma NothingToldYet(s: State, key: Key)
    requires Sane(s)
    ensures LaterRequestsHarmless(s, key, LookupsFrom(s))
  {
  }

  /** The revocation shield, for one of the two positive keys of a token.  `marked` is a state
      whose row is dead and whose marker has just been set; the key's second delete executes
      before the marker expires and finds no stale fill in flight.  Then no request whose lookup
      executes from `marked` on is ever answered with an unrevoked token or an active
      introspection, on the hit, the miss or the Redis-error path. */
  lemma RevocationShield(cfg: Config, marked: State, es1: seq<Step>, id: nat, es2: seq<Step>, key: Key)
    requires Sane(marked) && !key.RevokedKey? && DeadRow(marked.table, key.token)
    requires RevokedKey(key.token) in marked.redis
    requires marked.redis[RevokedKey(key.token)].Expires() <= marked.clock + 1000 * MARKER_SECONDS
    requires NoReissue(es1, key.token) && NoReissue(es2, key.token)
    requires var s := After(cfg, marked, es1);
      && s.clock < marked.redis[RevokedKey(key.token)].Expires()
      && id in s.tasks && s.tasks[id].Delete? && s.tasks[id].key == key
      && NoStaleTask(s, key)
    ensures LaterRequestsHarmless(After(cfg, marked, es1), key, LookupsFrom(marked))
    ensures LaterRequestsHarmless(After(cfg, Next(cfg, After(cfg, marked, es1), Proceed(id)), es2), key, LookupsFrom(marked))
  {
    var until := marked.redis[RevokedKey(key.token)].Expires();
    var s, scope := After(cfg, marked, es1), LookupsFrom(marked);
    NothingToldYet(marked, key);
    MarkedRun(cfg, marked, es1, key, scope, until);
    DeleteCleans(cfg, s, id, key);
    hide Sane, NoStaleTask, Next, LaterRequestsHarmless, After, DeadRow, Harmless;
    SaneStep(cfg, s, Proceed(id));
    DeadRowStaysDead(cfg, s, Proceed(id), key.token);
    LaterStep(cfg, s, Proceed(id), key, scope);
    CleanRun(cfg, Next(cfg, s, Proceed(id)), es2, key, scope);
  }

  lemma {:induction false} DeadRowRun(cfg: Config, s: State, es: seq<Step>, token: string)
    requires DeadRow(s.table, token) && NoReissue(es, token)
    ensures DeadRow(After(cfg, s, es).table, token)
    decreases |es|
  {
    hide DeadRow, Next;
    if es != [] {
      DeadRowStaysDead(cfg, s, es[0], token);
      DeadRowRun(cfg, Next(cfg, s, es[0]), es[1..], token);
    }
  }

  /** The whole story, from the start: any run, a revoke call that takes, any run, the marker's SET,
      any run, the key's second delete before the marker expires and with no stale fill in flight,
      any run.  No request whose lookup executes after the SET, even one made before it, is ever
      answered with an unrevoked token or an active introspection. */
  lemma RevokedForGood(cfg: Config, key: Key,
                       es0: seq<Step>, s0: State, revoke: Step,
                       es1: seq<Step>, s1: State, setId: nat, marked: State,
                       es2: seq<Step>, s2: State, deleteId: nat,
                       es3: seq<Step>, s3: State)
    requires !key.RevokedKey? && s0 == After(cfg, INITIAL, es0)
    requires revoke.CallRevoke? && revoke.token == key.token && Revokes(cfg.backend, s0.table, key.token, revoke.no)
    requires s1 == After(cfg, Next(cfg, s0, revoke), es1)
    requires setId in s1.tasks && s1.tasks[setId].SetEntry? && s1.tasks[setId].key == RevokedKey(key.token)
    requires marked == Next(cfg, s1, Proceed(setId)) && s2 == After(cfg, marked, es2)
    requires s2.clock < marked.clock + 1000 * MARKER_SECONDS
    requires deleteId in s2.tasks && s2.tasks[deleteId].Delete? && s2.tasks[deleteId].key == key && NoStaleTask(s2, key)
    requires s3 == After(cfg, Next(cfg, s2, Proceed(deleteId)), es3)
    requires NoReissue(es1, key.token) && NoReissue(es2, key.token) && NoReissue(es3, key.token)
    ensures LaterRequestsHarmless(s2, key, LookupsFrom(marked)) && LaterRequestsHarmless(s3, key, LookupsFrom(marked))
  {
    ReachableIsSane(cfg, INITIAL, es0);
    SaneStep(cfg, s0, revoke);
    RevokeKillsRowIff(cfg, s0, key.token, revoke.revokedBy, revoke.no);
    hide Next, After, Sane, DeadRow, NoStaleTask, LaterRequestsHarmless, Revokes, NoReissue;
    var r := Next(cfg, s0, revoke);
    ReachableIsSane(cfg, r, es1);
    DeadRowRun(cfg, r, es1, key.token);
    MarkerLands(cfg, s1, setId, key.token);
    SaneStep(cfg, s1, Proceed(setId));
    RevocationShield(cfg, marked, es2, deleteId, es3, key);
  }

  // ---------- A refresh token is not shielded ----------

  /** Behind Postgres, revokeAccessToken on a refresh token changes no row; the marker hides it for
      sixty seconds, and then it introspects as active again. */
  lemma RefreshTokenOutlivesRevoke(maxTtl: int, delayMs: int, r: RefreshToken, revokedBy: string, no: Refusals)
    requires !r.revoked && r.expiresAt >= 60
    ensures var cfg := Config(maxTtl, delayMs, Postgres);
      var s := After(cfg, INITIAL, [StoreCall(IssueRefresh(r), NONE_REFUSED), CallRevoke(r.token, revokedBy, no), Proceed(0), Proceed(1)]);
      && Visible(s, RevokedKey(r.token)) && s.table.refresh == map[r.token := r]
      && After(cfg, s, [Tick(60000), CallIntrospect(r.token), Proceed(6), Proceed(6), Proceed(6)]).answers
           == [IntroAnswer(6, r.token, OfRefresh(r))]
  {
    var cfg := Config(maxTtl, delayMs, Postgres);
    var a, b := StoreCall(IssueRefresh(r), NONE_REFUSED), CallRevoke(r.token, revokedBy, no);
    var s2 := Next(cfg, Next(cfg, INITIAL, a), b);
    RevokeLeavesRefresh(cfg, r, revokedBy, no);
    FourSteps(cfg, INITIAL, a, b, Proceed(0), Proceed(1));
    hide Next;
    OnlyMarked(cfg, s2, r.token);
    IntrospectsAgain(cfg, Next(cfg, Next(cfg, s2, Proceed(0)), Proceed(1)), r);
  }

  lemma RevokeLeavesRefresh(cfg: Config, r: RefreshToken, revokedBy: string, no: Refusals)
    requires cfg.backend.Postgres?
    ensures var s := Next(cfg, Next(cfg, INITIAL, StoreCall(IssueRefresh(r), NONE_REFUSED)), CallRevoke(r.token, revokedBy, no));
      && s.table == Store(map[], map[r.token := r]) && s.redis == map[] && s.tasks == map[0 := RevokedRow(r.token)]
      && s.nextId == 1 && s.clock == 0 && s.answers == []
  {
    assert Next(cfg, INITIAL, StoreCall(IssueRefresh(r), NONE_REFUSED)).table == Store(map[], map[r.token := r]);
  }

  lemma OnlyMarked(cfg: Config, s: State, token: string)
    requires s.redis == map[] && s.tasks == map[0 := RevokedRow(token)] && s.nextId == 1 && s.clock == 0 && s.answers == []
    ensures var r := Next(cfg, Next(cfg, s, Proceed(0)), Proceed(1));
      && r.redis == map[RevokedKey(token) := Entry(map[], MARKER_SECONDS, 0, 0)]
      && r.table == s.table && r.nextId == 6 && r.clock == 0 && r.answers == []
  {
    var s1 := Next(cfg, s, Proceed(0));
    assert s1.tasks[1] == SetEntry(RevokedKey(token), map[], MARKER_SECONDS, 0);
  }

  lemma IntrospectsAgain(cfg: Config, s: State, r: RefreshToken)
    requires !r.revoked && r.expiresAt >= 60 && s.table == Store(map[], map[r.token := r])
    requires s.redis == map[RevokedKey(r.token) := Entry(map[], MARKER_SECONDS, 0, 0)]
    requires s.nextId == 6 && s.clock == 0 && s.answers == []
    ensures After(cfg, s, [Tick(60000), CallIntrospect(r.token), Proceed(6), Proceed(6), Proceed(6)]).answers
              == [IntroAnswer(6, r.token, OfRefresh(r))]
  {
    var s4 := Next(cfg, s, Tick(60000));
    var s5 := Next(cfg, s4, CallIntrospect(r.token));
    assert s5.tasks[6] == LookupIntro(r.token);
    assert !Visible(s5, RevokedKey(r.token)) && !Visible(s5, IntroKey(r.token));
    var s6 := Next(cfg, s5, Proceed(6));
    assert s6.tasks[6] == ReadIntro(r.token, true);
    var s7 := Next(cfg, s6, Proceed(6));
    assert s7.tasks[6] == AnswerIntro(r.token, true, OfRefresh(r));
    var s8 := Next(cfg, s7, Proceed(6));
    hide Next;
    var es := [Tick(60000), CallIntrospect(r.token), Proceed(6), Proceed(6), Proceed(6)];
    assert es[1..] == [CallIntrospect(r.token), Proceed(6), Proceed(6), Proceed(6)];
    FourSteps(cfg, s4, CallIntrospect(r.token), Proceed(6), Proceed(6), Proceed(6));
  }

  lemma FourSteps(cfg: Config, s: State, a: Step, b: Step, c: Step, d: Step)
    ensures After(cfg, s, [a, b, c, d]) == Next(cfg, Next(cfg, Next(cfg, Next(cfg, s, a), b), c), d)
  {
    hide Next;
    assert [a, b, c, d][1..] == [b, c, d];
    ThreeSteps(cfg, Next(cfg, s, a), b, c, d);
  }
}
