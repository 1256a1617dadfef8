/** Bounded staleness: what every reachable cache state can hold, and until when. */
module TokenStaleness {
  import opened Options
  import opened Tokens
  import opened TokenStore
  import opened TokenRuns
  import opened TokenTiers
  import opened TokenCodec
  import opened TokenCache
  import TokenShield

  // ---------- Provenance ----------

  ghost predicate AccessIssued(calls: set<Op>, token: string)
  {
    exists op :: op in calls && op.Issue? && op.access.token == token
  }

  ghost predicate RefreshIssued(calls: set<Op>, token: string)
  {
    exists op :: op in calls && op.IssueRefresh? && op.refresh.token == token
  }

  /** The wrapped repository returned or saved `t` under the key `token`. */
  ghost predicate Known(s: State, token: string, t: AccessToken)
  {
    t in s.seen && t.token == token && AccessIssued(s.calls, token)
  }

  /** An active introspection the table gave for `token`: of an access row it held and the
      introspection read, or of a refresh token. */
  ghost predicate Found(s: State, token: string, r: Introspection)
  {
    r.active && ((exists t :: t in s.rows && r == OfAccess(t) && t.token == token) || RefreshIssued(s.calls, token))
  }

  /** A fill's TTL: what the token had left when it was decided, capped. */
  predicate FillTtl(cfg: Config, ttl: int, expiresAt: int, decidedAt: int)
  {
    expiresAt > decidedAt / 1000 && ttl == Capped(cfg, expiresAt - decidedAt / 1000)
  }

  ghost predicate FillOk(cfg: Config, s: State, key: Key, p: Payload, ttl: int, decidedAt: int)
  {
    decidedAt <= s.clock &&
    match key
    case AccessKey(token) =>
      exists t :: Known(s, token, t) && p == SerializeAccess(t) && FillTtl(cfg, ttl, t.expiresAt, decidedAt)
    case IntroKey(token) =>
      AccessIssued(s.calls, token) &&
      exists r :: Found(s, token, r) && p == SerializeIntrospection(r) && FillTtl(cfg, ttl, r.exp, decidedAt)
    case RevokedKey(_) => ttl == MARKER_SECONDS
  }

  ghost predicate EntryOk(cfg: Config, s: State, key: Key, e: Entry)
  {
    FillOk(cfg, s, key, e.payload, e.ttl, e.decidedAt) && e.decidedAt <= e.landedAt <= s.clock
  }

  ghost predicate TaskOk(cfg: Config, s: State, t: Task)
  {
    match t
    case AnswerAccess(token, _, got) => got.Some? ==> Known(s, token, got.value)
    case Saved(a) => Known(s, a.token, a)
    case AnswerIntro(token, _, r) => r.active ==> Found(s, token, r)
    case CheckAccessKey(token, r) => Found(s, token, r)
    case DecideIntro(token, r) => Found(s, token, r) && AccessIssued(s.calls, token)
    case SetEntry(key, p, ttl, decidedAt) => FillOk(cfg, s, key, p, ttl, decidedAt)
    case _ => true
  }

  ghost predicate TableOk(table: Store, calls: set<Op>)
  {
    && (forall k :: k in table.access ==> table.access[k].token == k && AccessIssued(calls, k))
    && (forall k :: k in table.refresh ==> RefreshIssued(calls, k))
  }

  ghost predicate Inv(cfg: Config, s: State)
  {
    && TableOk(s.table, s.calls)
    && (forall id :: id in s.tasks ==> TaskOk(cfg, s, s.tasks[id]))
    && (forall key :: key in s.redis ==> EntryOk(cfg, s, key, s.redis[key]))
  }

  // ---------- Everything known stays known ----------

  ghost predicate Grows(s: State, r: State) { s.clock <= r.clock && s.calls <= r.calls && s.seen <= r.seen && s.rows <= r.rows }

  lemma KnownGrows(s: State, r: State, token: string, t: AccessToken, i: Introspection)
    requires Grows(s, r)
    ensures AccessIssued(s.calls, token) ==> AccessIssued(r.calls, token)
    ensures RefreshIssued(s.calls, token) ==> RefreshIssued(r.calls, token)
    ensures Known(s, token, t) ==> Known(r, token, t)
    ensures Found(s, token, i) ==> Found(r, token, i)
  {
  }

  lemma FillGrows(cfg: Config, s: State, r: State, key: Key, p: Payload, ttl: int, decidedAt: int)
    requires Grows(s, r) && FillOk(cfg, s, key, p, ttl, decidedAt)
    ensures FillOk(cfg, r, key, p, ttl, decidedAt)
  {
    hide Known, Found, AccessIssued, SerializeAccess, SerializeIntrospection, FillTtl;
    match key
    case AccessKey(token) =>
      var t :| Known(s, token, t) && p == SerializeAccess(t) && FillTtl(cfg, ttl, t.expiresAt, decidedAt);
      KnownGrows(s, r, token, t, INACTIVE);
    case IntroKey(token) =>
      var i :| Found(s, token, i) && p == SerializeIntrospection(i) && FillTtl(cfg, ttl, i.exp, decidedAt);
      KnownGrows(s, r, token, SomeAccess(), i);
    case RevokedKey(_) =>
  }

  lemma TaskGrows(cfg: Config, s: State, r: State, t: Task)
    requires Grows(s, r) && TaskOk(cfg, s, t)
    ensures TaskOk(cfg, r, t)
  {
    hide Known, Found, AccessIssued, FillOk, Grows;
    match t
    case AnswerAccess(token, _, got) => if got.Some? { KnownGrows(s, r, token, got.value, INACTIVE); }
    case Saved(a) => KnownGrows(s, r, a.token, a, INACTIVE);
    case AnswerIntro(token, _, i) => KnownGrows(s, r, token, SomeAccess(), i);
    case CheckAccessKey(token, i) => KnownGrows(s, r, token, SomeAccess(), i);
    case DecideIntro(token, i) => KnownGrows(s, r, token, SomeAccess(), i);
    case SetEntry(key, p, ttl, decidedAt) => FillGrows(cfg, s, r, key, p, ttl, decidedAt);
    case _ =>
  }

  /** A step that only adds knowledge, drops tasks or drops entries, and one task `t` and one
      entry `e` that are in order themselves. */
  lemma InvGrows(cfg: Config, s: State, r: State, id: nat, key: Key)
    requires Inv(cfg, s) && Grows(s, r) && TableOk(r.table, r.calls)
    requires forall i :: i in r.tasks && i != id ==> i in s.tasks && r.tasks[i] == s.tasks[i]
    requires id in r.tasks ==> TaskOk(cfg, r, r.tasks[id])
    requires forall k :: k in r.redis && k != key ==> k in s.redis && r.redis[k] == s.redis[k]
    requires key in r.redis ==> EntryOk(cfg, r, key, r.redis[key])
    ensures Inv(cfg, r)
  {
    hide TaskOk, FillOk, TableOk;
    forall i | i in r.tasks
      ensures TaskOk(cfg, r, r.tasks[i])
    {
      if i != id { TaskGrows(cfg, s, r, r.tasks[i]); }
    }
    forall k | k in r.redis
      ensures EntryOk(cfg, r, k, r.redis[k])
    {
      if k != key {
        var e := r.redis[k];
        assert EntryOk(cfg, s, k, e);
        FillGrows(cfg, s, r, k, e.payload, e.ttl, e.decidedAt);
      }
    }
  }

  lemma SameEntry(cfg: Config, s: State, r: State, key: Key)
    requires Inv(cfg, s) && Grows(s, r) && r.redis == s.redis
    ensures key in r.redis ==> EntryOk(cfg, r, key, r.redis[key])
  {
    hide TaskOk, FillOk, TableOk;
    if key in r.redis {
      var e := r.redis[key];
      FillGrows(cfg, s, r, key, e.payload, e.ttl, e.decidedAt);
    }
  }

  /** Changes of the task list alone: one task replaced, dropped or added. */
  lemma InvTask(cfg: Config, s: State, r: State, id: nat)
    requires Inv(cfg, s) && Grows(s, r) && r.redis == s.redis && r.table == s.table && r.calls == s.calls
    requires forall i :: i in r.tasks && i != id ==> i in s.tasks && r.tasks[i] == s.tasks[i]
    requires id in r.tasks ==> TaskOk(cfg, r, r.tasks[id])
    ensures Inv(cfg, r)
  {
    SameEntry(cfg, s, r, AccessKey(""));
    InvGrows(cfg, s, r, id, AccessKey(""));
  }

  lemma InvSpawn(cfg: Config, s: State, t: Task)
    requires Inv(cfg, s) && TaskOk(cfg, s, t)
    ensures Inv(cfg, Spawn(s, t))
  {
    hide Inv;
    TaskGrows(cfg, s, Spawn(s, t), t);
    InvTask(cfg, s, Spawn(s, t), s.nextId);
  }

  lemma InvDrop(cfg: Config, s: State, id: nat, answers: seq<Answer>)
    requires Inv(cfg, s)
    ensures Inv(cfg, Finish(s, id)) && Inv(cfg, Finish(s.(answers := answers), id))
  {
    hide Inv;
    InvTask(cfg, s, Finish(s, id), id);
    InvTask(cfg, s, Finish(s.(answers := answers), id), id);
  }

  lemma InvBecome(cfg: Config, s: State, id: nat, t: Task)
    requires Inv(cfg, s) && TaskOk(cfg, s, t)
    ensures Inv(cfg, Become(s, id, t))
  {
    hide Inv;
    TaskGrows(cfg, s, Become(s, id, t), t);
    InvTask(cfg, s, Become(s, id, t), id);
  }

  lemma InvFill(cfg: Config, s: State, key: Key, p: Payload, expiresAt: int)
    requires Inv(cfg, s)
    requires expiresAt > Seconds(s) ==> FillOk(cfg, s, key, p, Capped(cfg, expiresAt - Seconds(s)), s.clock)
    ensures Inv(cfg, Fill(cfg, s, key, p, expiresAt))
  {
    hide Inv, FillOk;
    var remaining := expiresAt - Seconds(s);
    if remaining > 0 {
      InvSpawn(cfg, s, SetEntry(key, p, Capped(cfg, remaining), s.clock));
    }
  }

  // ---------- The table ----------

  lemma TableStep(b: Backend, table: Store, calls: set<Op>, e: Event, no: Refusals)
    requires TableOk(table, calls)
    ensures TableOk(ApplyOn(b, table, e, no), calls + {e.op})
  {
    if b.Postgres? && e.op.RevokeToken? {
      RevokeAccessOnlyRevokes(table, e.op.key, e.op.revokedBy, e.now, no);
      hide PostgresRevokeAccess;
      TableKept(table, ApplyOn(b, table, e, no), calls, e.op);
    } else if b.Postgres? && e.op.KillFamily? {
      RevokeFamilyOnlyRevokes(table, e.op.family, no);
      hide PostgresRevokeFamily;
      TableKept(table, ApplyOn(b, table, e, no), calls, e.op);
    } else {
      TableApply(table, calls, e);
      hide Apply;
    }
  }

  lemma TableKept(table: Store, after: Store, calls: set<Op>, op: Op)
    requires TableOk(table, calls) && OnlyRevokes(table, after)
    ensures TableOk(after, calls + {op})
  {
    forall k | k in after.access
      ensures after.access[k].token == k && AccessIssued(calls + {op}, k)
    {
      assert k in table.access && AccessIssued(calls, k);
    }
    forall k | k in after.refresh
      ensures RefreshIssued(calls + {op}, k)
    {
      assert k in table.refresh && RefreshIssued(calls, k);
    }
  }

  lemma TableApply(table: Store, calls: set<Op>, e: Event)
    requires TableOk(table, calls)
    ensures TableOk(Apply(table, e), calls + {e.op})
  {
    var more, after := calls + {e.op}, Apply(table, e);
    forall k | k in after.access
      ensures after.access[k].token == k && AccessIssued(more, k)
    {
      if k in table.access { assert AccessIssued(calls, k); }
    }
    forall k | k in after.refresh
      ensures RefreshIssued(more, k)
    {
      if k in table.refresh { assert RefreshIssued(calls, k); }
    }
  }

  lemma InvWrite(cfg: Config, s: State, op: Op, no: Refusals, seen: set<AccessToken>)
    requires Inv(cfg, s) && s.seen <= seen
    ensures Inv(cfg, WriteTable(cfg, s, op, no).(seen := seen))
  {
    hide ApplyOn;
    var r := WriteTable(cfg, s, op, no).(seen := seen);
    TableStep(cfg.backend, s.table, s.calls, Event(Seconds(s), op), no);
    SameEntry(cfg, s, r, AccessKey(""));
    if s.nextId in s.tasks { TaskGrows(cfg, s, r, s.tasks[s.nextId]); }
    InvGrows(cfg, s, r, s.nextId, AccessKey(""));
  }

  lemma ReadsAreKnown(cfg: Config, s: State, token: string)
    requires TableOk(s.table, s.calls)
    ensures var got := WrappedGet(cfg.backend, s.table, token, Seconds(s));
      got.Some? ==> got.value.token == token && AccessIssued(s.calls, token)
    ensures var r := Introspect(s.table, token, Seconds(s));
      var read := s.(rows := if token in s.table.access then s.rows + {s.table.access[token]} else s.rows);
      r.active ==> Found(read, token, r)
  {
    if token in s.table.access {
      assert OfAccess(s.table.access[token]).active;
    }
  }

  // ---------- One step ----------

  lemma InvReadAccess(cfg: Config, s: State, id: nat, token: string, fill: bool)
    requires Inv(cfg, s)
    ensures Inv(cfg, OnReadAccess(cfg, s, id, token, fill))
  {
    ReadsAreKnown(cfg, s, token);
    hide WrappedGet, Inv, TableOk;
    var got := WrappedGet(cfg.backend, s.table, token, Seconds(s));
    var r := s.(seen := if got.Some? then s.seen + {got.value} else s.seen);
    var dropped := Finish(r, id);
    InvTask(cfg, s, dropped, id);
    InvTask(cfg, dropped, Become(r, id, AnswerAccess(token, fill, got)), id);
  }

  lemma InvReadIntro(cfg: Config, s: State, id: nat, token: string, fill: bool)
    requires Inv(cfg, s)
    ensures Inv(cfg, OnReadIntro(s, id, token, fill))
  {
    ReadsAreKnown(cfg, s, token);
    hide Introspect, Inv, TableOk, Found;
    var found := Introspect(s.table, token, Seconds(s));
    var r := s.(rows := if token in s.table.access then s.rows + {s.table.access[token]} else s.rows);
    var dropped := Finish(r, id);
    InvTask(cfg, s, dropped, id);
    KnownGrows(r, Become(r, id, AnswerIntro(token, fill, found)), token, SomeAccess(), found);
    InvTask(cfg, dropped, Become(r, id, AnswerIntro(token, fill, found)), id);
  }

  lemma InvAnswer(cfg: Config, s: State, id: nat)
    requires Inv(cfg, s) && id in s.tasks
    requires s.tasks[id].AnswerAccess? || s.tasks[id].AnswerIntro?
    ensures Inv(cfg, OnProceed(cfg, s, id))
  {
    var task := s.tasks[id];
    assert TaskOk(cfg, s, task);
    hide Inv, SerializeAccess, SerializeIntrospection, Known, Found;
    match task
    case AnswerAccess(token, fill, got) =>
      var told := Finish(Tell(s, AccessAnswer(id, token, got)), id);
      InvDrop(cfg, s, id, s.answers + [AccessAnswer(id, token, got)]);
      if got.Some? {
        KnownGrows(s, told, token, got.value, INACTIVE);
        InvFill(cfg, told, AccessKey(token), SerializeAccess(got.value), got.value.expiresAt);
      }
    case AnswerIntro(token, fill, found) =>
      var told := Finish(Tell(s, IntroAnswer(id, token, found)), id);
      InvDrop(cfg, s, id, s.answers + [IntroAnswer(id, token, found)]);
      if fill && found.active {
        KnownGrows(s, told, token, SomeAccess(), found);
        InvSpawn(cfg, told, CheckAccessKey(token, found));
      }
  }

  lemma InvIntroFill(cfg: Config, s: State, id: nat)
    requires Inv(cfg, s) && id in s.tasks
    requires s.tasks[id].CheckAccessKey? || s.tasks[id].DecideIntro? || s.tasks[id].Saved?
    ensures Inv(cfg, OnProceed(cfg, s, id))
  {
    var task := s.tasks[id];
    assert TaskOk(cfg, s, task);
    var told := Finish(s, id);
    InvDrop(cfg, s, id, s.answers);
    if task.CheckAccessKey? && Visible(s, AccessKey(task.token)) {
      assert EntryOk(cfg, s, AccessKey(task.token), s.redis[AccessKey(task.token)]);
      assert AccessIssued(s.calls, task.token);
    }
    hide Inv, SerializeAccess, SerializeIntrospection, Known, Found, AccessIssued;
    match task
    case CheckAccessKey(token, found) =>
      if Visible(s, AccessKey(token)) { InvBecome(cfg, s, id, DecideIntro(token, found)); }
    case DecideIntro(token, found) =>
      KnownGrows(s, told, token, SomeAccess(), found);
      InvFill(cfg, told, IntroKey(token), SerializeIntrospection(found), found.exp);
    case Saved(t) =>
      KnownGrows(s, told, t.token, t, INACTIVE);
      InvFill(cfg, told, AccessKey(t.token), SerializeAccess(t), t.expiresAt);
  }

  lemma InvRedis(cfg: Config, s: State, id: nat)
    requires Inv(cfg, s) && id in s.tasks && (s.tasks[id].SetEntry? || s.tasks[id].Delete? || s.tasks[id].Timer?)
    ensures Inv(cfg, OnProceed(cfg, s, id))
  {
    var task, r := s.tasks[id], OnProceed(cfg, s, id);
    assert TaskOk(cfg, s, task);
    hide Inv, FillOk, TableOk;
    match task
    case SetEntry(key, p, ttl, decidedAt) =>
      FillGrows(cfg, s, r, key, p, ttl, decidedAt);
      assert EntryOk(cfg, r, key, r.redis[key]) by { FillInPast(cfg, s, key, p, ttl, decidedAt); }
      assert TableOk(r.table, r.calls) by { InvTable(cfg, s); }
      InvGrows(cfg, s, r, id, key);
    case Delete(key, _) =>
      assert TableOk(r.table, r.calls) by { InvTable(cfg, s); }
      InvGrows(cfg, s, r, id, key);
    case Timer(key, _, _) => InvBecome(cfg, s, id, Delete(key, false));
  }

  lemma FillInPast(cfg: Config, s: State, key: Key, p: Payload, ttl: int, decidedAt: int)
    requires FillOk(cfg, s, key, p, ttl, decidedAt)
    ensures decidedAt <= s.clock
  {
  }

  lemma InvTable(cfg: Config, s: State)
    requires Inv(cfg, s)
    ensures TableOk(s.table, s.calls)
  {
  }

  lemma InvRevokedRow(cfg: Config, s: State, id: nat, token: string)
    requires Inv(cfg, s)
    ensures Inv(cfg, OnRevokedRow(cfg, s, id, token))
  {
    hide Inv;
    InvDrop(cfg, s, id, s.answers);
    var s0 := Finish(s, id);
    InvSpawn(cfg, s0, SetEntry(RevokedKey(token), map[], MARKER_SECONDS, s.clock));
    var s1 := Spawn(s0, SetEntry(RevokedKey(token), map[], MARKER_SECONDS, s.clock));
    InvDoubleDelete(cfg, s1, AccessKey(token));
    InvDoubleDelete(cfg, DoubleDelete(cfg, s1, AccessKey(token)), IntroKey(token));
  }

  lemma InvDoubleDelete(cfg: Config, s: State, key: Key)
    requires Inv(cfg, s)
    ensures Inv(cfg, DoubleDelete(cfg, s, key))
  {
    hide Inv;
    InvSpawn(cfg, s, Delete(key, false));
    InvSpawn(cfg, Spawn(s, Delete(key, false)), Timer(key, s.clock, s.clock + EffectiveDelay(cfg.delayMs)));
  }

  lemma InvProceed(cfg: Config, s: State, id: nat)
    requires Inv(cfg, s) && id in s.tasks
    ensures Inv(cfg, OnProceed(cfg, s, id))
  {
    var task := s.tasks[id];
    if task.AnswerAccess? || task.AnswerIntro? {
      InvAnswer(cfg, s, id);
    } else if task.CheckAccessKey? || task.DecideIntro? || task.Saved? {
      InvIntroFill(cfg, s, id);
    } else if task.SetEntry? || task.Delete? || task.Timer? {
      InvRedis(cfg, s, id);
    } else {
      hide Inv, LookUp, OnRevokedRow, OnReadAccess, OnReadIntro, DeserializeAccess, DeserializeIntrospection;
      match task
      case ReadIntro(token, fill) => InvReadIntro(cfg, s, id, token, fill);
      case RevokedRow(token) => InvRevokedRow(cfg, s, id, token);
      case ReadAccess(token, fill) => InvReadAccess(cfg, s, id, token, fill);
      case LookupAccess(token) => InvLookup(cfg, s, id, token);
      case LookupIntro(token) => InvLookup(cfg, s, id, token);
    }
  }

  lemma InvLookup(cfg: Config, s: State, id: nat, token: string)
    requires Inv(cfg, s)
    ensures Inv(cfg, OnLookupAccess(s, id, token)) && Inv(cfg, OnLookupIntro(s, id, token))
  {
    hide Inv, LookUp, DeserializeAccess, DeserializeIntrospection;
    InvBecome(cfg, s, id, ReadAccess(token, true));
    InvBecome(cfg, s, id, ReadIntro(token, true));
    forall a: Answer
      ensures Inv(cfg, Finish(Tell(s, a), id))
    {
      InvDrop(cfg, s, id, s.answers + [a]);
    }
  }

  lemma InvStep(cfg: Config, s: State, e: Step)
    requires Inv(cfg, s)
    ensures Inv(cfg, Next(cfg, s, e))
  {
    hide Inv, OnProceed, TaskOk, WriteTable;
    match e
    case Tick(ms) => InvTick(cfg, s, ms);
    case StoreCall(op, no) => InvWrite(cfg, s, op, no, s.seen); SeenKept(cfg, s, op, no);
    case CallGet(token) => InvQuiet(cfg, s, 0, LookupAccess(token));
    case CallIntrospect(token) => InvQuiet(cfg, s, 0, LookupIntro(token));
    case CallRevoke(token, revokedBy, no) =>
      var op := RevokeToken(token, revokedBy);
      InvWrite(cfg, s, op, no, s.seen);
      SeenKept(cfg, s, op, no);
      InvQuiet(cfg, WriteTable(cfg, s, op, no), 0, RevokedRow(token));
    case CallSave(t) => InvSave(cfg, s, t);
    case Proceed(id) => if id in s.tasks { InvProceed(cfg, s, id); }
    case Fail(id) => if id in s.tasks { InvFail(cfg, s, id); }
  }

  lemma SeenKept(cfg: Config, s: State, op: Op, no: Refusals)
    ensures WriteTable(cfg, s, op, no).(seen := s.seen) == WriteTable(cfg, s, op, no)
  {
  }

  lemma InvQuiet(cfg: Config, s: State, id: nat, t: Task)
    requires Inv(cfg, s)
    requires t.LookupAccess? || t.LookupIntro? || t.RevokedRow? || t.ReadAccess? || t.ReadIntro? || t.Delete?
    ensures Inv(cfg, Spawn(s, t)) && Inv(cfg, Become(s, id, t))
  {
    hide Inv;
    InvSpawn(cfg, s, t);
    InvBecome(cfg, s, id, t);
  }

  lemma InvTick(cfg: Config, s: State, ms: nat)
    requires Inv(cfg, s)
    ensures Inv(cfg, s.(clock := s.clock + ms))
  {
    var r := s.(clock := s.clock + ms);
    if s.nextId in s.tasks { TaskGrows(cfg, s, r, s.tasks[s.nextId]); }
    hide Inv, TaskOk;
    InvTask(cfg, s, r, s.nextId);
  }

  lemma InvSave(cfg: Config, s: State, t: AccessToken)
    requires Inv(cfg, s)
    ensures Inv(cfg, Next(cfg, s, CallSave(t)))
  {
    hide Inv;
    var r := WriteTable(cfg, s, Issue(t), NONE_REFUSED).(seen := s.seen + {t});
    InvWrite(cfg, s, Issue(t), NONE_REFUSED, s.seen + {t});
    assert AccessIssued(r.calls, t.token) by { assert Issue(t) in r.calls; }
    InvSpawn(cfg, r, Saved(t));
  }

  lemma InvFail(cfg: Config, s: State, id: nat)
    requires Inv(cfg, s) && id in s.tasks
    ensures Inv(cfg, OnFail(s, id))
  {
    hide Inv;
    InvDrop(cfg, s, id, s.answers);
    match s.tasks[id]
    case LookupAccess(token) => InvQuiet(cfg, s, id, ReadAccess(token, false));
    case LookupIntro(token) => InvQuiet(cfg, s, id, ReadIntro(token, false));
    case Delete(key, _) => InvQuiet(cfg, s, id, Delete(key, true));
    case _ =>
  }

  // ---------- Every reachable state ----------

  lemma {:induction false} ReachableInv(cfg: Config, s: State, es: seq<Step>)
    requires Inv(cfg, s)
    ensures Inv(cfg, After(cfg, s, es))
    decreases |es|
  {
    hide Inv, Next;
    if es != [] {
      InvStep(cfg, s, es[0]);
      ReachableInv(cfg, Next(cfg, s, es[0]), es[1..]);
    }
  }

  ghost predicate NeverBoth(calls: set<Op>)
  {
    forall a, r :: a in calls && r in calls && a.Issue? && r.IssueRefresh? ==> a.access.token != r.refresh.token
  }

  /** A visible access entry is, on its thirteen serialised fields, a token the wrapped
      repository returned or saved.  It is visible for less than the maximum TTL after its SET,
      and past the token's expiry at most for the part of a second the fill was decided in plus
      the time the SET took. */
  lemma AccessHitIsBounded(cfg: Config, es: seq<Step>, token: string)
    requires Visible(After(cfg, INITIAL, es), AccessKey(token))
    ensures var s := After(cfg, INITIAL, es);
      var e := s.redis[AccessKey(token)];
      && e.decidedAt <= e.landedAt <= s.clock < e.landedAt + 1000 * EffectiveTtl(cfg.maxTtl)
      && exists t :: t in s.seen && t.token == token
           && DeserializeAccess(e.payload) == Some(t.(orgId := None))
           && s.clock < 1000 * t.expiresAt + e.decidedAt % 1000 + (e.landedAt - e.decidedAt)
  {
    var s := After(cfg, INITIAL, es);
    var t := AccessSource(cfg, es, token);
    AccessRoundTrip(t);
    hide SerializeAccess, DeserializeAccess, After;
  }

  /** Where an access entry of a reachable state comes from. */
  lemma AccessSource(cfg: Config, es: seq<Step>, token: string) returns (t: AccessToken)
    requires AccessKey(token) in After(cfg, INITIAL, es).redis
    ensures var s := After(cfg, INITIAL, es);
      var e := s.redis[AccessKey(token)];
      && t in s.seen && t.token == token && e.payload == SerializeAccess(t)
      && FillTtl(cfg, e.ttl, t.expiresAt, e.decidedAt) && e.decidedAt <= e.landedAt <= s.clock
  {
    assert Inv(cfg, INITIAL);
    ReachableInv(cfg, INITIAL, es);
    var s := After(cfg, INITIAL, es);
    var e := s.redis[AccessKey(token)];
    assert EntryOk(cfg, s, AccessKey(token), e);
    hide SerializeAccess, After, Inv;
    t :| Known(s, token, t) && e.payload == SerializeAccess(t) && FillTtl(cfg, e.ttl, t.expiresAt, e.decidedAt);
  }

  /** A visible introspection entry is the active answer about an access row the table held when the
      introspection read it, never about a refresh token, under the same bounds. */
  lemma IntrospectionHitIsBounded(cfg: Config, es: seq<Step>, token: string)
    requires NeverBoth(After(cfg, INITIAL, es).calls)
    requires Visible(After(cfg, INITIAL, es), IntroKey(token))
    ensures var s := After(cfg, INITIAL, es);
      var e := s.redis[IntroKey(token)];
      && AccessIssued(s.calls, token) && !RefreshIssued(s.calls, token)
      && e.decidedAt <= e.landedAt <= s.clock < e.landedAt + 1000 * EffectiveTtl(cfg.maxTtl)
      && exists t :: t in s.rows && t.token == token
           && DeserializeIntrospection(e.payload) == Some(OfAccess(t).(orgId := None))
           && s.clock < 1000 * t.expiresAt + e.decidedAt % 1000 + (e.landedAt - e.decidedAt)
  {
    assert Inv(cfg, INITIAL);
    ReachableInv(cfg, INITIAL, es);
    var s := After(cfg, INITIAL, es);
    var e := s.redis[IntroKey(token)];
    assert EntryOk(cfg, s, IntroKey(token), e);
    hide SerializeIntrospection, DeserializeIntrospection, After;
    assert !RefreshIssued(s.calls, token);
    var r :| Found(s, token, r) && e.payload == SerializeIntrospection(r) && FillTtl(cfg, e.ttl, r.exp, e.decidedAt);
    var t :| t in s.rows && r == OfAccess(t) && t.token == token;
    IntrospectionRoundTrip(r);
  }

  /** The bound is met: a token that expires at second 1, saved and cached 999 ms into second 0,
      is still served at 1500 ms, when the table itself no longer returns it. */
  lemma HitAfterExpiry(cfg: Config, t: AccessToken)
    requires t.expiresAt == 1
    ensures var s := After(cfg, INITIAL, [CallSave(t), Tick(999), Proceed(0), Proceed(1), Tick(501)]);
      && Visible(s, AccessKey(t.token)) && Seconds(s) >= t.expiresAt
      && DeserializeAccess(s.redis[AccessKey(t.token)].payload) == Some(t.(orgId := None))
      && GetAccess(s.table, t.token, Seconds(s)) == None
  {
    hide SerializeAccess, DeserializeAccess;
    AccessRoundTrip(t);
    var s1 := Next(cfg, INITIAL, CallSave(t));
    var s2 := Next(cfg, s1, Tick(999));
    var s3 := Next(cfg, s2, Proceed(0));
    assert s2.tasks[0] == Saved(t);
    assert s3.tasks[1] == SetEntry(AccessKey(t.token), SerializeAccess(t), 1, 999);
    var s4 := Next(cfg, s3, Proceed(1));
    var s5 := Next(cfg, s4, Tick(501));
    assert s5.redis[AccessKey(t.token)] == Entry(SerializeAccess(t), 1, 999, 999);
    assert s5.table == s1.table == SaveAccess(EMPTY, t, 0);
    FiveSteps(cfg, INITIAL, CallSave(t), Tick(999), Proceed(0), Proceed(1), Tick(501));
  }

  /** A hit loses the organisation: a live token saved with one is served from the cache without it,
      while either wrapped repository returns it. */
  lemma OrganisationLostOnHit(cfg: Config, t: AccessToken, org: int)
    requires t.orgId == Some(org) && t.expiresAt > 0 && !t.revoked
    ensures var s := After(cfg, INITIAL, [CallSave(t), Proceed(0), Proceed(1), CallGet(t.token), Proceed(2)]);
      && s.answers == [AccessAnswer(2, t.token, Some(t.(orgId := None)))]
      && WrappedGet(cfg.backend, s.table, t.token, Seconds(s)).Some?
      && WrappedGet(cfg.backend, s.table, t.token, Seconds(s)).value.orgId == Some(org)
  {
    hide SerializeAccess, DeserializeAccess;
    AccessRoundTrip(t);
    var s1 := Next(cfg, INITIAL, CallSave(t));
    assert s1.tasks[0] == Saved(t) && s1.table == SaveAccess(EMPTY, t, 0);
    var s2 := Next(cfg, s1, Proceed(0));
    assert s2.tasks[1] == SetEntry(AccessKey(t.token), SerializeAccess(t), Capped(cfg, t.expiresAt), 0);
    var s3 := Next(cfg, s2, Proceed(1));
    assert s3.redis == map[AccessKey(t.token) := Entry(SerializeAccess(t), Capped(cfg, t.expiresAt), 0, 0)];
    assert s3.nextId == 2 && s3.clock == 0 && s3.answers == [] && s3.table == s1.table;
    HitAnswers(cfg, s3, t);
    hide Next;
    FiveSteps(cfg, INITIAL, CallSave(t), Proceed(0), Proceed(1), CallGet(t.token), Proceed(2));
  }

  lemma HitAnswers(cfg: Config, s: State, t: AccessToken)
    requires AccessKey(t.token) in s.redis && s.redis.Keys == {AccessKey(t.token)} && Visible(s, AccessKey(t.token))
    requires s.redis[AccessKey(t.token)].payload == SerializeAccess(t)
    requires s.nextId == 2 && s.answers == []
    ensures var r := Next(cfg, Next(cfg, s, CallGet(t.token)), Proceed(2));
      r.answers == [AccessAnswer(2, t.token, Some(t.(orgId := None)))] && r.table == s.table && r.clock == s.clock
  {
    hide SerializeAccess, DeserializeAccess;
    AccessRoundTrip(t);
    var s1 := Next(cfg, s, CallGet(t.token));
    assert s1.tasks[2] == LookupAccess(t.token);
    assert LookUp(s1, t.token, AccessKey(t.token)) == Value(SerializeAccess(t));
  }

  /** Exactly when an entry outlives its token: every visible access entry of every reachable state,
      left alone, is still visible at some instant at or past the expiry if and only if the part of a
      second gone when its fill was decided plus the time its SET took exceeds the slack the maximum
      TTL left. */
  lemma OutlivesTokenIff(cfg: Config, es: seq<Step>, token: string)
    requires Visible(After(cfg, INITIAL, es), AccessKey(token))
    ensures var s := After(cfg, INITIAL, es);
      var e := s.redis[AccessKey(token)];
      exists t :: t in s.seen && t.token == token && e.payload == SerializeAccess(t)
        && var remaining := t.expiresAt - e.decidedAt / 1000;
           ((exists ms: nat :: ServedPastExpiry(cfg, s, token, t, ms)) <==>
             e.decidedAt % 1000 + (e.landedAt - e.decidedAt) > 1000 * (remaining - Capped(cfg, remaining)))
  {
    var s := After(cfg, INITIAL, es);
    var e := s.redis[AccessKey(token)];
    var t := AccessSource(cfg, es, token);
    hide SerializeAccess, After;
    assert e.decidedAt == 1000 * (e.decidedAt / 1000) + e.decidedAt % 1000;
    forall ms: nat
      ensures ServedPastExpiry(cfg, s, token, t, ms) <==> 1000 * t.expiresAt <= s.clock + ms < e.Expires()
    {
    }
    if e.Expires() > 1000 * t.expiresAt {
      var ms: nat := if 1000 * t.expiresAt > s.clock then 1000 * t.expiresAt - s.clock else 0;
      assert ServedPastExpiry(cfg, s, token, t, ms);
    }
  }

  ghost predicate ServedPastExpiry(cfg: Config, s: State, token: string, t: AccessToken, ms: nat)
  {
    var r := Next(cfg, s, Tick(ms));
    Visible(r, AccessKey(token)) && r.clock >= 1000 * t.expiresAt
  }

  lemma FiveSteps(cfg: Config, s: State, a: Step, b: Step, c: Step, d: Step, e: Step)
    ensures After(cfg, s, [a, b, c, d, e]) == Next(cfg, Next(cfg, Next(cfg, Next(cfg, Next(cfg, s, a), b), c), d), e)
  {
    hide Next;
    assert [a, b, c, d, e][1..] == [b, c, d, e] && [b, c, d, e][1..] == [c, d, e];
    TokenShield.ThreeSteps(cfg, Next(cfg, Next(cfg, s, a), b), c, d, e);
    assert After(cfg, Next(cfg, s, a), [b, c, d, e]) == After(cfg, Next(cfg, Next(cfg, s, a), b), [c, d, e]);
  }
}
