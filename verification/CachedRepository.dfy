/** RedisCachedTokenRepository as an object: what each call and each callback does for its caller,
    and the revocation shield over any schedule of them. */
module CachedRepository {
  import opened Options
  import opened Tokens
  import opened TokenStore
  import opened TokenRuns
  import opened TokenTiers
  import opened TokenCodec
  import opened TokenCache
  import opened TokenShield

  class RedisCachedTokenRepository {
    const cfg: Config
    var clock: int
    var redis: map<Key, Entry>
    var table: Store
    var tasks: map<nat, Task>
    var nextId: nat
    var answers: seq<Answer>
    var calls: set<Op>
    var seen: set<AccessToken>
    var rows: set<AccessToken>

    function Value(): TokenCache.State
      reads this
    {
      TokenCache.State(clock, redis, table, tasks, nextId, answers, calls, seen, rows)
    }

    constructor (cfg: Config)
      ensures this.cfg == cfg && Value() == INITIAL
    {
      this.cfg := cfg;
      clock, redis, table, tasks, nextId, answers := 0, map[], EMPTY, map[], 0, [];
      calls, seen, rows := {}, {}, {};
    }

    method Start(t: Task) returns (id: nat)
      modifies this
      ensures Value() == Spawn(old(Value()), t) && id == old(nextId)
    {
      id := nextId;
      tasks := tasks[id := t];
      nextId := id + 1;
    }

    // ---------- Calls ----------

    /** A new request: nothing is answered or stored yet. */
    method GetAccessToken(token: string) returns (id: nat)
      modifies this
      ensures Value() == Next(cfg, old(Value()), CallGet(token))
      ensures redis == old(redis) && table == old(table) && answers == old(answers)
      ensures Sane(old(Value())) ==> forall i :: 0 <= i < |answers| ==> answers[i].id != id
    {
      id := Start(LookupAccess(token));
    }

    method IntrospectToken(token: string) returns (id: nat)
      modifies this
      ensures Value() == Next(cfg, old(Value()), CallIntrospect(token))
      ensures redis == old(redis) && table == old(table) && answers == old(answers)
      ensures Sane(old(Value())) ==> forall i :: 0 <= i < |answers| ==> answers[i].id != id
    {
      id := Start(LookupIntro(token));
    }

    /** The row first: it is dead exactly when the wrapped repository revokes it. The cache is not
        touched before its callback. */
    method RevokeAccessToken(token: string, revokedBy: string, no: Refusals)
      modifies this
      ensures Value() == Next(cfg, old(Value()), CallRevoke(token, revokedBy, no))
      ensures DeadRow(table, token) <==> Revokes(cfg.backend, old(table), token, no)
      ensures redis == old(redis) && answers == old(answers)
    {
      RevokeKillsRowIff(cfg, Value(), token, revokedBy, no);
      table := ApplyOn(cfg.backend, table, Event(clock / 1000, RevokeToken(token, revokedBy)), no);
      calls := calls + {RevokeToken(token, revokedBy)};
      var _ := Start(RevokedRow(token));
    }

    /** The saved row is the one a read finds; no other row and no cache entry changes. */
    method SaveAccessToken(t: AccessToken)
      modifies this
      ensures Value() == Next(cfg, old(Value()), CallSave(t))
      ensures table.refresh == old(table).refresh && table.access == old(table).access[t.token := Stamped(t, clock / 1000)]
      ensures redis == old(redis) && answers == old(answers)
    {
      table := SaveAccess(table, t, clock / 1000);
      calls, seen := calls + {Issue(t)}, seen + {t};
      var _ := Start(Saved(t));
    }

    /** A call on the wrapped repository that goes past the cache. */
    method CallStore(op: Op, no: Refusals)
      modifies this
      ensures Value() == Next(cfg, old(Value()), StoreCall(op, no))
      ensures redis == old(redis) && answers == old(answers) && tasks == old(tasks)
    {
      table := ApplyOn(cfg.backend, table, Event(clock / 1000, op), no);
      calls := calls + {op};
    }

    method Elapse(ms: nat)
      modifies this
      ensures Value() == Next(cfg, old(Value()), Tick(ms))
      ensures forall key :: Visible(Value(), key) ==> Visible(old(Value()), key)
    {
      clock := clock + ms;
    }

    // ---------- Fills and deletes ----------

    /** A SET is sent exactly when the token has lifetime left, and for no longer than that or the
        maximum; nothing is visible before it executes. */
    method FillEntry(key: Key, payload: Payload, expiresAt: int)
      modifies this
      ensures Value() == Fill(cfg, old(Value()), key, payload, expiresAt)
      ensures redis == old(redis) && table == old(table) && answers == old(answers)
      ensures nextId == old(nextId) <==> expiresAt <= clock / 1000
      ensures nextId > old(nextId) ==> var t := tasks[old(nextId)];
        t.SetEntry? && t.key == key && 0 < t.ttl <= EffectiveTtl(cfg.maxTtl) && t.ttl <= expiresAt - clock / 1000
    {
      var remaining := expiresAt - clock / 1000;
      if remaining > 0 {
        var ttl := remaining;
        if EffectiveTtl(cfg.maxTtl) <= ttl { ttl := EffectiveTtl(cfg.maxTtl); }
        var _ := Start(SetEntry(key, payload, ttl, clock));
      }
    }

    /** One delete now and one 50 to 2000 ms later. */
    method InvalidateWithDoubleDelete(key: Key)
      modifies this
      ensures Value() == DoubleDelete(cfg, old(Value()), key)
      ensures redis == old(redis) && table == old(table) && answers == old(answers) && nextId == old(nextId) + 2
      ensures tasks[old(nextId)] == Delete(key, false)
      ensures var t := tasks[old(nextId) + 1]; t.Timer? && t.key == key && clock + 50 <= t.due <= clock + 2000
    {
      var _ := Start(Delete(key, false));
      var _ := Start(Timer(key, clock, clock + EffectiveDelay(cfg.delayMs)));
    }

    // ---------- Callbacks of a read ----------

    /** The marker wins: no token, whatever is cached. Without it a readable entry is the answer;
        without that the table will be read. */
    method OnAccessReply(id: nat)
      requires id in tasks && tasks[id].LookupAccess?
      modifies this
      ensures Value() == Next(cfg, old(Value()), Proceed(id))
      ensures redis == old(redis) && table == old(table)
      ensures var token := old(tasks)[id].token; var key := AccessKey(token);
        var cached := if Visible(old(Value()), key) then DeserializeAccess(redis[key].payload) else None;
        if Visible(old(Value()), RevokedKey(token)) then answers == old(answers) + [AccessAnswer(id, token, None)]
        else if cached.Some? then answers == old(answers) + [AccessAnswer(id, token, cached)]
        else answers == old(answers) && id in tasks && tasks[id] == ReadAccess(token, true)
    {
      var token := tasks[id].token;
      var reply := LookUp(Value(), token, AccessKey(token));
      if reply.Revoked? {
        answers, tasks := answers + [AccessAnswer(id, token, None)], tasks - {id};
        return;
      }
      if reply.Value? {
        var cached := DeserializeAccess(reply.payload);
        if cached.Some? {
          answers, tasks := answers + [AccessAnswer(id, token, cached)], tasks - {id};
          return;
        }
      }
      tasks := tasks[id := ReadAccess(token, true)];
    }

    /** The read answers nobody yet, and on a dead row it has nothing harmful to say. */
    method OnAccessRead(id: nat)
      requires id in tasks && tasks[id].ReadAccess?
      modifies this
      ensures Value() == Next(cfg, old(Value()), Proceed(id))
      ensures redis == old(redis) && table == old(table) && answers == old(answers)
      ensures id in tasks && tasks[id].AnswerAccess?
      ensures var row := old(tasks)[id].token;
        tasks[id].got.Some? <==> row in table.access && (cfg.backend.Memory? ==> !table.access[row].revoked && table.access[row].expiresAt > clock / 1000)
      ensures DeadRow(table, old(tasks)[id].token) ==> HarmlessAccess(tasks[id].got)
    {
      var task := tasks[id];
      DeadReadsOnly(cfg.backend, table, task.token, clock / 1000);
      var got := WrappedGet(cfg.backend, table, task.token, clock / 1000);
      if got.Some? { seen := seen + {got.value}; }
      tasks := tasks[id := AnswerAccess(task.token, task.fill, got)];
    }

    /** The caller gets what the table said; a fill follows only on the miss path. */
    method OnAccessAnswer(id: nat)
      requires id in tasks && tasks[id].AnswerAccess?
      modifies this
      ensures Value() == Next(cfg, old(Value()), Proceed(id))
      ensures redis == old(redis) && table == old(table)
      ensures answers == old(answers) + [AccessAnswer(id, old(tasks)[id].token, old(tasks)[id].got)]
      ensures var t := old(tasks)[id];
        nextId == old(nextId) + if t.fill && t.got.Some? && t.got.value.expiresAt > clock / 1000 then 1 else 0
    {
      var task := tasks[id];
      answers, tasks := answers + [AccessAnswer(id, task.token, task.got)], tasks - {id};
      if task.fill && task.got.Some? {
        FillEntry(AccessKey(task.token), SerializeAccess(task.got.value), task.got.value.expiresAt);
      }
    }

    method OnIntroReply(id: nat)
      requires id in tasks && tasks[id].LookupIntro?
      modifies this
      ensures Value() == Next(cfg, old(Value()), Proceed(id))
      ensures redis == old(redis) && table == old(table)
      ensures var token := old(tasks)[id].token; var key := IntroKey(token);
        var cached := if Visible(old(Value()), key) then DeserializeIntrospection(redis[key].payload) else None;
        if Visible(old(Value()), RevokedKey(token)) then answers == old(answers) + [IntroAnswer(id, token, INACTIVE)]
        else if cached.Some? then answers == old(answers) + [IntroAnswer(id, token, cached.value)]
        else answers == old(answers) && id in tasks && tasks[id] == ReadIntro(token, true)
    {
      var token := tasks[id].token;
      var reply := LookUp(Value(), token, IntroKey(token));
      if reply.Revoked? {
        answers, tasks := answers + [IntroAnswer(id, token, INACTIVE)], tasks - {id};
        return;
      }
      if reply.Value? {
        var cached := DeserializeIntrospection(reply.payload);
        if cached.Some? {
          answers, tasks := answers + [IntroAnswer(id, token, cached.value)], tasks - {id};
          return;
        }
      }
      tasks := tasks[id := ReadIntro(token, true)];
    }

    method OnIntroRead(id: nat)
      requires id in tasks && tasks[id].ReadIntro?
      modifies this
      ensures Value() == Next(cfg, old(Value()), Proceed(id))
      ensures redis == old(redis) && table == old(table) && answers == old(answers)
      ensures id in tasks && tasks[id].AnswerIntro?
      ensures DeadRow(table, old(tasks)[id].token) ==> !tasks[id].found.active
    {
      var task := tasks[id];
      DeadReadsOnly(cfg.backend, table, task.token, clock / 1000);
      if task.token in table.access { rows := rows + {table.access[task.token]}; }
      tasks := tasks[id := AnswerIntro(task.token, task.fill, Introspect(table, task.token, clock / 1000))];
    }

    /** The caller gets what the table said; an inactive answer is never a candidate for the cache. */
    method OnIntroAnswer(id: nat)
      requires id in tasks && tasks[id].AnswerIntro?
      modifies this
      ensures Value() == Next(cfg, old(Value()), Proceed(id))
      ensures redis == old(redis) && table == old(table)
      ensures answers == old(answers) + [IntroAnswer(id, old(tasks)[id].token, old(tasks)[id].found)]
      ensures var t := old(tasks)[id];
        tasks == if t.fill && t.found.active then (old(tasks) - {id})[old(nextId) := CheckAccessKey(t.token, t.found)] else old(tasks) - {id}
    {
      var task := tasks[id];
      answers, tasks := answers + [IntroAnswer(id, task.token, task.found)], tasks - {id};
      if task.fill && task.found.active {
        var _ := Start(CheckAccessKey(task.token, task.found));
      }
    }

    /** Without a visible access entry, which only access tokens ever get, the answer is not cached. */
    method OnExistsReply(id: nat)
      requires id in tasks && tasks[id].CheckAccessKey?
      modifies this
      ensures Value() == Next(cfg, old(Value()), Proceed(id))
      ensures redis == old(redis) && table == old(table) && answers == old(answers)
      ensures id in tasks <==> Visible(Value(), AccessKey(old(tasks)[id].token))
    {
      var task := tasks[id];
      if Visible(Value(), AccessKey(task.token)) {
        tasks := tasks[id := DecideIntro(task.token, task.found)];
      } else {
        tasks := tasks - {id};
      }
    }

    /** Sends the introspection's SET exactly when it has lifetime left. */
    method OnIntroFill(id: nat)
      requires id in tasks && tasks[id].DecideIntro?
      modifies this
      ensures Value() == Next(cfg, old(Value()), Proceed(id))
      ensures redis == old(redis) && table == old(table) && answers == old(answers)
      ensures nextId == old(nextId) <==> old(tasks)[id].found.exp <= clock / 1000
    {
      var task := tasks[id];
      tasks := tasks - {id};
      FillEntry(IntroKey(task.token), SerializeIntrospection(task.found), task.found.exp);
    }

    // ---------- Callbacks of a write ----------

    /** Warms the access entry exactly when the token has lifetime left. */
    method OnSaved(id: nat)
      requires id in tasks && tasks[id].Saved?
      modifies this
      ensures Value() == Next(cfg, old(Value()), Proceed(id))
      ensures redis == old(redis) && table == old(table) && answers == old(answers)
      ensures nextId == old(nextId) <==> old(tasks)[id].access.expiresAt <= clock / 1000
    {
      var t := tasks[id].access;
      tasks := tasks - {id};
      FillEntry(AccessKey(t.token), SerializeAccess(t), t.expiresAt);
    }

    /** The marker is sent before any delete, and each positive key gets both its deletes. */
    method OnRowRevoked(id: nat)
      requires id in tasks && tasks[id].RevokedRow? && id < nextId
      modifies this
      ensures Value() == Next(cfg, old(Value()), Proceed(id))
      ensures redis == old(redis) && table == old(table) && answers == old(answers)
      ensures var token, n := old(tasks)[id].token, old(nextId);
        && nextId == n + 5 && tasks[n] == SetEntry(RevokedKey(token), map[], MARKER_SECONDS, clock)
        && tasks[n + 1] == Delete(AccessKey(token), false) && tasks[n + 2].Timer? && tasks[n + 2].key == AccessKey(token)
        && tasks[n + 3] == Delete(IntroKey(token), false) && tasks[n + 4].Timer? && tasks[n + 4].key == IntroKey(token)
    {
      var token := tasks[id].token;
      ProceedRevoked(cfg, Value(), id);
      RevokedTasks(cfg, Value(), id);
      hide Next, DoubleDelete;
      tasks := tasks - {id};
      var _ := Start(SetEntry(RevokedKey(token), map[], MARKER_SECONDS, clock));
      InvalidateWithDoubleDelete(AccessKey(token));
      InvalidateWithDoubleDelete(IntroKey(token));
    }

    /** The entry lives for its TTL from now; every other key, the table and the answers stay. */
    method OnSet(id: nat)
      requires id in tasks && tasks[id].SetEntry?
      modifies this
      ensures Value() == Next(cfg, old(Value()), Proceed(id))
      ensures table == old(table) && answers == old(answers)
      ensures forall k :: k != old(tasks)[id].key ==> (k in redis <==> k in old(redis)) && (k in redis ==> redis[k] == old(redis)[k])
      ensures var t := old(tasks)[id];
        t.key in redis && redis[t.key].payload == t.payload && redis[t.key].Expires() == clock + 1000 * t.ttl
    {
      var task := tasks[id];
      redis := redis[task.key := Entry(task.payload, task.ttl, task.decidedAt, clock)];
      tasks := tasks - {id};
    }

    /** The key is gone; every other key, the table and the answers stay. */
    method OnDelete(id: nat)
      requires id in tasks && tasks[id].Delete?
      modifies this
      ensures Value() == Next(cfg, old(Value()), Proceed(id))
      ensures table == old(table) && answers == old(answers) && !Visible(Value(), old(tasks)[id].key)
      ensures forall k :: k != old(tasks)[id].key ==> (k in redis <==> k in old(redis)) && (k in redis ==> redis[k] == old(redis)[k])
    {
      redis := redis - {tasks[id].key};
      tasks := tasks - {id};
    }

    /** Nothing happens before the timer is due; then the second delete is sent. */
    method OnTimer(id: nat)
      requires id in tasks && tasks[id].Timer?
      modifies this
      ensures Value() == Next(cfg, old(Value()), Proceed(id))
      ensures redis == old(redis) && table == old(table) && answers == old(answers)
      ensures tasks == if clock < old(tasks)[id].due then old(tasks) else old(tasks)[id := Delete(old(tasks)[id].key, false)]
    {
      var task := tasks[id];
      if clock >= task.due {
        tasks := tasks[id := Delete(task.key, false)];
      }
    }

    /** A Redis error answers nobody and stores nothing: a failed lookup reads the table and will not
        fill, a failed delete is retried once, a failed SET is lost. */
    method OnRedisError(id: nat)
      requires id in tasks
      modifies this
      ensures Value() == Next(cfg, old(Value()), Fail(id))
      ensures redis == old(redis) && table == old(table) && answers == old(answers) && nextId == old(nextId)
      ensures old(tasks)[id].LookupAccess? ==> tasks[id] == ReadAccess(old(tasks)[id].token, false)
      ensures old(tasks)[id].LookupIntro? ==> tasks[id] == ReadIntro(old(tasks)[id].token, false)
      ensures old(tasks)[id].Delete? ==> (id in tasks <==> !old(tasks)[id].isRetry)
      ensures old(tasks)[id].SetEntry? ==> id !in tasks
    {
      match tasks[id] {
        case LookupAccess(token) => tasks := tasks[id := ReadAccess(token, false)];
        case LookupIntro(token) => tasks := tasks[id := ReadIntro(token, false)];
        case Delete(key, isRetry) =>
          if isRetry {
            tasks := tasks - {id};
          } else {
            tasks := tasks[id := Delete(key, true)];
          }
        case CheckAccessKey(_, _) => tasks := tasks - {id};
        case SetEntry(_, _, _, _) => tasks := tasks - {id};
        case _ =>
      }
    }

    // ---------- Any schedule ----------

    /** The callback of a task, whichever it is. */
    method Continue(id: nat)
      requires id in tasks && id < nextId
      modifies this
      ensures Value() == Next(cfg, old(Value()), Proceed(id))
    {
      match tasks[id] {
        case LookupAccess(_) => OnAccessReply(id);
        case ReadAccess(_, _) => OnAccessRead(id);
        case AnswerAccess(_, _, _) => OnAccessAnswer(id);
        case LookupIntro(_) => OnIntroReply(id);
        case ReadIntro(_, _) => OnIntroRead(id);
        case AnswerIntro(_, _, _) => OnIntroAnswer(id);
        case CheckAccessKey(_, _) => OnExistsReply(id);
        case DecideIntro(_, _) => OnIntroFill(id);
        case Saved(_) => OnSaved(id);
        case RevokedRow(_) => OnRowRevoked(id);
        case SetEntry(_, _, _, _) => OnSet(id);
        case Delete(_, _) => OnDelete(id);
        case Timer(_, _, _) => OnTimer(id);
      }
    }

    method Perform(e: Step)
      requires Sane(Value())
      modifies this
      ensures Value() == Next(cfg, old(Value()), e) && Sane(Value())
    {
      SaneStep(cfg, Value(), e);
      hide Next;
      match e {
        case Tick(ms) => Elapse(ms);
        case StoreCall(op, no) => CallStore(op, no);
        case CallGet(token) => var _ := GetAccessToken(token);
        case CallIntrospect(token) => var _ := IntrospectToken(token);
        case CallRevoke(token, revokedBy, no) => RevokeAccessToken(token, revokedBy, no);
        case CallSave(t) => SaveAccessToken(t);
        case Proceed(id) =>
          NoSuchTask(cfg, Value(), id);
          if id in tasks { Continue(id); }
        case Fail(id) =>
          NoSuchTask(cfg, Value(), id);
          if id in tasks { OnRedisError(id); }
      }
    }

    method Run(es: seq<Step>)
      requires Sane(Value())
      modifies this
      ensures Value() == After(cfg, old(Value()), es) && Sane(Value())
    {
      assert es[0..] == es;
      for k := 0 to |es|
        invariant Sane(Value()) && After(cfg, Value(), es[k..]) == After(cfg, old(Value()), es)
      {
        hide Next, Sane;
        assert es[k..][0] == es[k] && es[k..][1..] == es[k + 1..];
        Perform(es[k]);
      }
    }

    /** The shield on the object: run anything, revoke, run anything, let the marker's SET execute, run
        anything, let the key's second delete execute in time, run anything. Every answer to a request
        whose lookup executed after the SET is harmless. */
    method RevokeForGood(key: Key, es0: seq<Step>, revoke: Step, es1: seq<Step>, setId: nat, es2: seq<Step>, deleteId: nat, es3: seq<Step>)
      returns (scope: Scope)
      requires Value() == INITIAL && !key.RevokedKey? && revoke.CallRevoke? && revoke.token == key.token
      requires Revokes(cfg.backend, After(cfg, INITIAL, es0).table, key.token, revoke.no)
      requires var s1 := After(cfg, Next(cfg, After(cfg, INITIAL, es0), revoke), es1);
        && setId in s1.tasks && s1.tasks[setId].SetEntry? && s1.tasks[setId].key == RevokedKey(key.token)
        && var marked := Next(cfg, s1, Proceed(setId)); var s2 := After(cfg, marked, es2);
           && s2.clock < marked.clock + 1000 * MARKER_SECONDS
           && deleteId in s2.tasks && s2.tasks[deleteId].Delete? && s2.tasks[deleteId].key == key && NoStaleTask(s2, key)
      requires NoReissue(es1, key.token) && NoReissue(es2, key.token) && NoReissue(es3, key.token)
      modifies this
      ensures forall i :: 0 <= i < |answers| && scope.Covers(answers[i].id) ==> HarmlessAnswer(key, answers[i])
      ensures forall id :: id >= nextId ==> scope.Covers(id)
    {
      hide Next, After, NoStaleTask, NoReissue, Revokes, HarmlessAnswer, HarmlessTask;
      Run(es0);
      ghost var s0 := Value();
      Perform(revoke);
      Run(es1);
      ghost var s1 := Value();
      Perform(Proceed(setId));
      ghost var marked := Value();
      scope := LookupsFrom(Value());
      Run(es2);
      ghost var s2 := Value();
      Perform(Proceed(deleteId));
      Run(es3);
      RevokedForGood(cfg, key, es0, s0, revoke, es1, s1, setId, marked, es2, s2, deleteId, es3, Value());
      NumbersGrow(cfg, marked, es2, deleteId, es3);
    }
  }

  lemma ProceedRevoked(cfg: Config, s: TokenCache.State, id: nat)
    requires id in s.tasks && s.tasks[id].RevokedRow?
    ensures var token := s.tasks[id].token;
      Next(cfg, s, Proceed(id)) ==
        DoubleDelete(cfg, DoubleDelete(cfg, Spawn(Finish(s, id), SetEntry(RevokedKey(token), map[], MARKER_SECONDS, s.clock)),
                                       AccessKey(token)), IntroKey(token))
  {
    hide DoubleDelete;
  }

  lemma RevokedTasks(cfg: Config, s: TokenCache.State, id: nat)
    requires id in s.tasks && s.tasks[id].RevokedRow? && id < s.nextId
    ensures var token, n, r := s.tasks[id].token, s.nextId, Next(cfg, s, Proceed(id));
      && r.redis == s.redis && r.table == s.table && r.answers == s.answers && r.nextId == n + 5
      && r.tasks.Keys >= {n, n + 1, n + 2, n + 3, n + 4}
      && r.tasks[n] == SetEntry(RevokedKey(token), map[], MARKER_SECONDS, s.clock)
      && r.tasks[n + 1] == Delete(AccessKey(token), false) && r.tasks[n + 2].Timer? && r.tasks[n + 2].key == AccessKey(token)
      && r.tasks[n + 3] == Delete(IntroKey(token), false) && r.tasks[n + 4].Timer? && r.tasks[n + 4].key == IntroKey(token)
  {
    hide EffectiveDelay;
  }

  lemma NoSuchTask(cfg: Config, s: TokenCache.State, id: nat)
    requires Sane(s)
    ensures id !in s.tasks ==> Next(cfg, s, Proceed(id)) == s && Next(cfg, s, Fail(id)) == s
    ensures id in s.tasks ==> id < s.nextId
  {
  }

  lemma DeadReadsOnly(b: Backend, table: Store, token: string, seconds: int)
    ensures DeadRow(table, token) ==> HarmlessAccess(WrappedGet(b, table, token, seconds))
    ensures DeadRow(table, token) ==> !Introspect(table, token, seconds).active
  {
    if DeadRow(table, token) { DeadReads(b, table, token, seconds); }
  }

  lemma {:induction false} NextIdGrows(cfg: Config, s: TokenCache.State, es: seq<Step>)
    requires Sane(s)
    ensures s.nextId <= After(cfg, s, es).nextId && Sane(After(cfg, s, es))
    decreases |es|
  {
    hide Next, Sane;
    if es != [] {
      SaneStep(cfg, s, es[0]);
      NextIdGrows(cfg, Next(cfg, s, es[0]), es[1..]);
    }
  }

  lemma NumbersGrow(cfg: Config, s: TokenCache.State, es1: seq<Step>, id: nat, es2: seq<Step>)
    requires Sane(s)
    ensures s.nextId <= After(cfg, Next(cfg, After(cfg, s, es1), Proceed(id)), es2).nextId
  {
    NextIdGrows(cfg, s, es1);
    var s1 := After(cfg, s, es1);
    SaneStep(cfg, s1, Proceed(id));
    NextIdGrows(cfg, Next(cfg, s1, Proceed(id)), es2);
  }
}
