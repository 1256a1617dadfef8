/** PostgresTokenRepository::saveTokenPair: any number of concurrent saves, each a chain of
    callbacks inside one transaction, answering its caller through a single-invocation guard. */
module TokenPairs {
  import opened Options
  import opened Tokens

  /** The columns the INSERTs name; NULL where the statement leaves an optional column out. */
  datatype AccessRow = AccessRow(clientId: string, userId: string, scope: string, expiresAt: int, revoked: bool,
                                 issuer: string, orgId: Option<int>)

  datatype RefreshRow = RefreshRow(accessToken: string, clientId: string, userId: string, scope: string,
                                   expiresAt: int, revoked: bool, familyId: Option<string>, orgId: Option<int>)

  function ToAccessRow(at: AccessToken): AccessRow
  {
    AccessRow(at.clientId, at.userId, at.scope, at.expiresAt, at.revoked, at.issuer, at.orgId)
  }

  function ToRefreshRow(rt: RefreshToken): RefreshRow
  {
    RefreshRow(rt.accessToken, rt.clientId, rt.userId, rt.scope, rt.expiresAt, rt.revoked,
               if rt.familyId == "" then None else Some(rt.familyId), rt.orgId)
  }

  /** An entry of a table's primary-key index: `owner` is the call that inserted it (None for a
      row that was there at the start), and it is not visible to others until committed. */
  datatype Entry<T> = Entry(row: T, owner: Option<nat>, committed: bool)

  /** What a call is waiting for. `Settled` has released its transaction, if it had one. */
  datatype Phase = Acquiring | InsertingAccess | InsertingRefresh | Committing | Settled(transaction: bool)

  datatype Call = Call(at: AccessToken, rt: RefreshToken, phase: Phase, invoked: bool, answers: seq<bool>)
  {
    /** invokeOnce. */
    function Told(ok: bool): Call
    {
      if invoked then this else this.(invoked := true, answers := answers + [ok])
    }
  }

  datatype State = State(
    access: map<string, Entry<AccessRow>>, refresh: map<string, Entry<RefreshRow>>, calls: map<nat, Call>)

  /** A callback that fires, or a new call. */
  datatype Event =
    | Save(id: nat, at: AccessToken, rt: RefreshToken, client: bool)
    | Acquired(id: nat, transaction: bool)
    | AccessReply(id: nat, inserted: bool)
    | RefreshReply(id: nat, inserted: bool)
    | CommitReply(id: nat, committed: bool)
    /** A commit callback although the transaction has ended. */
    | LateCommit(id: nat, committed: bool)

  /** Which events can occur: each reply answers a statement that is outstanding, and the primary
      key lets an INSERT succeed only when neither a row nor an open transaction holds the key. */
  predicate Enabled(s: State, e: Event)
  {
    match e
    case Save(id, _, _, _) => id !in s.calls
    case Acquired(id, _) => id in s.calls && s.calls[id].phase.Acquiring?
    case AccessReply(id, inserted) => id in s.calls && s.calls[id].phase.InsertingAccess?
                                      && (inserted ==> s.calls[id].at.token !in s.access)
    case RefreshReply(id, inserted) => id in s.calls && s.calls[id].phase.InsertingRefresh?
                                       && (inserted ==> s.calls[id].rt.token !in s.refresh)
    case CommitReply(id, _) => id in s.calls && s.calls[id].phase.Committing?
    case LateCommit(id, _) => id in s.calls && s.calls[id].phase.Settled? && s.calls[id].phase.transaction
  }

  function RolledBack<T>(table: map<string, Entry<T>>, id: nat): (r: map<string, Entry<T>>)
  {
    map k | k in table && !(table[k].owner == Some(id) && !table[k].committed) :: table[k]
  }

  function Committed<T>(table: map<string, Entry<T>>, id: nat): (r: map<string, Entry<T>>)
  {
    map k | k in table :: if table[k].owner == Some(id) then table[k].(committed := true) else table[k]
  }

  function Updated(s: State, id: nat, c: Call): State { s.(calls := s.calls[id := c]) }

  /** The transaction is rolled back and the caller told so. */
  function Failed(s: State, id: nat): State
    requires id in s.calls
  {
    State(RolledBack(s.access, id), RolledBack(s.refresh, id),
          s.calls[id := s.calls[id].Told(false).(phase := Settled(true))])
  }

  function After(s: State, e: Event): (r: State)
    requires Enabled(s, e)
  {
    match e
    case Save(id, at, rt, client) =>
      if client then Updated(s, id, Call(at, rt, Acquiring, false, []))
      else Updated(s, id, Call(at, rt, Settled(false), true, [false]))
    case Acquired(id, transaction) =>
      if transaction then Updated(s, id, s.calls[id].(phase := InsertingAccess))
      else Updated(s, id, s.calls[id].Told(false).(phase := Settled(false)))
    case AccessReply(id, inserted) =>
      var c := s.calls[id];
      if inserted then
        Updated(s, id, c.(phase := InsertingRefresh)).(
          access := s.access[c.at.token := Entry(ToAccessRow(c.at), Some(id), false)])
      else Failed(s, id)
    case RefreshReply(id, inserted) =>
      var c := s.calls[id];
      if inserted then
        Updated(s, id, c.(phase := Committing)).(
          refresh := s.refresh[c.rt.token := Entry(ToRefreshRow(c.rt), Some(id), false)])
      else Failed(s, id)
    case CommitReply(id, committed) =>
      if committed then
        State(Committed(s.access, id), Committed(s.refresh, id),
              s.calls[id := s.calls[id].Told(true).(phase := Settled(true))])
      else Failed(s, id)
    case LateCommit(id, committed) => Updated(s, id, s.calls[id].Told(committed))
  }

  predicate Feasible(s: State, es: seq<Event>)
    decreases |es|
  {
    es == [] || (Enabled(s, es[0]) && Feasible(After(s, es[0]), es[1..]))
  }

  function Run(s: State, es: seq<Event>): (r: State)
    requires Feasible(s, es)
    decreases |es|
  {
    if es == [] then s else Run(After(s, es[0]), es[1..])
  }

  /** No other call is touched. */
  ghost predicate OthersKept(s: State, r: State, id: nat)
  {
    forall c :: c != id ==> (c in r.calls <==> c in s.calls) && (c in s.calls ==> r.calls[c] == s.calls[c])
  }

  // ---------- The repository, callback by callback ----------

  class PostgresTokenRepository {
    var accessRows: map<string, Entry<AccessRow>>
    var refreshRows: map<string, Entry<RefreshRow>>
    var calls: map<nat, Call>

    function Value(): State
      reads this
    {
      State(accessRows, refreshRows, calls)
    }

    constructor (access: map<string, Entry<AccessRow>>, refresh: map<string, Entry<RefreshRow>>)
      ensures Value() == State(access, refresh, map[])
    {
      accessRows, refreshRows, calls := access, refresh, map[];
    }

    method InvokeOnce(id: nat, ok: bool)
      requires id in calls
      modifies this
      ensures Value() == Updated(old(Value()), id, old(calls)[id].Told(ok))
    {
      var c := calls[id];
      if !c.invoked {
        c := c.(invoked := true, answers := c.answers + [ok]);
      }
      calls := calls[id := c];
    }

    method Release(id: nat, phase: Phase)
      requires id in calls
      modifies this
      ensures Value() == Updated(old(Value()), id, old(calls)[id].(phase := phase))
    {
      calls := calls[id := calls[id].(phase := phase)];
    }

    method Fail(id: nat)
      requires id in calls
      modifies this
      ensures Value() == Failed(old(Value()), id)
    {
      accessRows, refreshRows := RolledBack(accessRows, id), RolledBack(refreshRows, id);
      InvokeOnce(id, false);
      Release(id, Settled(true));
    }

    method SaveTokenPair(id: nat, at: AccessToken, rt: RefreshToken, client: bool)
      requires Enabled(Value(), Save(id, at, rt, client))
      modifies this
      ensures Value() == After(old(Value()), Save(id, at, rt, client))
    {
      if !client {
        calls := calls[id := Call(at, rt, Settled(false), true, [false])];
        return;
      }
      calls := calls[id := Call(at, rt, Acquiring, false, [])];
    }

    method OnTransaction(id: nat, transaction: bool)
      requires Enabled(Value(), Acquired(id, transaction))
      modifies this
      ensures Value() == After(old(Value()), Acquired(id, transaction))
      ensures OthersKept(old(Value()), Value(), id) && old(calls)[id].answers <= calls[id].answers
    {
      if !transaction {
        InvokeOnce(id, false);
        Release(id, Settled(false));
        return;
      }
      Release(id, InsertingAccess);
    }

    method OnAccessReply(id: nat, inserted: bool)
      requires Enabled(Value(), AccessReply(id, inserted))
      modifies this
      ensures Value() == After(old(Value()), AccessReply(id, inserted))
      ensures OthersKept(old(Value()), Value(), id) && old(calls)[id].answers <= calls[id].answers
      ensures !inserted ==> (forall k :: k in accessRows ==> k in old(accessRows) && accessRows[k] == old(accessRows)[k])
    {
      var at := calls[id].at;
      if inserted {
        accessRows := accessRows[at.token := Entry(ToAccessRow(at), Some(id), false)];
        Release(id, InsertingRefresh);
      } else {
        Fail(id);
      }
    }

    method OnRefreshReply(id: nat, inserted: bool)
      requires Enabled(Value(), RefreshReply(id, inserted))
      modifies this
      ensures Value() == After(old(Value()), RefreshReply(id, inserted))
      ensures OthersKept(old(Value()), Value(), id) && old(calls)[id].answers <= calls[id].answers
      ensures !inserted ==> (forall k :: k in accessRows ==> k in old(accessRows) && accessRows[k] == old(accessRows)[k])
    {
      var rt := calls[id].rt;
      if inserted {
        refreshRows := refreshRows[rt.token := Entry(ToRefreshRow(rt), Some(id), false)];
        Release(id, Committing);
      } else {
        Fail(id);
      }
    }

    method OnCommit(id: nat, committed: bool)
      requires Enabled(Value(), CommitReply(id, committed))
      modifies this
      ensures Value() == After(old(Value()), CommitReply(id, committed))
      ensures OthersKept(old(Value()), Value(), id) && old(calls)[id].answers <= calls[id].answers
      ensures forall k :: k in accessRows ==> k in old(accessRows) && accessRows[k].row == old(accessRows)[k].row
      ensures forall k :: k in refreshRows ==> k in old(refreshRows) && refreshRows[k].row == old(refreshRows)[k].row
    {
      if committed {
        accessRows, refreshRows := Committed(accessRows, id), Committed(refreshRows, id);
        InvokeOnce(id, true);
        Release(id, Settled(true));
      } else {
        Fail(id);
      }
    }

    method OnLateCommit(id: nat, committed: bool)
      requires Enabled(Value(), LateCommit(id, committed))
      modifies this
      ensures Value() == After(old(Value()), LateCommit(id, committed))
      ensures OthersKept(old(Value()), Value(), id) && old(calls)[id].answers <= calls[id].answers
      ensures accessRows == old(accessRows) && refreshRows == old(refreshRows)
      ensures old(calls)[id].invoked ==> calls[id].answers == old(calls)[id].answers
    {
      InvokeOnce(id, committed);
    }
  }

  // ---------- Every run ----------

  /** The caller has been told the pair is stored. */
  predicate Saved(c: Call) { true in c.answers }

  /** A call is answered when it settles, once, and not before. */
  ghost predicate AnsweredOnce(c: Call)
  {
    && c.invoked == c.phase.Settled?
    && |c.answers| == if c.invoked then 1 else 0
  }

  /** One call's stake in one table: its transaction is open past that insert, or it was answered
      true. */
  datatype Claim<T> = Claim(key: string, row: T, held: bool, saved: bool)

  ghost predicate Owns<T>(init: map<string, Entry<T>>, table: map<string, Entry<T>>, key: string, c: nat)
  {
    key in table && key !in init && table[key].owner == Some(c)
  }

  /** Each entry is an initial row or belongs to a call: stored for one answered true, pending for
      one that holds it; and those calls do own theirs. */
  ghost predicate Accounted<T>(init: map<string, Entry<T>>, table: map<string, Entry<T>>, claims: map<nat, Claim<T>>)
  {
    && (forall k :: k in init ==> k in table && table[k] == init[k])
    && (forall k :: k in table && k !in init ==>
          var e := table[k];
          && e.owner.Some? && e.owner.value in claims && claims[e.owner.value].key == k
          && e.row == claims[e.owner.value].row && e.committed == claims[e.owner.value].saved)
    && (forall c :: c in claims ==> (Owns(init, table, claims[c].key, c) <==> claims[c].held || claims[c].saved))
  }

  function AccessClaim(c: Call): Claim<AccessRow>
  {
    Claim(c.at.token, ToAccessRow(c.at), c.phase.InsertingRefresh? || c.phase.Committing?, Saved(c))
  }

  function RefreshClaim(c: Call): Claim<RefreshRow>
  {
    Claim(c.rt.token, ToRefreshRow(c.rt), c.phase.Committing?, Saved(c))
  }

  function AccessClaims(s: State): map<nat, Claim<AccessRow>> { map c | c in s.calls :: AccessClaim(s.calls[c]) }
  function RefreshClaims(s: State): map<nat, Claim<RefreshRow>> { map c | c in s.calls :: RefreshClaim(s.calls[c]) }

  ghost predicate AccessTable(init: State, s: State) { Accounted(init.access, s.access, AccessClaims(s)) }
  ghost predicate RefreshTable(init: State, s: State) { Accounted(init.refresh, s.refresh, RefreshClaims(s)) }

  ghost predicate Answered(s: State) { forall c :: c in s.calls ==> AnsweredOnce(s.calls[c]) }

  /** The tables before any call: committed rows that no call owns. */
  ghost predicate Initial(s: State)
  {
    && s.calls == map[]
    && Unowned(s.access) && Unowned(s.refresh)
  }

  ghost predicate Inv(init: State, s: State) { Answered(s) && AccessTable(init, s) && RefreshTable(init, s) }

  ghost predicate Unowned<T>(init: map<string, Entry<T>>)
  {
    forall k :: k in init ==> init[k].committed && init[k].owner == None
  }

  lemma AccountedNew<T>(init: map<string, Entry<T>>, table: map<string, Entry<T>>, claims: map<nat, Claim<T>>, id: nat, claim: Claim<T>)
    requires Accounted(init, table, claims) && id !in claims && !claim.held && !claim.saved
    ensures Accounted(init, table, claims[id := claim])
  {
  }

  lemma AccountedInsert<T>(init: map<string, Entry<T>>, table: map<string, Entry<T>>, claims: map<nat, Claim<T>>, id: nat)
    requires Accounted(init, table, claims)
    requires id in claims && !claims[id].held && !claims[id].saved && claims[id].key !in table
    ensures Accounted(init, table[claims[id].key := Entry(claims[id].row, Some(id), false)], claims[id := claims[id].(held := true)])
  {
  }

  lemma AccountedRollback<T>(init: map<string, Entry<T>>, table: map<string, Entry<T>>, claims: map<nat, Claim<T>>, id: nat)
    requires Unowned(init) && Accounted(init, table, claims) && id in claims && !claims[id].saved
    ensures Accounted(init, RolledBack(table, id), claims[id := claims[id].(held := false)])
  {
  }

  lemma AccountedCommit<T>(init: map<string, Entry<T>>, table: map<string, Entry<T>>, claims: map<nat, Claim<T>>, id: nat)
    requires Unowned(init) && Accounted(init, table, claims) && id in claims && claims[id].held
    ensures Accounted(init, Committed(table, id), claims[id := claims[id].(held := false, saved := true)])
  {
  }

  /** What one event does to a table and to the claim of its call. */
  datatype Change = New | Keep | Insert | Rollback | Commit

  function AccessChange(e: Event): Change
  {
    match e
    case Save(_, _, _, _) => New
    case Acquired(_, _) => Keep
    case AccessReply(_, inserted) => if inserted then Insert else Rollback
    case RefreshReply(_, inserted) => if inserted then Keep else Rollback
    case CommitReply(_, committed) => if committed then Commit else Rollback
    case LateCommit(_, _) => Keep
  }

  function RefreshChange(e: Event): Change
  {
    match e
    case Save(_, _, _, _) => New
    case Acquired(_, _) => Keep
    case AccessReply(_, inserted) => if inserted then Keep else Rollback
    case RefreshReply(_, inserted) => if inserted then Insert else Rollback
    case CommitReply(_, committed) => if committed then Commit else Rollback
    case LateCommit(_, _) => Keep
  }

  ghost predicate Changed<T>(table: map<string, Entry<T>>, claims: map<nat, Claim<T>>, table': map<string, Entry<T>>, claims': map<nat, Claim<T>>,
                             id: nat, change: Change)
  {
    match change
    case New => id !in claims && table' == table && id in claims' && claims' == claims[id := claims'[id]] && !claims'[id].held && !claims'[id].saved
    case Keep => table' == table && claims' == claims
    case Insert =>
      && id in claims && !claims[id].held && !claims[id].saved && claims[id].key !in table
      && table' == table[claims[id].key := Entry(claims[id].row, Some(id), false)]
      && claims' == claims[id := claims[id].(held := true)]
    case Rollback =>
      && id in claims && !claims[id].saved
      && table' == RolledBack(table, id) && claims' == claims[id := claims[id].(held := false)]
    case Commit =>
      && id in claims && claims[id].held
      && table' == Committed(table, id) && claims' == claims[id := claims[id].(held := false, saved := true)]
  }

  lemma AccountedStep<T>(init: map<string, Entry<T>>, table: map<string, Entry<T>>, claims: map<nat, Claim<T>>,
                         table': map<string, Entry<T>>, claims': map<nat, Claim<T>>, id: nat, change: Change)
    requires Unowned(init) && Accounted(init, table, claims) && Changed(table, claims, table', claims', id, change)
    ensures Accounted(init, table', claims')
  {
    hide Accounted, Unowned, RolledBack, Committed;
    match change
    case New => AccountedNew(init, table, claims, id, claims'[id]);
    case Keep =>
    case Insert => AccountedInsert(init, table, claims, id);
    case Rollback => AccountedRollback(init, table, claims, id);
    case Commit => AccountedCommit(init, table, claims, id);
  }

  /** The event's own call, before and after. */
  lemma CallStep(s: State, e: Event)
    requires Answered(s) && Enabled(s, e)
    ensures After(s, e).calls == s.calls[e.id := After(s, e).calls[e.id]]
    ensures e.id in s.calls ==> var c, c' := s.calls[e.id], After(s, e).calls[e.id];
      && c'.at == c.at && c'.rt == c.rt
      && (Saved(c') <==> Saved(c) || e == CommitReply(e.id, true))
      && (Saved(c) ==> c.phase.Settled?)
  {
    assert e.id in s.calls ==> AnsweredOnce(s.calls[e.id]);
    hide RolledBack, Committed, Answered, ToAccessRow, ToRefreshRow;
  }

  lemma AccessChanges(s: State, e: Event)
    requires Answered(s) && Enabled(s, e)
    ensures var r, cs := After(s, e), AccessClaims(s);
      Changed(s.access, cs, r.access, cs[e.id := AccessClaim(r.calls[e.id])], e.id, AccessChange(e))
  {
    CallStep(s, e);
    hide RolledBack, Committed, Answered, ToAccessRow, ToRefreshRow, Saved;
  }

  lemma RefreshChanges(s: State, e: Event)
    requires Answered(s) && Enabled(s, e)
    ensures var r, cs := After(s, e), RefreshClaims(s);
      Changed(s.refresh, cs, r.refresh, cs[e.id := RefreshClaim(r.calls[e.id])], e.id, RefreshChange(e))
  {
    CallStep(s, e);
    hide RolledBack, Committed, Answered, ToAccessRow, ToRefreshRow, Saved;
  }

  lemma Claims(s: State, r: State, id: nat)
    requires id in r.calls && r.calls == s.calls[id := r.calls[id]]
    ensures AccessClaims(r) == AccessClaims(s)[id := AccessClaim(r.calls[id])]
    ensures RefreshClaims(r) == RefreshClaims(s)[id := RefreshClaim(r.calls[id])]
  {
    hide AccessClaim, RefreshClaim;
  }

  lemma TableStep(init: State, s: State, e: Event)
    requires Initial(init) && Answered(s) && AccessTable(init, s) && RefreshTable(init, s) && Enabled(s, e)
    ensures AccessTable(init, After(s, e)) && RefreshTable(init, After(s, e))
  {
    var r := After(s, e);
    CallStep(s, e);
    AccessChanges(s, e);
    RefreshChanges(s, e);
    hide After, Changed, Accounted, AccessChange, RefreshChange, AccessClaim, RefreshClaim, Answered, Enabled;
    Claims(s, r, e.id);
    hide AccessClaims, RefreshClaims;
    AccountedStep(init.access, s.access, AccessClaims(s), r.access, AccessClaims(r), e.id, AccessChange(e));
    AccountedStep(init.refresh, s.refresh, RefreshClaims(s), r.refresh, RefreshClaims(r), e.id, RefreshChange(e));
  }

  lemma AnswerStep(s: State, e: Event)
    requires Answered(s) && Enabled(s, e)
    ensures Answered(After(s, e))
    ensures e.id in After(s, e).calls
    ensures Saved(After(s, e).calls[e.id]) <==> (e.id in s.calls && Saved(s.calls[e.id])) || e == CommitReply(e.id, true)
    ensures forall i :: i != e.id ==> (i in After(s, e).calls <==> i in s.calls)
    ensures forall i :: i in s.calls && i != e.id ==> After(s, e).calls[i] == s.calls[i]
  {
    assert e.id in s.calls ==> AnsweredOnce(s.calls[e.id]);
    hide RolledBack, Committed;
  }

  lemma {:induction false} RunInv(init: State, s: State, es: seq<Event>)
    requires Initial(init) && Inv(init, s) && Feasible(s, es)
    ensures Inv(init, Run(s, es))
    decreases |es|
  {
    if es != [] {
      AnswerStep(s, es[0]);
      TableStep(init, s, es[0]);
      hide Answered, AccessTable, RefreshTable, Initial;
      RunInv(init, After(s, es[0]), es[1..]);
    }
  }

  /** The visible row of call `id`, column by column. */
  ghost predicate HoldsAccess(e: Entry<AccessRow>, at: AccessToken, id: nat)
  {
    && e.owner == Some(id) && e.committed
    && e.row.clientId == at.clientId && e.row.userId == at.userId && e.row.scope == at.scope
    && e.row.expiresAt == at.expiresAt && e.row.revoked == at.revoked && e.row.issuer == at.issuer && e.row.orgId == at.orgId
  }

  /** A refresh token without a family has NULL there, and keeps the link to its access token. */
  ghost predicate HoldsRefresh(e: Entry<RefreshRow>, rt: RefreshToken, id: nat)
  {
    && e.owner == Some(id) && e.committed
    && e.row.accessToken == rt.accessToken && e.row.clientId == rt.clientId && e.row.userId == rt.userId
    && e.row.scope == rt.scope && e.row.expiresAt == rt.expiresAt && e.row.revoked == rt.revoked && e.row.orgId == rt.orgId
    && (e.row.familyId.None? <==> rt.familyId == "") && (e.row.familyId.Some? ==> e.row.familyId.value == rt.familyId)
  }

  /** saveTokenPair answers exactly once and is all-or-nothing. In every run from any tables, a call
      that has settled has answered exactly once and one that has not has not answered. Answered
      true, both its rows are stored and its own; settled any other way, it owns no entry in either
      table. Every visible row that was not there at the start belongs to a call answered true, and
      the initial rows are unchanged. */
  lemma SavesAreExactlyOnceAndAtomic(init: State, es: seq<Event>, id: nat)
    requires Initial(init) && Feasible(init, es) && id in Run(init, es).calls
    ensures var s := Run(init, es); var c := s.calls[id];
      && |c.answers| == (if c.phase.Settled? then 1 else 0)
      && (Saved(c) ==>
            && c.at.token in s.access && HoldsAccess(s.access[c.at.token], c.at, id)
            && c.rt.token in s.refresh && HoldsRefresh(s.refresh[c.rt.token], c.rt, id))
      && (c.phase.Settled? && !Saved(c) ==>
            && (forall k :: k in s.access ==> s.access[k].owner != Some(id))
            && (forall k :: k in s.refresh ==> s.refresh[k].owner != Some(id)))
    ensures var s := Run(init, es);
      && (forall k :: k in init.access ==> k in s.access && s.access[k] == init.access[k])
      && (forall k :: k in init.refresh ==> k in s.refresh && s.refresh[k] == init.refresh[k])
      && (forall k :: k in s.access && k !in init.access && s.access[k].committed ==>
            s.access[k].owner.Some? && s.access[k].owner.value in s.calls && Saved(s.calls[s.access[k].owner.value]))
      && (forall k :: k in s.refresh && k !in init.refresh && s.refresh[k].committed ==>
            s.refresh[k].owner.Some? && s.refresh[k].owner.value in s.calls && Saved(s.calls[s.refresh[k].owner.value]))
  {
    RunInv(init, init, es);
    var s := Run(init, es);
    assert AnsweredOnce(s.calls[id]);
    hide Run, Feasible, Accounted, Answered;
    forall c | c in s.calls
      ensures AccessClaims(s)[c] == AccessClaim(s.calls[c]) && RefreshClaims(s)[c] == RefreshClaim(s.calls[c])
    {
    }
    AccountedMeans(init.access, s.access, AccessClaims(s), id);
    AccountedMeans(init.refresh, s.refresh, RefreshClaims(s), id);
    RowsAsWritten(s.calls[id].at, s.calls[id].rt, id);
    hide Unowned, ToAccessRow, ToRefreshRow, HoldsAccess, HoldsRefresh;
  }

  lemma RowsAsWritten(at: AccessToken, rt: RefreshToken, id: nat)
    ensures HoldsAccess(Entry(ToAccessRow(at), Some(id), true), at, id)
    ensures HoldsRefresh(Entry(ToRefreshRow(rt), Some(id), true), rt, id)
  {
  }

  lemma AccountedMeans<T>(init: map<string, Entry<T>>, table: map<string, Entry<T>>, claims: map<nat, Claim<T>>, id: nat)
    requires Unowned(init) && Accounted(init, table, claims) && id in claims
    ensures claims[id].saved ==> claims[id].key in table && table[claims[id].key] == Entry(claims[id].row, Some(id), true)
    ensures !claims[id].saved && !claims[id].held ==> forall k :: k in table ==> table[k].owner != Some(id)
    ensures forall k :: k in init ==> k in table && table[k] == init[k]
    ensures forall k :: k in table && k !in init && table[k].committed ==>
              table[k].owner.Some? && table[k].owner.value in claims && claims[table[k].owner.value].saved
  {
  }

  /** A call is answered true exactly when its commit was reported. */
  lemma {:induction false} TrueOnlyIfCommitReported(s: State, es: seq<Event>, id: nat)
    requires Answered(s) && Feasible(s, es)
    ensures id in Run(s, es).calls && Saved(Run(s, es).calls[id]) <==>
              (id in s.calls && Saved(s.calls[id])) || CommitReply(id, true) in es
    decreases |es|
  {
    hide Answered, Saved, Enabled, After;
    if es != [] {
      AnswerStep(s, es[0]);
      TrueOnlyIfCommitReported(After(s, es[0]), es[1..], id);
      assert es == [es[0]] + es[1..];
    }
  }
}
