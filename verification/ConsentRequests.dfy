/** Organisation consent requests: a status machine under a partial unique index. */
module ConsentRequests {

  datatype Status = Pending | Approved | Rejected

  datatype Request = Request(org: int, client: string, requester: int, status: Status, decidedBy: int, reason: string)

  datatype Table = Table(rows: map<nat, Request>, nextId: nat)

  predicate IsPending(t: Table, id: nat) { id in t.rows && t.rows[id].status.Pending? }

  predicate Conflicts(t: Table, id: nat, org: int, client: string, requester: int)
  {
    IsPending(t, id) && t.rows[id].org == org && t.rows[id].client == client && t.rows[id].requester == requester
  }

  /** The partial unique index: one pending row per (organisation, client, requester). */
  ghost predicate Indexed(t: Table)
  {
    && (forall id :: id in t.rows ==> id < t.nextId)
    && (forall i, j, org, client, requester ::
          Conflicts(t, i, org, client, requester) && Conflicts(t, j, org, client, requester) ==> i == j)
  }

  // ---------- The statements: new table and rows affected ----------

  datatype Op =
    | File(org: int, client: string, requester: int)
    /** The service passes 'approved' or 'rejected'. */
    | Decide(id: nat, approve: bool, decidedBy: int, reason: string)
    | ResolveOthers(org: int, client: string, except: nat, decidedBy: int)
    | WithdrawOwn(org: int, id: nat, requester: int)

  /** One call; `refused` if there is no client or the statement fails. */
  datatype Event = Event(op: Op, refused: bool)

  function Clashing(t: Table, org: int, client: string, requester: int): (ids: set<nat>)
  {
    set id | id in t.rows && Conflicts(t, id, org, client, requester)
  }

  function Siblings(t: Table, org: int, client: string, except: nat): (ids: set<nat>)
  {
    set id | id in t.rows && IsPending(t, id) && t.rows[id].org == org && t.rows[id].client == client && id != except
  }

  predicate Withdrawable(t: Table, org: int, id: nat, requester: int)
  {
    IsPending(t, id) && t.rows[id].org == org && t.rows[id].requester == requester
  }

  function Affected(t: Table, e: Event): (n: nat)
  {
    if e.refused then 0 else
    match e.op
    case File(org, client, requester) => if Clashing(t, org, client, requester) == {} then 1 else 0
    case Decide(id, _, _, _) => if IsPending(t, id) then 1 else 0
    case ResolveOthers(org, client, except, _) => |Siblings(t, org, client, except)|
    case WithdrawOwn(org, id, requester) => if Withdrawable(t, org, id, requester) then 1 else 0
  }

  function Apply(t: Table, e: Event): (r: Table)
  {
    if e.refused then t else
    match e.op
    case File(org, client, requester) =>
      if Clashing(t, org, client, requester) == {} then
        Table(t.rows[t.nextId := Request(org, client, requester, Pending, 0, "")], t.nextId + 1)
      else t
    case Decide(id, approve, decidedBy, reason) =>
      if IsPending(t, id) then
        t.(rows := t.rows[id := t.rows[id].(status := if approve then Approved else Rejected, decidedBy := decidedBy, reason := reason)])
      else t
    case ResolveOthers(org, client, except, decidedBy) =>
      t.(rows := map id | id in t.rows ::
        if id in Siblings(t, org, client, except) then t.rows[id].(status := Approved, decidedBy := decidedBy) else t.rows[id])
    case WithdrawOwn(org, id, requester) =>
      if Withdrawable(t, org, id, requester) then t.(rows := t.rows - {id}) else t
  }

  class OrgConsentRequestRepository {
    var table: Table

    constructor (initial: Table)
      ensures table == initial
    {
      table := initial;
    }

    method FileRequest(org: int, client: string, requester: int, refused: bool) returns (count: nat)
      modifies this
      ensures var e := Event(File(org, client, requester), refused);
        table == Apply(old(table), e) && count == Affected(old(table), e)
      ensures count == 0 ==> table == old(table)
      ensures count == 1 <==>
        !refused && forall id :: id in old(table).rows ==>
        var a := old(table).rows[id]; !(a.status.Pending? && a.org == org && a.client == client && a.requester == requester)
      ensures count == 1 ==> table.rows == old(table).rows[old(table).nextId := Request(org, client, requester, Pending, 0, "")]
      ensures forall id :: id in old(table).rows && id != old(table).nextId ==> id in table.rows && table.rows[id] == old(table).rows[id]
    {
      ClashingIff(table, org, client, requester);
      if refused || Clashing(table, org, client, requester) != {} { return 0; }
      table := Table(table.rows[table.nextId := Request(org, client, requester, Pending, 0, "")], table.nextId + 1);
      return 1;
    }

    method DecidePending(id: nat, approve: bool, decidedBy: int, reason: string, refused: bool) returns (count: nat)
      modifies this
      ensures var e := Event(Decide(id, approve, decidedBy, reason), refused);
        table == Apply(old(table), e) && count == Affected(old(table), e)
      ensures count == 0 ==> table == old(table)
      ensures count == 1 <==> !refused && id in old(table).rows && old(table).rows[id].status.Pending?
      ensures count == 1 ==>
        id in table.rows &&
        var a, status := old(table).rows[id], if approve then Approved else Rejected;
        table.rows[id] == Request(a.org, a.client, a.requester, status, decidedBy, reason)
      ensures forall k :: k in old(table).rows && k != id ==> k in table.rows && table.rows[k] == old(table).rows[k]
    {
      if refused || !IsPending(table, id) { return 0; }
      var status := if approve then Approved else Rejected;
      table := table.(rows := table.rows[id := table.rows[id].(status := status, decidedBy := decidedBy, reason := reason)]);
      return 1;
    }

    method ResolveOtherPending(org: int, client: string, except: nat, decidedBy: int, refused: bool) returns (count: nat)
      modifies this
      ensures var e := Event(ResolveOthers(org, client, except, decidedBy), refused);
        table == Apply(old(table), e) && count == Affected(old(table), e)
      ensures !refused ==> forall k :: IsPending(table, k) && k != except ==> table.rows[k].org != org || table.rows[k].client != client
      ensures table.rows.Keys == old(table).rows.Keys
      ensures forall k :: k in old(table).rows ==>
        var a, b := old(table).rows[k], table.rows[k];
        if !refused && a.status.Pending? && a.org == org && a.client == client && k != except
        then b == Request(org, client, a.requester, Approved, decidedBy, a.reason) else b == a
    {
      if refused { return 0; }
      var ids := Siblings(table, org, client, except);
      table := table.(rows := map id | id in table.rows ::
        if id in ids then table.rows[id].(status := Approved, decidedBy := decidedBy) else table.rows[id]);
      return |ids|;
    }

    method WithdrawOwnPending(org: int, id: nat, requester: int, refused: bool) returns (count: nat)
      modifies this
      ensures var e := Event(WithdrawOwn(org, id, requester), refused);
        table == Apply(old(table), e) && count == Affected(old(table), e)
      ensures count == 0 ==> table == old(table)
      ensures count == 1 <==>
        !refused && id in old(table).rows &&
        var a := old(table).rows[id]; a.status.Pending? && a.org == org && a.requester == requester
      ensures count == 1 ==> id !in table.rows
      ensures forall k :: k in old(table).rows && k != id ==> k in table.rows && table.rows[k] == old(table).rows[k]
    {
      if refused || !Withdrawable(table, org, id, requester) { return 0; }
      table := table.(rows := table.rows - {id});
      return 1;
    }
  }

  lemma ClashingIff(t: Table, org: int, client: string, requester: int)
    ensures Clashing(t, org, client, requester) == {} <==> forall id :: id in t.rows ==>
      var a := t.rows[id]; !(a.status.Pending? && a.org == org && a.client == client && a.requester == requester)
  {
    assert forall id :: id in t.rows ==> (id in Clashing(t, org, client, requester) <==> Conflicts(t, id, org, client, requester));
  }

  // ---------- Every run ----------

  function Run(t: Table, es: seq<Event>): (r: Table)
  {
    if es == [] then t else Apply(Run(t, es[..|es| - 1]), es[|es| - 1])
  }

  /** What the callers were told: rows filed, approved, rejected and withdrawn. */
  datatype Tally = Tally(filed: nat, approved: nat, rejected: nat, withdrawn: nat)

  function Counted(c: Tally, e: Event, n: nat): Tally
  {
    match e.op
    case File(_, _, _) => c.(filed := c.filed + n)
    case Decide(_, approve, _, _) => if approve then c.(approved := c.approved + n) else c.(rejected := c.rejected + n)
    case ResolveOthers(_, _, _, _) => c.(approved := c.approved + n)
    case WithdrawOwn(_, _, _) => c.(withdrawn := c.withdrawn + n)
  }

  function Told(t: Table, es: seq<Event>): (c: Tally)
  {
    if es == [] then Tally(0, 0, 0, 0)
    else
      var init, e := es[..|es| - 1], es[|es| - 1];
      Counted(Told(t, init), e, Affected(Run(t, init), e))
  }

  function With(t: Table, status: Status): (ids: set<nat>) { set id | id in t.rows && t.rows[id].status == status }

  const EMPTY := Table(map[], 0)

  lemma IndexedStep(t: Table, e: Event)
    requires Indexed(t)
    ensures Indexed(Apply(t, e))
  {
    var r := Apply(t, e);
    if e.op.File? {
      assert forall id :: Conflicts(t, id, e.op.org, e.op.client, e.op.requester) ==>
        id in Clashing(t, e.op.org, e.op.client, e.op.requester);
      assert forall i, o, c, q :: Conflicts(r, i, o, c, q) ==>
        Conflicts(t, i, o, c, q) || (i == t.nextId && i !in t.rows && o == e.op.org && c == e.op.client && q == e.op.requester);
    } else {
      assert forall i, o, c, q :: Conflicts(r, i, o, c, q) ==> Conflicts(t, i, o, c, q);
    }
  }

  /** At most one pending row per organisation, client and requester, after every run. */
  lemma {:induction false} OnePendingPerRequester(t: Table, es: seq<Event>)
    requires Indexed(t)
    ensures Indexed(Run(t, es))
  {
    if es != [] {
      OnePendingPerRequester(t, es[..|es| - 1]);
      IndexedStep(Run(t, es[..|es| - 1]), es[|es| - 1]);
    }
  }

  /** How many rows of each status a call leaves. */
  ghost predicate Moves(t: Table, e: Event, pending: int, approved: int, rejected: int)
  {
    var r := Apply(t, e);
    && |With(r, Pending)| == |With(t, Pending)| + pending
    && |With(r, Approved)| == |With(t, Approved)| + approved
    && |With(r, Rejected)| == |With(t, Rejected)| + rejected
  }

  lemma FileMoves(t: Table, e: Event)
    requires Indexed(t) && e.op.File?
    ensures Moves(t, e, Affected(t, e), 0, 0)
  {
    var r := Apply(t, e);
    if Affected(t, e) == 1 {
      assert t.nextId !in t.rows;
      assert With(r, Pending) == With(t, Pending) + {t.nextId};
      assert With(r, Approved) == With(t, Approved) && With(r, Rejected) == With(t, Rejected);
    }
  }

  lemma DecideMoves(t: Table, e: Event)
    requires e.op.Decide?
    ensures var n := Affected(t, e); Moves(t, e, 0 - n, if e.op.approve then n else 0, if e.op.approve then 0 else n)
  {
    var r, id := Apply(t, e), e.op.id;
    if Affected(t, e) == 1 {
      var status := if e.op.approve then Approved else Rejected;
      assert r.rows == t.rows[id := r.rows[id]] && r.rows[id].status == status;
      DecidedRows(t, r, id, status);
      hide Apply, Affected, With;
    }
  }

  lemma DecidedRows(t: Table, r: Table, id: nat, status: Status)
    requires IsPending(t, id) && id in r.rows && r.rows == t.rows[id := r.rows[id]] && r.rows[id].status == status != Pending
    ensures id in With(t, Pending) && id !in With(t, status)
    ensures With(r, Pending) == With(t, Pending) - {id}
    ensures With(r, status) == With(t, status) + {id}
    ensures forall s :: s != Pending && s != status ==> With(r, s) == With(t, s)
  {
  }

  lemma ResolveMoves(t: Table, e: Event)
    requires e.op.ResolveOthers?
    ensures var n := Affected(t, e); Moves(t, e, 0 - n, n, 0)
  {
    var r := Apply(t, e);
    if !e.refused {
      var ids := Siblings(t, e.op.org, e.op.client, e.op.except);
      ResolvedRows(t, e, r, ids);
      hide Apply, With, Siblings;
    }
  }

  lemma ResolvedRows(t: Table, e: Event, r: Table, ids: set<nat>)
    requires e.op.ResolveOthers? && !e.refused && r == Apply(t, e) && ids == Siblings(t, e.op.org, e.op.client, e.op.except)
    ensures With(r, Pending) == With(t, Pending) - ids && ids <= With(t, Pending)
    ensures With(r, Approved) == With(t, Approved) + ids && With(t, Approved) !! ids
    ensures With(r, Rejected) == With(t, Rejected)
  {
    assert r.rows.Keys == t.rows.Keys;
    assert forall id :: id in ids ==> IsPending(t, id) && r.rows[id].status == Approved;
    assert forall id :: id in t.rows && id !in ids ==> r.rows[id] == t.rows[id];
    hide Apply, Siblings;
  }

  lemma WithdrawMoves(t: Table, e: Event)
    requires e.op.WithdrawOwn?
    ensures Moves(t, e, 0 - Affected(t, e), 0, 0)
  {
    var r := Apply(t, e);
    if Affected(t, e) == 1 {
      assert With(r, Pending) == With(t, Pending) - {e.op.id};
      assert With(r, Approved) == With(t, Approved) && With(r, Rejected) == With(t, Rejected);
    }
  }

  /** Nothing is lost: the counts the callers were given account for every row. From an empty table,
      what was filed is what is pending, approved, rejected or withdrawn, and the table agrees with
      each count. */
  lemma {:induction false} RequestsAreConserved(es: seq<Event>)
    ensures var t, c := Run(EMPTY, es), Told(EMPTY, es);
      && c.filed == |With(t, Pending)| + c.approved + c.rejected + c.withdrawn
      && c.approved == |With(t, Approved)| && c.rejected == |With(t, Rejected)|
  {
    hide Apply, Affected, Indexed, With;
    if es == [] {
      NothingYet();
    } else {
      var init, e := es[..|es| - 1], es[|es| - 1];
      RequestsAreConserved(init);
      NothingYet();
      OnePendingPerRequester(EMPTY, init);
      match e.op
      case File(_, _, _) => FileMoves(Run(EMPTY, init), e);
      case Decide(_, _, _, _) => DecideMoves(Run(EMPTY, init), e);
      case ResolveOthers(_, _, _, _) => ResolveMoves(Run(EMPTY, init), e);
      case WithdrawOwn(_, _, _) => WithdrawMoves(Run(EMPTY, init), e);
    }
  }

  lemma NothingYet()
    ensures Indexed(EMPTY) && forall s :: With(EMPTY, s) == {}
  {
  }

  /** A decided row never changes and never goes away. */
  lemma {:induction false} DecidedForGood(t: Table, es: seq<Event>, id: nat)
    requires Indexed(t) && id in t.rows && !t.rows[id].status.Pending?
    ensures id in Run(t, es).rows && Run(t, es).rows[id] == t.rows[id]
  {
    if es != [] {
      var init := es[..|es| - 1];
      DecidedForGood(t, init, id);
      OnePendingPerRequester(t, init);
      DecidedStep(Run(t, init), es[|es| - 1], id);
    }
  }

  lemma DecidedStep(t: Table, e: Event, id: nat)
    requires Indexed(t) && id in t.rows && !t.rows[id].status.Pending?
    ensures id in Apply(t, e).rows && Apply(t, e).rows[id] == t.rows[id]
  {
  }

  /** A row's identity never changes, and a row that was withdrawn is not filed again under its id. */
  lemma {:induction false} IdentityIsFixed(t: Table, es: seq<Event>, id: nat)
    requires Indexed(t) && id < t.nextId && id in Run(t, es).rows
    ensures id in t.rows && var a, b := t.rows[id], Run(t, es).rows[id];
      a.org == b.org && a.client == b.client && a.requester == b.requester
    ensures t.nextId <= Run(t, es).nextId
  {
    if es != [] {
      var init := es[..|es| - 1];
      SerialGrows(t, init);
      OnePendingPerRequester(t, init);
      IdentityStep(Run(t, init), es[|es| - 1], id);
      IdentityIsFixed(t, init, id);
    }
  }

  lemma {:induction false} SerialGrows(t: Table, es: seq<Event>)
    ensures t.nextId <= Run(t, es).nextId
  {
    if es != [] { SerialGrows(t, es[..|es| - 1]); }
  }

  lemma IdentityStep(t: Table, e: Event, id: nat)
    requires Indexed(t) && id < t.nextId && id in Apply(t, e).rows
    ensures id in t.rows && var a, b := t.rows[id], Apply(t, e).rows[id];
      a.org == b.org && a.client == b.client && a.requester == b.requester
    ensures t.nextId <= Apply(t, e).nextId
  {
  }

  // ---------- Where a row comes from ----------

  /** Event `e` filed a row with this identity. */
  predicate Files(e: Event, row: Request) { !e.refused && e.op == File(row.org, row.client, row.requester) }

  /** Event `e` settled row `id` as it now stands. */
  predicate Settles(e: Event, row: Request, id: nat)
  {
    && !e.refused && !row.status.Pending?
    && (|| e.op == Decide(id, row.status.Approved?, row.decidedBy, row.reason)
        || (&& e.op.ResolveOthers? && e.op.org == row.org && e.op.client == row.client && e.op.except != id
            && row.status.Approved? && row.decidedBy == e.op.decidedBy && row.reason == ""))
  }

  ghost predicate RowHistory(es: seq<Event>, row: Request, id: nat)
  {
    && (exists k :: 0 <= k < |es| && Files(es[k], row))
    && if row.status.Pending? then row.decidedBy == 0 && row.reason == ""
       else exists k :: 0 <= k < |es| && Settles(es[k], row, id)
  }

  lemma RowKept(es: seq<Event>, row: Request, id: nat)
    requires es != [] && RowHistory(es[..|es| - 1], row, id)
    ensures RowHistory(es, row, id)
  {
    var init := es[..|es| - 1];
    var k :| 0 <= k < |init| && Files(init[k], row);
    assert Files(es[k], row);
    if !row.status.Pending? {
      var j :| 0 <= j < |init| && Settles(init[j], row, id);
      assert Settles(es[j], row, id);
    }
  }

  /** A step adds a row, settles pending ones, or leaves a row alone. */
  lemma RowStep(t: Table, e: Event, id: nat)
    requires Indexed(t) && id in Apply(t, e).rows
    ensures var b := Apply(t, e).rows[id];
      || (id in t.rows && b == t.rows[id])
      || (id !in t.rows && Files(e, b) && b.status.Pending? && b.decidedBy == 0 && b.reason == "")
      || (&& IsPending(t, id) && (t.rows[id].reason == "" ==> Settles(e, b, id))
          && b.org == t.rows[id].org && b.client == t.rows[id].client && b.requester == t.rows[id].requester)
  {
  }

  /** Every row is accounted for: it was filed by a call of the run for that organisation, client and
      requester; while pending it names no decider; once settled it carries the status, the decider
      and the reason of a call of the run that settled it. */
  lemma {:induction false} RowsComeFromTheRun(es: seq<Event>, id: nat)
    requires id in Run(EMPTY, es).rows
    ensures RowHistory(es, Run(EMPTY, es).rows[id], id)
  {
    if es != [] {
      var init, e := es[..|es| - 1], es[|es| - 1];
      var t := Run(EMPTY, init);
      NothingYet();
      OnePendingPerRequester(EMPTY, init);
      var row := Apply(t, e).rows[id];
      RowStep(t, e, id);
      if id in t.rows { RowsComeFromTheRun(init, id); }
      hide Apply, Run, Settles;
      if id in t.rows && row == t.rows[id] {
        RowKept(es, row, id);
      } else if id in t.rows {
        var k :| 0 <= k < |init| && Files(init[k], t.rows[id]);
        assert Files(es[k], row);
        assert Settles(es[|es| - 1], row, id);
        assert !row.status.Pending? by { SettledIsDecided(e, row, id); }
      } else {
        assert Files(es[|es| - 1], row);
      }
    }
  }

  lemma SettledIsDecided(e: Event, row: Request, id: nat)
    requires Settles(e, row, id)
    ensures !row.status.Pending?
  {
  }

  ghost predicate AnyPending(t: Table, org: int, client: string)
  {
    exists id :: IsPending(t, id) && t.rows[id].org == org && t.rows[id].client == client
  }

  /** Approving a request and resolving the others leaves a pending row for that organisation and
      client exactly when one of the two statements was refused while it had a row to decide. */
  lemma ApprovalLeavesNonePending(t: Table, approval: Event, resolution: Event)
    requires approval.op.Decide? && approval.op.approve && resolution.op.ResolveOthers? && resolution.op.except == approval.op.id
    ensures var org, client, id := resolution.op.org, resolution.op.client, approval.op.id;
      AnyPending(Run(t, [approval, resolution]), org, client) <==>
        || (approval.refused && IsPending(t, id) && t.rows[id].org == org && t.rows[id].client == client)
        || (resolution.refused && Siblings(t, org, client, id) != {})
  {
    var org, client, id := resolution.op.org, resolution.op.client, approval.op.id;
    var mid := Apply(t, approval);
    var r := Apply(mid, resolution);
    assert [approval, resolution][..1] == [approval] && [approval][..0] == [];
    assert Run(t, []) == t && Run(t, [approval]) == mid;
    assert Run(t, [approval, resolution]) == r;
    assert forall i :: i != id ==> (IsPending(mid, i) <==> IsPending(t, i));
    assert forall i :: IsPending(r, i) ==> IsPending(mid, i);
    if approval.refused && IsPending(t, id) && t.rows[id].org == org && t.rows[id].client == client {
      assert IsPending(r, id);
    }
    if resolution.refused && Siblings(t, org, client, id) != {} {
      var i :| i in Siblings(t, org, client, id);
      assert IsPending(r, i);
    }
    if AnyPending(r, org, client) {
      var i :| IsPending(r, i) && r.rows[i].org == org && r.rows[i].client == client;
      if i != id { assert i in Siblings(t, org, client, id); }
    }
  }
}
