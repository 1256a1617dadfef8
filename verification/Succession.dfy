/** Owner succession: nominate, withdraw, and the three-statement seat swap. */
module Succession {
  import opened Options
  import opened Callbacks

  datatype Role = Owner | Admin | Member

  datatype Seat = Seat(org: int, user: int)

  datatype Nomination = Nomination(org: int, nominee: int, nominatedBy: int, createdAt: int, acceptedAt: Option<int>)

  /** organization_members, keyed by its UNIQUE (organization, user), and the nominations with
      the serial that numbers them. */
  datatype Tables = Tables(members: map<Seat, Role>, nominations: map<nat, Nomination>, nextId: nat)

  // ---------- The statements ----------

  predicate Pending(t: Tables, id: nat, org: int)
  {
    id in t.nominations && t.nominations[id].org == org && t.nominations[id].acceptedAt.None?
  }

  ghost predicate HasPending(t: Tables, org: int, nominee: int)
  {
    exists id :: Pending(t, id, org) && t.nominations[id].nominee == nominee
  }

  /** The partial unique index: one pending nomination per organisation. */
  ghost predicate Indexed(t: Tables)
  {
    && (forall id :: id in t.nominations ==> id < t.nextId)
    && (forall i, j, org :: Pending(t, i, org) && Pending(t, j, org) ==> i == j)
  }

  function PendingIds(t: Tables, org: int): (ids: set<nat>)
  {
    set id | id in t.nominations && Pending(t, id, org)
  }

  /** INSERT ... ON CONFLICT: a pending row is overwritten in place, otherwise one is added. */
  function Upsert(t: Tables, org: int, nominee: int, nominator: int, now: int): (r: Tables)
  {
    if PendingIds(t, org) == {} then
      t.(nominations := t.nominations[t.nextId := Nomination(org, nominee, nominator, now, None)], nextId := t.nextId + 1)
    else
      t.(nominations := map id | id in t.nominations ::
        if Pending(t, id, org)
        then t.nominations[id].(nominee := nominee, nominatedBy := nominator, createdAt := now) else t.nominations[id])
  }

  function DeletePending(t: Tables, org: int): (r: Tables)
  {
    t.(nominations := map id | id in t.nominations && !Pending(t, id, org) :: t.nominations[id])
  }

  function Seated(t: Tables, seat: Seat): (r: Tables) { t.(members := t.members[seat := Owner]) }

  function DemoteOthers(t: Tables, org: int, nominee: int): (r: Tables)
  {
    t.(members := map s | s in t.members ::
      if s.org == org && t.members[s].Owner? && s.user != nominee then Admin else t.members[s])
  }

  function MarkedIds(t: Tables, org: int, nominee: int): (ids: set<nat>)
  {
    set id | id in t.nominations && Pending(t, id, org) && t.nominations[id].nominee == nominee
  }

  function MarkAccepted(t: Tables, org: int, nominee: int, now: int): (r: Tables)
  {
    t.(nominations := map id | id in t.nominations ::
      if id in MarkedIds(t, org, nominee) then t.nominations[id].(acceptedAt := Some(now)) else t.nominations[id])
  }

  function SwapSeat(t: Tables, org: int, nominee: int, now: int): (r: Tables)
  {
    MarkAccepted(DemoteOthers(Seated(t, Seat(org, nominee)), org, nominee), org, nominee, now)
  }

  /** The row is in force, in place of the pending rows there were, or new; no other row changes. */
  ghost predicate Nominated(before: Tables, after: Tables, org: int, row: Nomination)
  {
    && (forall id :: id in before.nominations ==>
          id in after.nominations && after.nominations[id] == if Pending(before, id, org) then row else before.nominations[id])
    && (forall id :: id in after.nominations && id !in before.nominations ==>
          id == before.nextId && after.nominations[id] == row && after.nextId == id + 1)
    && exists id :: id in after.nominations && after.nominations[id] == row
  }

  lemma UpsertRows(t: Tables, org: int, nominee: int, nominator: int, now: int)
    requires Indexed(t)
    ensures var r := Upsert(t, org, nominee, nominator, now);
      Nominated(t, r, org, Nomination(org, nominee, nominator, now, None))
  {
    var r := Upsert(t, org, nominee, nominator, now);
    if PendingIds(t, org) == {} {
      assert forall id :: Pending(t, id, org) ==> id in PendingIds(t, org);
      assert t.nextId in r.nominations;
    } else {
      var id :| id in PendingIds(t, org);
      assert id in r.nominations;
    }
  }

  /** What a reported success promises, row by row. */
  ghost predicate Succeeded(before: Tables, after: Tables, org: int, nominee: int, now: int)
  {
    && after.members.Keys == before.members.Keys + {Seat(org, nominee)}
    && (forall s :: s in after.members && s.org == org ==> (after.members[s].Owner? <==> s.user == nominee))
    && (forall s :: s in before.members && s.org == org && s.user != nominee ==>
          after.members[s] == if before.members[s].Owner? then Admin else before.members[s])
    && (forall s :: s in before.members && s.org != org ==> after.members[s] == before.members[s])
    && after.nextId == before.nextId
    && (exists id :: Pending(before, id, org) && before.nominations[id].nominee == nominee
                     && after.nominations == before.nominations[id := before.nominations[id].(acceptedAt := Some(now))])
  }

  lemma SwapSeatSucceeds(t: Tables, org: int, nominee: int, now: int)
    requires Indexed(t) && HasPending(t, org, nominee)
    ensures Succeeded(t, SwapSeat(t, org, nominee, now), org, nominee, now)
  {
    var r := SwapSeat(t, org, nominee, now);
    var id :| Pending(t, id, org) && t.nominations[id].nominee == nominee;
    assert r.nominations == t.nominations[id := t.nominations[id].(acceptedAt := Some(now))] by {
      hide Seated;
      MarkedHere(t, org, nominee, id);
    }
  }

  lemma MarkedHere(t: Tables, org: int, nominee: int, id: nat)
    requires Indexed(t) && Pending(t, id, org) && t.nominations[id].nominee == nominee
    ensures MarkedIds(t, org, nominee) == {id}
    ensures MarkedIds(DemoteOthers(Seated(t, Seat(org, nominee)), org, nominee), org, nominee) == {id}
  {
    var u := DemoteOthers(Seated(t, Seat(org, nominee)), org, nominee);
    assert u.nominations == t.nominations;
    assert forall i :: Pending(u, i, org) == Pending(t, i, org);
  }

  // ---------- The transaction ----------

  /** What the database does to one attempt: which steps are refused, and whether a commit
      callback fires although the transaction was given up. */
  datatype Faults = Faults(
    noClient: bool, noTransaction: bool,
    findMapper: bool, find: bool,
    writeMapper: bool, write: bool, vanished: bool,
    demote: bool, mark: bool, commit: bool,
    lateCommit: Option<bool>)
  {
    /** `seated`: the nominee already has a seat, so the write is an UPDATE that may match no row. */
    predicate Clean(seated: bool)
    {
      && !noClient && !noTransaction && !findMapper && !find && !writeMapper && !write
      && (seated ==> !vanished) && !demote && !mark && !commit
    }
  }

  /** A transaction handle: its view of the tables, and whether a statement error or an explicit
      rollback has given it up. */
  class Transaction {
    var view: Tables
    var givenUp: bool

    constructor (tables: Tables)
      ensures view == tables && !givenUp
    {
      view, givenUp := tables, false;
    }
  }

  class OrgSuccessionRepository {
    var tables: Tables

    constructor (initial: Tables)
      ensures tables == initial
    {
      tables := initial;
    }

    method UpsertNomination(org: int, nominee: int, nominator: int, now: int, refused: bool) returns (answer: bool)
      modifies this
      ensures answer == !refused
      ensures refused ==> tables == old(tables)
      ensures tables.members == old(tables).members
      ensures !refused && Indexed(old(tables)) ==> Nominated(old(tables), tables, org, Nomination(org, nominee, nominator, now, None))
      ensures tables == Apply(old(tables), Event(now, Nominate(org, nominee, nominator, refused)))
    {
      if refused { return false; }
      if Indexed(tables) { UpsertRows(tables, org, nominee, nominator, now); }
      tables := Upsert(tables, org, nominee, nominator, now);
      return true;
    }

    method WithdrawPending(org: int, refused: bool) returns (count: nat)
      modifies this
      ensures count == if refused then 0 else |PendingIds(old(tables), org)|
      ensures tables.members == old(tables).members && tables.nextId == old(tables).nextId
      ensures forall id :: id in tables.nominations <==> id in old(tables).nominations && (refused || !Pending(old(tables), id, org))
      ensures forall id :: id in tables.nominations ==> tables.nominations[id] == old(tables).nominations[id]
      ensures tables == Apply(old(tables), Event(0, Withdraw(org, refused)))
    {
      if refused { return 0; }
      count := |PendingIds(tables, org)|;
      tables := DeletePending(tables, org);
    }

    /** Steps two and three of the swap. */
    method DemoteAndMark(txn: Transaction, org: int, nominee: int, now: int, faults: Faults, cb: Guarded)
      requires cb.Valid() && !cb.invoked && !txn.givenUp
      modifies txn, cb
      ensures cb.Valid() && (cb.invoked ==> cb.answers == [false]) && cb.invoked == txn.givenUp
      ensures txn.givenUp <==> faults.demote || faults.mark || MarkedIds(old(txn.view), org, nominee) == {}
      ensures !txn.givenUp ==> txn.view == MarkAccepted(DemoteOthers(old(txn.view), org, nominee), org, nominee, now)
    {
      if faults.demote {
        txn.givenUp := true;
        cb.Call(false);
        return;
      }
      txn.view := DemoteOthers(txn.view, org, nominee);
      assert MarkedIds(txn.view, org, nominee) == MarkedIds(old(txn.view), org, nominee) by {
        assert txn.view.nominations == old(txn.view).nominations;
        assert forall i :: Pending(txn.view, i, org) == Pending(old(txn.view), i, org);
      }
      if faults.mark {
        txn.givenUp := true;
        cb.Call(false);
        return;
      }
      var rows := MarkedIds(txn.view, org, nominee);
      txn.view := MarkAccepted(txn.view, org, nominee, now);
      if rows == {} {
        txn.givenUp := true;
        cb.Call(false);
      }
    }

    /** Step one: promote the nominee's seat or create it, then the rest. */
    method Attempt(txn: Transaction, org: int, nominee: int, now: int, faults: Faults, cb: Guarded)
      requires cb.Valid() && !cb.invoked && !txn.givenUp
      modifies txn, cb
      ensures cb.Valid() && (cb.invoked ==> cb.answers == [false])
      ensures txn.givenUp ==> cb.invoked
      ensures !txn.givenUp && cb.invoked ==> txn.view == old(txn.view)
      ensures !txn.givenUp && !cb.invoked ==> txn.view == SwapSeat(old(txn.view), org, nominee, now)
      ensures var ok := faults.(noClient := false, noTransaction := false, commit := false);
        !cb.invoked <==> ok.Clean(Seat(org, nominee) in old(txn.view.members)) && HasPending(old(txn.view), org, nominee)
    {
      var seat := Seat(org, nominee);
      if faults.findMapper {
        cb.Call(false);
        return;
      }
      if faults.find {
        txn.givenUp := true;
        cb.Call(false);
        return;
      }
      var seated := seat in txn.view.members;
      if faults.writeMapper {
        cb.Call(false);
        return;
      }
      if faults.write {
        txn.givenUp := true;
        cb.Call(false);
        return;
      }
      if seated && faults.vanished {
        txn.givenUp := true;
        cb.Call(false);
        return;
      }
      txn.view := Seated(txn.view, seat);
      GuardMatches(old(txn.view), org, nominee);
      DemoteAndMark(txn, org, nominee, now, faults, cb);
    }

    method EffectSuccession(org: int, nominee: int, now: int, faults: Faults) returns (answers: seq<bool>)
      requires Indexed(tables)
      modifies this
      ensures |answers| == 1
      ensures answers[0] <==> faults.Clean(Seat(org, nominee) in old(tables.members)) && HasPending(old(tables), org, nominee)
      ensures answers[0] ==> Succeeded(old(tables), tables, org, nominee, now)
      ensures !answers[0] ==> tables == old(tables)
      ensures tables == Apply(old(tables), Event(now, Accept(org, nominee, faults)))
    {
      var cb := new Guarded();
      if faults.noClient || faults.noTransaction {
        cb.Call(false);
        return cb.answers;
      }
      var txn := new Transaction(tables);
      Attempt(txn, org, nominee, now, faults, cb);
      // The last handle is released: an open transaction commits and reports, one that was given
      // up has been rolled back.
      if !txn.givenUp {
        if !faults.commit { tables := txn.view; }
        cb.Call(!faults.commit);
      } else if faults.lateCommit.Some? {
        cb.Call(faults.lateCommit.value);
      }
      if HasPending(old(tables), org, nominee) { SwapSeatSucceeds(old(tables), org, nominee, now); }
      return cb.answers;
    }
  }

  lemma GuardMatches(t: Tables, org: int, nominee: int)
    ensures MarkedIds(Seated(t, Seat(org, nominee)), org, nominee) == {} <==> !HasPending(t, org, nominee)
  {
    var u := Seated(t, Seat(org, nominee));
    assert forall i :: Pending(u, i, org) == Pending(t, i, org);
    if HasPending(t, org, nominee) {
      var id :| Pending(t, id, org) && t.nominations[id].nominee == nominee;
      assert id in MarkedIds(u, org, nominee);
    }
  }

  // ---------- Runs ----------

  datatype Op =
    | Nominate(org: int, nominee: int, nominator: int, refused: bool)
    | Withdraw(org: int, refused: bool)
    | Accept(org: int, nominee: int, faults: Faults)

  datatype Event = Event(now: int, op: Op)

  ghost predicate Accepts(t: Tables, op: Op)
  {
    op.Accept? && op.faults.Clean(Seat(op.org, op.nominee) in t.members) && HasPending(t, op.org, op.nominee)
  }

  ghost function Apply(t: Tables, e: Event): (r: Tables)
  {
    match e.op
    case Nominate(org, nominee, nominator, refused) => if refused then t else Upsert(t, org, nominee, nominator, e.now)
    case Withdraw(org, refused) => if refused then t else DeletePending(t, org)
    case Accept(org, nominee, _) => if Accepts(t, e.op) then SwapSeat(t, org, nominee, e.now) else t
  }

  ghost function Run(t: Tables, es: seq<Event>): (r: Tables)
  {
    if es == [] then t else Apply(Run(t, es[..|es| - 1]), es[|es| - 1])
  }

  ghost predicate HasOwner(t: Tables, org: int)
  {
    exists s :: s in t.members && s.org == org && t.members[s].Owner?
  }

  lemma UpsertShape(t: Tables, org: int, nominee: int, nominator: int, now: int)
    requires Indexed(t)
    ensures var r := Upsert(t, org, nominee, nominator, now);
      && Indexed(r) && HasPending(r, org, nominee)
      && (forall n :: n != nominee ==> !HasPending(r, org, n))
      && (forall o, n :: o != org ==> (HasPending(r, o, n) <==> HasPending(t, o, n)))
  {
    var r := Upsert(t, org, nominee, nominator, now);
    assert exists id :: Pending(r, id, org) && r.nominations[id].nominee == nominee by {
      if PendingIds(t, org) == {} {
        assert Pending(r, t.nextId, org);
      } else {
        var id :| id in PendingIds(t, org);
        assert Pending(r, id, org);
      }
    }
    assert PendingIds(t, org) == {} ==> forall id :: !Pending(t, id, org) by {
      assert forall id :: Pending(t, id, org) ==> id in PendingIds(t, org);
    }
    assert forall id, o :: Pending(r, id, o) ==> Pending(t, id, o) || (PendingIds(t, org) == {} && id == t.nextId && o == org);
    assert PendingIds(t, org) == {} ==> forall o :: Pending(r, t.nextId, o) ==> o == org;
    forall o, n | o != org
      ensures HasPending(r, o, n) <==> HasPending(t, o, n)
    {
      assert forall id :: Pending(t, id, o) <==> Pending(r, id, o);
      assert forall id :: Pending(t, id, o) ==> r.nominations[id] == t.nominations[id];
    }
  }

  lemma DeleteShape(t: Tables, org: int)
    requires Indexed(t)
    ensures var r := DeletePending(t, org);
      && Indexed(r)
      && (forall n :: !HasPending(r, org, n))
      && (forall o, n :: o != org ==> (HasPending(r, o, n) <==> HasPending(t, o, n)))
  {
    var r := DeletePending(t, org);
    forall o, n | o != org
      ensures HasPending(r, o, n) <==> HasPending(t, o, n)
    {
      assert forall id :: Pending(t, id, o) <==> Pending(r, id, o);
      assert forall id :: Pending(t, id, o) ==> r.nominations[id] == t.nominations[id];
    }
    assert forall id, o :: Pending(r, id, o) ==> Pending(t, id, o);
  }

  lemma SwapShape(t: Tables, r: Tables, org: int, nominee: int, now: int)
    requires Indexed(t) && Succeeded(t, r, org, nominee, now)
    ensures Indexed(r)
    ensures forall n :: !HasPending(r, org, n)
    ensures forall o, n :: o != org ==> (HasPending(r, o, n) <==> HasPending(t, o, n))
  {
    var id :| Pending(t, id, org) && t.nominations[id].nominee == nominee
              && r.nominations == t.nominations[id := t.nominations[id].(acceptedAt := Some(now))];
    assert forall i, o :: Pending(r, i, o) <==> Pending(t, i, o) && i != id;
    forall o, n | o != org
      ensures HasPending(r, o, n) <==> HasPending(t, o, n)
    {
      assert forall i :: Pending(t, i, o) <==> Pending(r, i, o);
      assert forall i :: Pending(t, i, o) ==> r.nominations[i] == t.nominations[i];
    }
  }

  /** A call that replaces, withdraws or consumes what is pending for `org`. */
  ghost predicate Touches(t: Tables, op: Op, org: int)
  {
    match op
    case Nominate(o, _, _, refused) => o == org && !refused
    case Withdraw(o, refused) => o == org && !refused
    case Accept(o, _, _) => o == org && Accepts(t, op)
  }

  lemma StepShape(t: Tables, e: Event, org: int)
    requires Indexed(t)
    ensures var r := Apply(t, e);
      && Indexed(r)
      && (Touches(t, e.op, org) ==>
            forall n :: HasPending(r, org, n) <==> e.op.Nominate? && e.op.nominee == n)
      && (!Touches(t, e.op, org) ==> forall n :: HasPending(r, org, n) <==> HasPending(t, org, n))
  {
    hide Indexed, HasPending, Succeeded, Upsert, DeletePending, SwapSeat;
    match e.op
    case Nominate(o, n, nominator, refused) => UpsertShape(t, o, n, nominator, e.now);
    case Withdraw(o, refused) => DeleteShape(t, o);
    case Accept(o, n, _) =>
      if Accepts(t, e.op) {
        SwapSeatSucceeds(t, o, n, e.now);
        SwapShape(t, Apply(t, e), o, n, e.now);
      }
  }

  /** At most one pending nomination per organisation, after every run. */
  lemma {:induction false} RunKeepsIndex(t: Tables, es: seq<Event>)
    requires Indexed(t)
    ensures Indexed(Run(t, es))
  {
    if es != [] {
      RunKeepsIndex(t, es[..|es| - 1]);
      StepShape(Run(t, es[..|es| - 1]), es[|es| - 1], 0);
    }
  }

  /** Event `i` nominated `nominee`, and no later one replaced, withdrew or consumed that. */
  ghost predicate InForce(t: Tables, es: seq<Event>, i: nat, org: int, nominee: int)
  {
    && i < |es| && es[i].op.Nominate? && !es[i].op.refused && es[i].op.org == org && es[i].op.nominee == nominee
    && forall j :: i < j < |es| ==> !Touches(Run(t, es[..j]), es[j].op, org)
  }

  /** An acceptance goes through exactly when no step of it is refused and the nomination it
      answers is the one in force: made for this nominee, and since then neither overwritten,
      withdrawn nor accepted. */
  lemma AcceptanceNeedsNominationInForce(t: Tables, es: seq<Event>, op: Op)
    requires Indexed(t) && op.Accept? && forall n :: !HasPending(t, op.org, n)
    ensures Accepts(Run(t, es), op) <==>
      && op.faults.Clean(Seat(op.org, op.nominee) in Run(t, es).members)
      && exists i :: InForce(t, es, i, op.org, op.nominee)
  {
    PendingIsInForce(t, es, op.org, op.nominee);
  }

  lemma {:induction false} PendingIsInForce(t: Tables, es: seq<Event>, org: int, nominee: int)
    requires Indexed(t) && forall n :: !HasPending(t, org, n)
    ensures HasPending(Run(t, es), org, nominee) <==> exists i :: InForce(t, es, i, org, nominee)
  {
    hide Indexed, HasPending, Apply, Touches;
    if es != [] {
      var k := |es| - 1;
      var init := es[..k];
      RunKeepsIndex(t, init);
      StepShape(Run(t, init), es[k], org);
      PendingIsInForce(t, init, org, nominee);
      assert forall j :: 0 <= j < k ==> init[..j] == es[..j];
      if Touches(Run(t, init), es[k].op, org) {
        TouchedNow(t, es, org, nominee);
      } else {
        assert forall i :: InForce(t, init, i, org, nominee) ==> InForce(t, es, i, org, nominee);
        assert forall i :: InForce(t, es, i, org, nominee) ==> i != k by {
          TouchedNow(t, es, org, nominee);
        }
        assert forall i :: InForce(t, es, i, org, nominee) ==> InForce(t, init, i, org, nominee);
      }
    }
  }

  lemma TouchedNow(t: Tables, es: seq<Event>, org: int, nominee: int)
    requires es != []
    ensures var k := |es| - 1;
      && (Touches(Run(t, es[..k]), es[k].op, org) ==>
            ((exists i :: InForce(t, es, i, org, nominee)) <==> Names(es[k].op, nominee)))
      && (InForce(t, es, k, org, nominee) ==> Touches(Run(t, es[..k]), es[k].op, org))
  {
    var k := |es| - 1;
    if Touches(Run(t, es[..k]), es[k].op, org) {
      assert forall i :: InForce(t, es, i, org, nominee) ==> i == k;
      if Names(es[k].op, nominee) { assert InForce(t, es, k, org, nominee); }
    }
  }

  predicate Names(op: Op, nominee: int) { op.Nominate? && op.nominee == nominee }

  ghost predicate SoleOwner(t: Tables, org: int, user: int)
  {
    && Seat(org, user) in t.members
    && forall s :: s in t.members && s.org == org ==> (t.members[s].Owner? <==> s.user == user)
  }

  /** An organisation that has an owner never loses its last one, and nobody loses a seat. */
  lemma {:induction false} OwnerNeverLost(t: Tables, es: seq<Event>, org: int)
    requires Indexed(t)
    ensures HasOwner(t, org) ==> HasOwner(Run(t, es), org)
    ensures t.members.Keys <= Run(t, es).members.Keys
  {
    if es != [] {
      var before, e := Run(t, es[..|es| - 1]), es[|es| - 1];
      OwnerNeverLost(t, es[..|es| - 1], org);
      RunKeepsIndex(t, es[..|es| - 1]);
      if Accepts(before, e.op) { OwnerStep(before, e, org); }
    }
  }

  lemma OwnerStep(t: Tables, e: Event, org: int)
    requires Indexed(t) && Accepts(t, e.op)
    ensures t.members.Keys <= Apply(t, e).members.Keys
    ensures SoleOwner(Apply(t, e), e.op.org, e.op.nominee)
    ensures HasOwner(t, org) ==> HasOwner(Apply(t, e), org)
  {
    SwapSeatSucceeds(t, e.op.org, e.op.nominee, e.now);
    var r := Apply(t, e);
    hide SwapSeat;
    if HasOwner(t, org) {
      var s :| s in t.members && s.org == org && t.members[s].Owner?;
      if org == e.op.org {
        assert Seat(org, e.op.nominee) in r.members;
      } else {
        assert r.members[s].Owner?;
      }
    }
  }

  /** Whoever accepted last is the only owner. */
  lemma {:induction false} LastAcceptorOwns(t: Tables, es: seq<Event>, i: nat)
    requires Indexed(t) && i < |es| && Accepts(Run(t, es[..i]), es[i].op)
    requires forall j :: i < j < |es| && es[j].op.Accept? && es[j].op.org == es[i].op.org ==> !Accepts(Run(t, es[..j]), es[j].op)
    ensures SoleOwner(Run(t, es), es[i].op.org, es[i].op.nominee)
  {
    var k := |es| - 1;
    var init, org := es[..k], es[i].op.org;
    RunKeepsIndex(t, init);
    if i == k {
      OwnerStep(Run(t, init), es[k], org);
    } else {
      assert forall j :: 0 <= j < k ==> init[..j] == es[..j];
      LastAcceptorOwns(t, init, i);
      OtherStep(Run(t, init), es[k], org, es[i].op.nominee);
    }
  }

  lemma OtherStep(t: Tables, e: Event, org: int, user: int)
    requires Indexed(t) && SoleOwner(t, org, user) && !(Accepts(t, e.op) && e.op.org == org)
    ensures SoleOwner(Apply(t, e), org, user)
  {
    if Accepts(t, e.op) {
      SwapSeatSucceeds(t, e.op.org, e.op.nominee, e.now);
      hide SwapSeat;
    }
  }

  // ---------- Every acceptance consumes exactly one nomination, for good ----------

  ghost function AcceptedIds(t: Tables): (ids: set<nat>)
  {
    set id | id in t.nominations && t.nominations[id].acceptedAt.Some?
  }

  ghost function Acceptances(t: Tables, es: seq<Event>): (n: nat)
  {
    if es == [] then 0
    else
      var init, e := es[..|es| - 1], es[|es| - 1];
      Acceptances(t, init) + if Accepts(Run(t, init), e.op) then 1 else 0
  }

  lemma AcceptedStep(t: Tables, e: Event)
    requires Indexed(t)
    ensures |AcceptedIds(Apply(t, e))| == |AcceptedIds(t)| + if Accepts(t, e.op) then 1 else 0
    ensures forall id :: id in AcceptedIds(t) ==>
              id in Apply(t, e).nominations && Apply(t, e).nominations[id] == t.nominations[id]
  {
    var r := Apply(t, e);
    if Accepts(t, e.op) {
      SwapSeatSucceeds(t, e.op.org, e.op.nominee, e.now);
      hide SwapSeat;
      var id :| Pending(t, id, e.op.org)
                && r.nominations == t.nominations[id := t.nominations[id].(acceptedAt := Some(e.now))];
      assert AcceptedIds(r) == AcceptedIds(t) + {id};
    } else {
      assert AcceptedIds(r) == AcceptedIds(t);
    }
  }

  /** Each reported success leaves exactly one more accepted nomination, and an accepted
      nomination is never changed, deleted or accepted again. */
  lemma {:induction false} AcceptedForGood(t: Tables, es: seq<Event>)
    requires Indexed(t)
    ensures |AcceptedIds(Run(t, es))| == |AcceptedIds(t)| + Acceptances(t, es)
    ensures forall id :: id in AcceptedIds(t) ==>
              id in Run(t, es).nominations && Run(t, es).nominations[id] == t.nominations[id]
  {
    hide Indexed, Apply, Accepts;
    if es != [] {
      var init := es[..|es| - 1];
      AcceptedForGood(t, init);
      RunKeepsIndex(t, init);
      AcceptedStep(Run(t, init), es[|es| - 1]);
    }
  }
}
