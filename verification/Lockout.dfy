/** Login lockout: the failed-login counter, its ladder of lock times, and the rate at which wrong
    passwords can be tried over a whole run. */
module Lockout {

  datatype Row = Row(failedLoginCount: nat, lockedUntil: int)

  const FRESH := Row(0, 0)

  /** One login attempt on an account: the service reads the clock at `checkedAt` and the
      repository again at `countedAt`; `stored` says whether the counter update reaches the row. */
  datatype Attempt = Attempt(checkedAt: int, countedAt: int, correct: bool, legacyHash: bool, allowLegacy: bool, stored: bool)

  /** Seconds of lock the n-th failure in a row earns. */
  function LockSeconds(n: nat): (d: nat)
  {
    if n >= 20 then 3600 else if n >= 15 then 1800 else if n >= 10 then 300 else if n >= 5 then 60 else 0
  }

  /** Neither locked nor turned away by the legacy-hash policy: the password is looked at. */
  predicate Checked(row: Row, a: Attempt)
  {
    !(row.lockedUntil > a.checkedAt) && !(!a.allowLegacy && a.legacyHash)
  }

  function Failed(row: Row, now: int): (r: Row)
  {
    var n := row.failedLoginCount + 1;
    Row(n, if LockSeconds(n) == 0 then 0 else now + LockSeconds(n))
  }

  function Apply(row: Row, a: Attempt): (r: Row)
  {
    if !Checked(row, a) || !a.stored then row
    else if !a.correct then Failed(row, a.countedAt)
    else if row.failedLoginCount > 0 then FRESH else row
  }

  class Account {
    var failedLoginCount: nat
    var lockedUntil: int

    function Value(): Row
      reads this
    {
      Row(failedLoginCount, lockedUntil)
    }

    constructor ()
      ensures Value() == FRESH
    {
      failedLoginCount, lockedUntil := 0, 0;
    }

    method IncrementFailedLogins(now: int, stored: bool)
      modifies this
      ensures Value() == if stored then Failed(old(Value()), now) else old(Value())
      ensures stored ==>
        && failedLoginCount == old(failedLoginCount) + 1
        && if failedLoginCount < 5 then lockedUntil == 0
           else lockedUntil >= now && Earns(failedLoginCount, lockedUntil - now)
    {
      var newFailedCount := failedLoginCount + 1;
      var newLockedUntil := 0;
      if newFailedCount >= 20 {
        newLockedUntil := now + 3600;
      } else if newFailedCount >= 15 {
        newLockedUntil := now + 1800;
      } else if newFailedCount >= 10 {
        newLockedUntil := now + 300;
      } else if newFailedCount >= 5 {
        newLockedUntil := now + 60;
      }
      if stored {
        failedLoginCount, lockedUntil := newFailedCount, newLockedUntil;
      }
    }

    method ResetFailedLogins(stored: bool)
      modifies this
      ensures Value() == if stored then FRESH else old(Value())
    {
      if stored {
        failedLoginCount, lockedUntil := 0, 0;
      }
    }

    method ValidateUser(a: Attempt) returns (accepted: bool)
      modifies this
      ensures accepted <==> a.correct && old(lockedUntil) <= a.checkedAt && (a.legacyHash ==> a.allowLegacy)
      ensures Value() == Apply(old(Value()), a)
      ensures a.checkedAt < old(lockedUntil) || (a.legacyHash && !a.allowLegacy) ==> Value() == old(Value())
    {
      if lockedUntil > a.checkedAt {
        return false;
      }
      if !a.allowLegacy && a.legacyHash {
        return false;
      }
      if !a.correct {
        IncrementFailedLogins(a.countedAt, a.stored);
        return false;
      }
      if failedLoginCount > 0 {
        ResetFailedLogins(a.stored);
      }
      return true;
    }
  }

  // ---------- Runs ----------

  function Run(row: Row, es: seq<Attempt>): (r: Row)
  {
    if es == [] then row else Apply(Run(row, es[..|es| - 1]), es[|es| - 1])
  }

  /** Attempts handled one at a time on a clock that never goes back. */
  predicate Timely(es: seq<Attempt>)
  {
    && (forall i :: 0 <= i < |es| ==> es[i].checkedAt <= es[i].countedAt)
    && (forall i, j :: 0 <= i < j < |es| ==> es[i].countedAt <= es[j].checkedAt)
  }

  /** When the wrong passwords were checked that were counted since the last success. */
  function WrongTimes(row: Row, es: seq<Attempt>): (ts: seq<int>)
  {
    if es == [] then []
    else
      var init, a := es[..|es| - 1], es[|es| - 1];
      if !Checked(Run(row, init), a) then WrongTimes(row, init)
      else if a.correct then []
      else if a.stored then WrongTimes(row, init) + [a.checkedAt]
      else WrongTimes(row, init)
  }

  /** The locks earned by the first n failures, end to end. */
  function Locks(n: nat): (d: nat) { if n == 0 then 0 else Locks(n - 1) + LockSeconds(n) }

  lemma NoLocks() ensures Locks(0) == 0 && LockSeconds(0) == 0 { }

  lemma LocksTo20()
    ensures Locks(19) == 10800
  {
    assert Locks(4) == 0;
    assert Locks(9) == 300;
    assert Locks(14) == 1800;
    assert Locks(19) == 10800;
  }

  lemma {:induction false} LocksFrom20(n: nat)
    requires n >= 19
    ensures Locks(n) == 10800 + 3600 * (n - 19)
  {
    LocksTo20();
    if n > 19 { LocksFrom20(n - 1); }
  }

  ghost predicate Spaced(ts: seq<int>)
  {
    forall i, j :: 0 <= i <= j < |ts| ==> ts[j] - ts[i] >= Locks(j) - Locks(i)
  }

  lemma SpacedMore(ts: seq<int>, t: int)
    requires Spaced(ts) && (ts != [] ==> t - ts[|ts| - 1] >= LockSeconds(|ts|))
    ensures Spaced(ts + [t])
  {
    var us := ts + [t];
    forall i, j | 0 <= i <= j < |us|
      ensures us[j] - us[i] >= Locks(j) - Locks(i)
    {
      if j == |ts| && i < j {
        assert ts[|ts| - 1] - ts[i] >= Locks(|ts| - 1) - Locks(i);
      }
    }
  }

  /** The counter is at least the number of counted failures, they are spaced by their locks, and
      the lock in force covers what the last of them earned. */
  ghost predicate Tracked(row: Row, ts: seq<int>, now: int)
  {
    && |ts| <= row.failedLoginCount && Spaced(ts)
    && (ts != [] ==> var last := ts[|ts| - 1];
          last <= now && (LockSeconds(|ts|) == 0 || row.lockedUntil >= last + LockSeconds(|ts|)))
  }

  lemma LadderRises(m: nat, n: nat)
    requires m <= n
    ensures LockSeconds(m) <= LockSeconds(n)
  {
  }

  lemma TrackedFailure(row: Row, ts: seq<int>, now: int, a: Attempt)
    requires Tracked(row, ts, now) && now <= a.checkedAt <= a.countedAt && Checked(row, a)
    ensures Tracked(Failed(row, a.countedAt), ts + [a.checkedAt], a.countedAt)
  {
    LadderRises(|ts| + 1, row.failedLoginCount + 1);
    SpacedMore(ts, a.checkedAt);
    hide LockSeconds, Spaced;
  }

  function Clock(es: seq<Attempt>): (now: int)
    requires es != []
  {
    es[|es| - 1].countedAt
  }

  lemma {:induction false} RunIsTracked(es: seq<Attempt>)
    requires Timely(es) && es != []
    ensures Tracked(Run(FRESH, es), WrongTimes(FRESH, es), Clock(es))
  {
    var k := |es| - 1;
    var init, a := es[..k], es[k];
    var row, ts := Run(FRESH, init), WrongTimes(FRESH, init);
    var now := if k == 0 then a.checkedAt else Clock(init);
    assert Tracked(row, ts, now) && now <= a.checkedAt by {
      if k > 0 { RunIsTracked(init); }
    }
    if Checked(row, a) && !a.correct && a.stored {
      TrackedFailure(row, ts, now, a);
    }
    hide LockSeconds, Spaced, Timely;
  }

  lemma SpacedGap(es: seq<Attempt>, i: nat, j: nat)
    requires Timely(es) && i <= j < |WrongTimes(FRESH, es)|
    ensures WrongTimes(FRESH, es)[j] - WrongTimes(FRESH, es)[i] >= Locks(j) - Locks(i)
  {
    RunIsTracked(es);
  }

  /** The spacing in seconds from the first to the k-th failure, rung by rung. */
  function Spacing(k: nat): (seconds: nat)
  {
    if k <= 5 then 0
    else if k <= 10 then 60 * (k - 5)
    else if k <= 15 then 300 + 300 * (k - 10)
    else if k <= 20 then 1800 + 1800 * (k - 15)
    else 10800 + 3600 * (k - 20)
  }

  lemma {:induction false} LocksAre(k: nat)
    requires k >= 1
    ensures Locks(k - 1) == Spacing(k)
  {
    NoLocks();
    if k > 1 { LocksAre(k - 1); }
  }

  /** From a fresh account, the k-th counted wrong password with no success in between comes no
      sooner after the i-th than the locks between them add up to: from the first to the k-th
      (k >= 20) that is three hours and an hour for each one past the twentieth. */
  lemma LockoutRateBound(es: seq<Attempt>, i: nat, k: nat)
    requires Timely(es) && 1 <= i <= k <= |WrongTimes(FRESH, es)|
    ensures var gap := WrongTimes(FRESH, es)[k - 1] - WrongTimes(FRESH, es)[i - 1];
      && gap >= Spacing(k) - Spacing(i)
      && (i == 1 && 5 <= k <= 10 ==> gap >= 60 * (k - 5))
      && (i == 1 && 10 <= k <= 15 ==> gap >= 300 + 300 * (k - 10))
      && (i == 1 && 15 <= k <= 20 ==> gap >= 1800 + 1800 * (k - 15))
      && (i == 1 && k >= 20 ==> gap >= 10800 + 3600 * (k - 20))
      && (i >= 20 ==> gap >= 3600 * (k - i))
  {
    hide Run, WrongTimes, Timely, Locks, LockSeconds;
    SpacedGap(es, i - 1, k - 1);
    LocksAre(i);
    LocksAre(k);
    NoLocks();
    if k >= 20 { LocksFrom20(k - 1); }
    if i >= 20 { LocksFrom20(i - 1); }
  }

  /** When every wrong password since the last success was checked, stored or not. */
  function CheckedTimes(row: Row, es: seq<Attempt>): (ts: seq<int>)
  {
    if es == [] then []
    else
      var init, a := es[..|es| - 1], es[|es| - 1];
      if !Checked(Run(row, init), a) then CheckedTimes(row, init)
      else if a.correct then []
      else CheckedTimes(row, init) + [a.checkedAt]
  }

  lemma {:induction false} AllCounted(row: Row, es: seq<Attempt>)
    requires forall i :: 0 <= i < |es| ==> es[i].stored
    ensures CheckedTimes(row, es) == WrongTimes(row, es)
  {
    if es != [] { AllCounted(row, es[..|es| - 1]); }
  }

  /** When the counter updates reach the row, that is the bound on the wrong passwords checked. */
  lemma CheckedRateBound(es: seq<Attempt>, k: nat)
    requires Timely(es) && (forall i :: 0 <= i < |es| ==> es[i].stored) && 20 <= k <= |CheckedTimes(FRESH, es)|
    ensures CheckedTimes(FRESH, es)[k - 1] - CheckedTimes(FRESH, es)[0] >= 10800 + 3600 * (k - 20)
  {
    AllCounted(FRESH, es);
    LockoutRateBound(es, 1, k);
  }

  /** Without that there is no bound: updates that never reach the row let any number of wrong
      passwords be checked at one instant. */
  lemma {:induction false} UnstoredAttempts(n: nat, now: int)
    requires now >= 0
    ensures var a := Attempt(now, now, false, false, true, false); var es := seq(n, i => a);
      Timely(es) && Run(FRESH, es) == FRESH && |CheckedTimes(FRESH, es)| == n
  {
    if n > 0 {
      var a := Attempt(now, now, false, false, true, false);
      UnstoredAttempts(n - 1, now);
      assert seq(n, i => a)[..n - 1] == seq(n - 1, i => a);
    }
  }

  // ---------- The bound is met ----------

  /** A wrong password tried at the very second the lock earned by the first n runs out. */
  function Strike(n: nat, start: nat): (a: Attempt)
  {
    var t := start + Locks(n);
    Attempt(t, t, false, false, true, true)
  }

  function Hammer(n: nat, start: nat): (es: seq<Attempt>) { seq(n, i requires 0 <= i < n => Strike(i, start)) }

  lemma {:induction false} LocksGrow(i: nat, n: nat)
    requires i <= n
    ensures Locks(i) <= Locks(n)
  {
    if i < n { LocksGrow(i, n - 1); }
  }

  lemma HammerIsTimely(n: nat, start: nat)
    ensures Timely(Hammer(n, start))
  {
    forall i, j | 0 <= i < j < n
      ensures Hammer(n, start)[i].countedAt <= Hammer(n, start)[j].checkedAt
    {
      LocksGrow(i, j);
    }
  }

  lemma {:induction false} HammerCounts(n: nat, start: nat)
    ensures Run(FRESH, Hammer(n, start)) == Row(n, if LockSeconds(n) == 0 then 0 else start + Locks(n))
    ensures WrongTimes(FRESH, Hammer(n, start)) == seq(n, i requires 0 <= i < n => start + Locks(i))
  {
    NoLocks();
    hide Locks, LockSeconds, Apply, Checked;
    if n > 0 {
      HammerCounts(n - 1, start);
      var es := Hammer(n, start);
      assert es[..n - 1] == Hammer(n - 1, start);
      assert es[n - 1] == Strike(n - 1, start);
      StrikeCounts(n, start);
    }
  }

  lemma StrikeCounts(n: nat, start: nat)
    requires n > 0
    ensures var row := Row(n - 1, if LockSeconds(n - 1) == 0 then 0 else start + Locks(n - 1));
      && !Strike(n - 1, start).correct && Strike(n - 1, start).stored
      && Strike(n - 1, start).checkedAt == start + Locks(n - 1)
      && Checked(row, Strike(n - 1, start))
      && Apply(row, Strike(n - 1, start)) == Row(n, if LockSeconds(n) == 0 then 0 else start + Locks(n))
  {
  }

  /** For every k there is a run that meets the bound exactly, on every rung: it cannot be improved. */
  lemma LockoutRateBoundIsTight(k: nat, start: nat)
    requires k >= 1
    ensures var es := Hammer(k, start);
      && Timely(es) && |WrongTimes(FRESH, es)| == k
      && WrongTimes(FRESH, es)[0] == start
      && (forall j :: 1 <= j <= k ==> WrongTimes(FRESH, es)[j - 1] == start + Spacing(j))
      && (k >= 20 ==> WrongTimes(FRESH, es)[k - 1] == start + 10800 + 3600 * (k - 20))
  {
    HammerIsTimely(k, start);
    HammerCounts(k, start);
    NoLocks();
    hide Hammer, Run, WrongTimes, Timely, Locks, LockSeconds;
    forall j | 1 <= j <= k
      ensures WrongTimes(FRESH, Hammer(k, start))[j - 1] == start + Spacing(j)
    {
      LocksAre(j);
    }
    LocksAre(k);
  }

  // ---------- The account is its history ----------

  /** The lock a failure earns, in seconds, by its place in the row of failures. */
  predicate Earns(n: nat, seconds: nat)
  {
    && (n < 5 ==> seconds == 0)
    && (5 <= n < 10 ==> seconds == 60)
    && (10 <= n < 15 ==> seconds == 300)
    && (15 <= n < 20 ==> seconds == 1800)
    && (n >= 20 ==> seconds == 3600)
  }

  /** When the last counted failure was written, if there is one since the last success. */
  function LastCounted(row: Row, es: seq<Attempt>): (t: int)
  {
    if es == [] then 0
    else
      var init, a := es[..|es| - 1], es[|es| - 1];
      if Checked(Run(row, init), a) && !a.correct && a.stored then a.countedAt else LastCounted(row, init)
  }

  /** With every update stored, the account holds exactly the number of wrong passwords since the last
      success, which clears it, and the lock the last of them earned, counted from its writing. */
  lemma {:induction false} AccountIsHistory(es: seq<Attempt>)
    requires forall i :: 0 <= i < |es| ==> es[i].stored
    ensures var row, n := Run(FRESH, es), |WrongTimes(FRESH, es)|;
      && row.failedLoginCount == n
      && (n < 5 ==> row.lockedUntil == 0)
      && (n >= 5 ==> row.lockedUntil > LastCounted(FRESH, es) && Earns(n, row.lockedUntil - LastCounted(FRESH, es)))
  {
    if es != [] { AccountIsHistory(es[..|es| - 1]); }
  }
}
