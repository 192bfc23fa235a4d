/** Payout schedules of large claims: an amount per interval, collected whenever the claimant calls. */
module Installments {
  import opened Arithmetic

  const MAX_INSTALLMENTS: nat := 12

  datatype Schedule = Schedule(amount: int, count: nat, interval: nat, firstAt: nat, paid: nat)

  /** `schedule_installments` for an approved claim of this coverage. */
  function Plan(coverage: int, amount: int, count: nat, interval: nat, now: nat): Option<Schedule> {
    if amount <= 0 || count == 0 || count > MAX_INSTALLMENTS || SatMul(amount, count) > coverage then None
    else Some(Schedule(amount, count, interval, SatAddU64(now, interval), 0))
  }

  /** How many installments have fallen due. */
  function Due(s: Schedule, now: nat): nat
    requires s.interval > 0
  {
    if now < s.firstAt then 0 else Min(SatAddU64((now - s.firstAt) / s.interval, 1), s.count)
  }

  /** `claim_installment`: reports as paid everything that is due and not yet paid. Once the first installment time
      has come an interval of zero is a division by zero. The call also has to release the policy's capital
      lock. */
  function Collect(s: Schedule, now: nat): Option<(Schedule, int)> {
    if s.paid >= s.count || now < s.firstAt || s.interval == 0 then None
    else if Due(s, now) <= s.paid then None
    else Some((s.(paid := Due(s, now)), SatMul(s.amount, Due(s, now) - s.paid)))
  }

  /** A schedule with its policy's lock, and the total reported as paid. */
  datatype Account = Account(schedule: Schedule, held: bool, total: int)

  /** What calls at these times come to; an aborted call changes nothing, and the lock is released once. */
  function Collected(a: Account, times: seq<nat>): Account {
    if times == [] then a
    else
      var before := Collected(a, times[..|times| - 1]);
      var next := Collect(before.schedule, times[|times| - 1]);
      if !before.held || next.None? then before else Account(next.value.0, false, before.total + next.value.1)
  }

  lemma PlanFits(coverage: int, amount: int, count: nat, interval: nat, now: nat)
    requires Plan(coverage, amount, count, interval, now).Some? && coverage <= I128_MAX
    ensures 0 < amount && (coverage < I128_MAX ==> amount * count <= coverage)
  {
  }

  lemma DueMonotone(s: Schedule, now: nat, later: nat)
    requires s.interval > 0 && now <= later
    ensures Due(s, now) <= Due(s, later) <= s.count
  {
    if now >= s.firstAt {
      DivMono(now - s.firstAt, later - s.firstAt, s.interval);
    }
  }

  lemma StepAmount(amount: int, count: nat, due: nat, paid: nat)
    requires amount > 0 && paid <= due <= count && amount * count <= I128_MAX
    ensures SatMul(amount, due - paid) == amount * due - amount * paid
    ensures 0 <= amount * paid <= amount * due <= amount * count
  {
    MulMono(due, count, amount);
    MulMono(paid, due, amount);
    MulMono(0, paid, amount);
    assert amount * (due - paid) == amount * due - amount * paid;
  }

  /** Whatever the calls, the total is the amount times the installments paid, and within the coverage. */
  lemma {:induction false} CollectedTelescopes(s: Schedule, held: bool, coverage: int, times: seq<nat>)
    requires s.paid == 0 && s.amount > 0 && s.amount * s.count <= coverage <= I128_MAX
    ensures var a := Collected(Account(s, held, 0), times);
      && a.schedule == s.(paid := a.schedule.paid) && a.schedule.paid <= s.count
      && (a.held ==> a.schedule.paid == 0)
      && 0 <= a.total == s.amount * a.schedule.paid <= coverage
  {
    if times != [] {
      var before, last := Collected(Account(s, held, 0), times[..|times| - 1]), times[|times| - 1];
      CollectedTelescopes(s, held, coverage, times[..|times| - 1]);
      if before.held && Collect(before.schedule, last).Some? {
        StepAmount(s.amount, s.count, Due(before.schedule, last), before.schedule.paid);
      }
    } else {
      StepAmount(s.amount, s.count, 0, 0);
    }
  }

  predicate IsFirstProductive(s: Schedule, times: seq<nat>, k: nat) {
    k < |times| && times[k] >= s.firstAt && forall i :: 0 <= i < k ==> times[i] < s.firstAt
  }

  /** The lock allows one collection only, so the first call at or after the first installment time decides:
      what falls due later is never paid. The calls come to the whole plan exactly when everything was due at
      that call, and to what is due at the last call exactly when nothing fell due in between. */
  lemma OnlyTheFirstCallPays(s: Schedule, coverage: int, times: seq<nat>, k: nat)
    requires s.paid == 0 && s.amount > 0 && s.count > 0 && s.amount * s.count <= coverage <= I128_MAX && s.interval > 0
    requires IsFirstProductive(s, times, k)
    ensures var total := Collected(Account(s, true, 0), times).total;
      && total == s.amount * Due(s, times[k])
      && (total == s.amount * s.count <==> Due(s, times[k]) == s.count)
      && (total == s.amount * Due(s, times[|times| - 1]) <==> Due(s, times[k]) == Due(s, times[|times| - 1]))
  {
    FirstCallDecides(s, coverage, times, k);
    CancelFactor(s.amount, Due(s, times[k]), s.count);
    CancelFactor(s.amount, Due(s, times[k]), Due(s, times[|times| - 1]));
  }

  lemma CancelFactor(factor: int, x: int, y: int)
    requires factor > 0
    ensures factor * x == factor * y <==> x == y
  {
  }

  lemma {:induction false} FirstCallDecides(s: Schedule, coverage: int, times: seq<nat>, k: nat)
    requires s.paid == 0 && s.amount > 0 && s.count > 0 && s.amount * s.count <= coverage <= I128_MAX && s.interval > 0
    requires IsFirstProductive(s, times, k)
    ensures var a := Collected(Account(s, true, 0), times);
      !a.held && a.total == s.amount * Due(s, times[k])
  {
    var earlier := times[..|times| - 1];
    if k == |times| - 1 {
      NothingBefore(s, earlier);
      StepAmount(s.amount, s.count, Due(s, times[k]), 0);
    } else {
      FirstCallDecides(s, coverage, earlier, k);
    }
  }

  lemma {:induction false} NothingBefore(s: Schedule, times: seq<nat>)
    requires forall i :: 0 <= i < |times| ==> times[i] < s.firstAt
    ensures Collected(Account(s, true, 0), times) == Account(s, true, 0)
  {
    if times != [] {
      NothingBefore(s, times[..|times| - 1]);
    }
  }

  /** Waiting never reports less. */
  lemma WaitingPays(s: Schedule, coverage: int, sooner: seq<nat>, k: nat, later: seq<nat>, l: nat)
    requires s.paid == 0 && s.amount > 0 && s.count > 0 && s.amount * s.count <= coverage <= I128_MAX && s.interval > 0
    requires IsFirstProductive(s, sooner, k) && IsFirstProductive(s, later, l) && sooner[k] <= later[l]
    ensures Collected(Account(s, true, 0), sooner).total <= Collected(Account(s, true, 0), later).total
  {
    assert Collected(Account(s, true, 0), sooner).total == s.amount * Due(s, sooner[k]) by {
      FirstCallDecides(s, coverage, sooner, k);
    }
    assert Collected(Account(s, true, 0), later).total == s.amount * Due(s, later[l]) by {
      FirstCallDecides(s, coverage, later, l);
    }
    MoreDue(s, sooner[k], later[l]);
  }

  lemma MoreDue(s: Schedule, now: nat, later: nat)
    requires s.amount > 0 && s.interval > 0 && now <= later
    ensures s.amount * Due(s, now) <= s.amount * Due(s, later)
  {
    DueMonotone(s, now, later);
    MulMono(Due(s, now), Due(s, later), s.amount);
  }

  /** A schedule without an interval can be set up but never pays. */
  lemma {:induction false} ZeroIntervalPaysNothing(a: Account, times: seq<nat>)
    requires a.schedule.interval == 0
    ensures Collected(a, times) == a
  {
    if times != [] {
      ZeroIntervalPaysNothing(a, times[..|times| - 1]);
    }
  }
}
