/** A policy's capital lock is released once, so only one of payout, expiry and a single installment collection
    ever succeeds for it. */
module SettlementLocks {
  import opened Arithmetic
  import opened Sequences
  import opened Ledger
  import opened Installments
  import opened Policies
  import opened CapitalLocks
  import opened Settlement
  import opened SettlementRuns
  import opened SettlementOutcomes

  predicate IsEnded(e: Engine, id: nat) {
    id in e.policies && (e.policies[id].status == Claimed || e.policies[id].status == Expired)
  }

  /** A policy that was paid or expired has spent its lock. */
  ghost predicate EndedReleased(e: Engine, locks: Locks) {
    forall id :: IsEnded(e, id) ==> IsReleased(locks, id)
  }

  /** A schedule pays out a positive plan within the coverage, and has paid only at the price of the lock. */
  ghost predicate ScheduleFits(plan: Schedule, c: Claim, locks: Locks) {
    && plan.amount > 0 && plan.count > 0 && plan.amount * plan.count <= c.coverage
    && (plan.paid > 0 ==> IsReleased(locks, c.policy))
  }

  ghost predicate SchedulesFit(d: Desk, locks: Locks) {
    forall cid :: cid in d.schedules ==> cid in d.claims && ScheduleFits(d.schedules[cid], d.claims[cid], locks)
  }

  ghost predicate LockSound(s: System) {
    Sound(s) && EndedReleased(s.engine, s.locks) && SchedulesFit(s.desk, s.locks)
  }

  // ----- Every operation keeps them -----

  /** Ending a policy spends its lock, and releases last. */
  ghost predicate LockStep(s: System, t: System) {
    && LocksEvolve(s.locks, t.locks)
    && forall id :: IsEnded(t.engine, id) ==> IsEnded(s.engine, id) || (IsHeld(s.locks, id) && IsReleased(t.locks, id))
  }

  lemma SettleLocks(s: System, cid: nat, verdict: bool, bps: Option<nat>, now: nat)
    requires EngineSound(s.engine) && cid in s.desk.claims && s.desk.claims[cid].policy in s.engine.policies
    requires Settle(s, cid, verdict, bps, now).Some?
    ensures LockStep(s, Settle(s, cid, verdict, bps, now).value)
    ensures Settle(s, cid, verdict, bps, now).value.desk.schedules == s.desk.schedules
  {
    PayClaimExact(s.engine, s.desk.claims[cid].policy);
  }

  lemma AttendLocks(s: System, policy: nat, verdict: bool, bps: Option<nat>, now: nat)
    requires EngineSound(s.engine) && Attend(s, policy, verdict, bps, now).Some?
    ensures LockStep(s, Attend(s, policy, verdict, bps, now).value)
    ensures Attend(s, policy, verdict, bps, now).value.desk.schedules == s.desk.schedules
  {
    if Attend(s, policy, verdict, bps, now).value != s {
      if now > s.engine.policies[policy].end {
        FinishKeepsRest(s.engine, policy, Expired);
      } else {
        OpenAndSettleLocks(s, policy, verdict, bps, now);
      }
    }
  }

  lemma OpenAndSettleLocks(s: System, policy: nat, verdict: bool, bps: Option<nat>, now: nat)
    requires EngineSound(s.engine) && policy in s.engine.policies && OpenAndSettle(s, policy, verdict, bps, now).Some?
    ensures LockStep(s, OpenAndSettle(s, policy, verdict, bps, now).value)
    ensures OpenAndSettle(s, policy, verdict, bps, now).value.desk.schedules == s.desk.schedules
  {
    if policy in s.desk.policyClaim {
      SettleLocks(s, s.desk.policyClaim[policy], verdict, bps, now);
    } else {
      var p := s.engine.policies[policy];
      SettleLocks(s.(desk := OpenClaim(s.desk, policy, p.holder, p.coverage, now)), s.desk.nextId, verdict, bps, now);
    }
  }

  lemma EngineOpLocks(s: System, op: Op, t: System)
    requires IsEngineOp(op) && Try(s, op) == Some(t)
    ensures LockStep(s, t) && t.desk == s.desk
  {
    if op.OpBuy? {
      BuyLocks(s, op.order, op.now);
      assert t == s.(engine := Buy(s.engine, op.order, op.now).value);
    } else if op.OpCancelPolicy? {
      CancelLocks(s, op.holder, op.policy, op.reasonLen, op.now);
      assert t == s.(engine := Cancel(s.engine, op.holder, op.policy, op.reasonLen, op.now).value);
    } else if op.OpTransferPolicy? {
      TransferLocks(s, op.from, op.to, op.policy);
      assert t == s.(engine := TransferPolicy(s.engine, op.from, op.to, op.policy).value);
    } else {
      assert t.engine.policies == s.engine.policies && t.locks == s.locks;
    }
  }

  lemma BuyLocks(s: System, order: Order, now: nat)
    requires Buy(s.engine, order, now).Some?
    ensures LockStep(s, s.(engine := Buy(s.engine, order, now).value))
  {
  }

  lemma CancelLocks(s: System, holder: Address, policy: nat, reasonLen: nat, now: nat)
    requires Cancel(s.engine, holder, policy, reasonLen, now).Some?
    ensures LockStep(s, s.(engine := Cancel(s.engine, holder, policy, reasonLen, now).value))
  {
    FinishKeepsRest(s.engine, policy, Cancelled);
  }

  lemma TransferLocks(s: System, from: Address, to: Address, policy: nat)
    requires TransferPolicy(s.engine, from, to, policy).Some?
    ensures LockStep(s, s.(engine := TransferPolicy(s.engine, from, to, policy).value))
  {
  }

  lemma AutoLocks(s: System, policy: nat, verdict: bool, bps: Option<nat>, now: nat)
    requires EngineSound(s.engine) && AutoProcess(s, policy, verdict, bps, now).Some?
    ensures LockStep(s, AutoProcess(s, policy, verdict, bps, now).value)
    ensures AutoProcess(s, policy, verdict, bps, now).value.desk.schedules == s.desk.schedules
  {
    AttendLocks(s.(desk := s.desk.(lastAuto := s.desk.lastAuto[policy := now])), policy, verdict, bps, now);
  }

  lemma ProcessLocks(s: System, cid: nat, verdict: bool, bps: Option<nat>, now: nat)
    requires EngineSound(s.engine) && Process(s, cid, verdict, bps, now).Some?
    ensures LockStep(s, Process(s, cid, verdict, bps, now).value)
    ensures Process(s, cid, verdict, bps, now).value.desk.schedules == s.desk.schedules
  {
    if s.desk.claims[cid].status == Pending {
      SettleLocks(s, cid, verdict, bps, now);
    }
  }

  lemma PayoutLocks(s: System, cid: nat, now: nat)
    requires EngineSound(s.engine) && ClaimPayout(s, cid, now).Some?
    ensures LockStep(s, ClaimPayout(s, cid, now).value)
    ensures ClaimPayout(s, cid, now).value.desk.schedules == s.desk.schedules
  {
    PayClaimExact(s.engine, s.desk.claims[cid].policy);
  }

  lemma SettlingLocks(s: System, op: Op, t: System)
    requires EngineSound(s.engine) && IsSettling(op) && Try(s, op) == Some(t)
    ensures LockStep(s, t) && t.desk.schedules == s.desk.schedules
  {
    if op.OpAuto? {
      AutoLocks(s, op.policy, op.verdict, op.bps, op.now);
      assert t == AutoProcess(s, op.policy, op.verdict, op.bps, op.now).value;
    } else if op.OpProcess? {
      ProcessLocks(s, op.cid, op.verdict, op.bps, op.now);
      assert t == Process(s, op.cid, op.verdict, op.bps, op.now).value;
    } else if op.OpProcessMulti? {
      var verdict := Combined(op.readings, op.requireAll);
      ProcessLocks(s, op.cid, verdict, op.bps, op.now);
      assert t == Process(s, op.cid, verdict, op.bps, op.now).value;
    } else {
      PayoutLocks(s, op.cid, op.now);
      assert t == ClaimPayout(s, op.cid, op.now).value;
    }
  }

  lemma OtherLocks(s: System, op: Op)
    requires !IsEngineOp(op) && !IsSettling(op) && Try(s, op).Some?
    ensures LockStep(s, Try(s, op).value) && Try(s, op).value.engine == s.engine
    ensures !op.OpSchedule? && !op.OpInstallment? ==> Try(s, op).value.desk.schedules == s.desk.schedules
  {
  }

  lemma StepLocks(s: System, op: Op)
    requires EngineSound(s.engine)
    ensures LockStep(s, Step(s, op))
    ensures !op.OpSchedule? && !op.OpInstallment? ==> Step(s, op).desk.schedules == s.desk.schedules
  {
    if Try(s, op).Some? {
      if IsEngineOp(op) {
        EngineOpLocks(s, op, Try(s, op).value);
      } else if IsSettling(op) {
        SettlingLocks(s, op, Try(s, op).value);
      } else {
        OtherLocks(s, op);
      }
    }
  }

  /** Claims keep policy and coverage, so plans keep fitting. */
  lemma PlansStillFit(s: System, t: System)
    requires ClaimsFit(s.desk.claims, s.engine, s.desk.confirmed) && ClaimsFit(t.desk.claims, t.engine, t.desk.confirmed)
    requires EngineEvolves(s.engine, t.engine) && PoliciesStay(s.desk, t.desk) && LocksEvolve(s.locks, t.locks)
    requires SchedulesFit(s.desk, s.locks) && t.desk.schedules == s.desk.schedules
    ensures SchedulesFit(t.desk, t.locks)
  {
    forall cid | cid in t.desk.schedules
      ensures cid in t.desk.claims && ScheduleFits(t.desk.schedules[cid], t.desk.claims[cid], t.locks)
    {
      assert ClaimFits(s.desk.claims[cid], s.engine, s.desk.confirmed);
      assert ClaimFits(t.desk.claims[cid], t.engine, t.desk.confirmed);
    }
  }

  lemma ScheduledFits(s: System, cid: nat, amount: int, count: nat, interval: nat, now: nat)
    requires ClaimsFit(s.desk.claims, s.engine, s.desk.confirmed) && TermsSound(s.engine) && SchedulesFit(s.desk, s.locks)
    requires ScheduleInstallments(s, cid, amount, count, interval, now).Some?
    ensures SchedulesFit(ScheduleInstallments(s, cid, amount, count, interval, now).value.desk, s.locks)
  {
    assert ClaimFits(s.desk.claims[cid], s.engine, s.desk.confirmed);
    PlanFits(s.desk.claims[cid].coverage, amount, count, interval, now);
  }

  lemma CollectedFits(s: System, claimant: Address, cid: nat, now: nat)
    requires SchedulesFit(s.desk, s.locks) && ClaimInstallment(s, claimant, cid, now).Some?
    ensures var t := ClaimInstallment(s, claimant, cid, now).value.0; SchedulesFit(t.desk, t.locks)
  {
  }

  lemma StepSchedules(s: System, op: Op)
    requires Sound(s) && Sound(Step(s, op)) && SchedulesFit(s.desk, s.locks)
    requires EngineEvolves(s.engine, Step(s, op).engine)
    ensures SchedulesFit(Step(s, op).desk, Step(s, op).locks)
  {
    if op.OpSchedule? {
      if Try(s, op).Some? {
        ScheduledFits(s, op.cid, op.amount, op.count, op.interval, op.now);
      }
    } else if op.OpInstallment? {
      if Try(s, op).Some? {
        CollectedFits(s, op.claimant, op.cid, op.now);
      }
    } else {
      StepLocks(s, op);
      StepPolicies(s, op);
      PlansStillFit(s, Step(s, op));
    }
  }

  lemma StepLockSound(s: System, op: Op)
    requires LockSound(s) && FromOutside(op)
    ensures LockSound(Step(s, op)) && LocksEvolve(s.locks, Step(s, op).locks) && EngineEvolves(s.engine, Step(s, op).engine)
  {
    var t := Step(s, op);
    StepSound(s, op);
    StepLocks(s, op);
    StepSchedules(s, op);
    EndedStillReleased(s, t);
  }

  lemma EndedStillReleased(s: System, t: System)
    requires EndedReleased(s.engine, s.locks) && LockStep(s, t)
    ensures EndedReleased(t.engine, t.locks)
  {
  }

  lemma {:induction false} RunLockSound(s: System, ops: seq<Op>)
    requires LockSound(s) && forall i :: 0 <= i < |ops| ==> FromOutside(ops[i])
    ensures LockSound(Run(s, ops)) && LocksEvolve(s.locks, Run(s, ops).locks) && EngineEvolves(s.engine, Run(s, ops).engine)
  {
    if ops != [] {
      RunLockSound(s, ops[..|ops| - 1]);
      StepLockSound(Run(s, ops[..|ops| - 1]), ops[|ops| - 1]);
    }
  }

  // ----- One success per policy -----

  /** A collection goes through exactly when the claimant calls at or after the first installment time of a
      schedule with an interval, while the lock is still held. Then the policy was neither paid nor expired,
      everything due so far is reported as paid, within the coverage, and the lock is gone; but no token moves. */
  lemma CollectionExact(s: System, claimant: Address, cid: nat, now: nat)
    requires LockSound(s)
    ensures ClaimInstallment(s, claimant, cid, now).Some? <==>
            && cid in s.desk.claims && s.desk.claims[cid].claimant == claimant && cid in s.desk.schedules
            && s.desk.schedules[cid].interval > 0 && now >= s.desk.schedules[cid].firstAt
            && IsHeld(s.locks, s.desk.claims[cid].policy)
    ensures ClaimInstallment(s, claimant, cid, now).Some? ==>
              var plan, c, t := s.desk.schedules[cid], s.desk.claims[cid], ClaimInstallment(s, claimant, cid, now).value;
              && 0 < t.1 == plan.amount * Due(plan, now) <= c.coverage
              && !IsEnded(s.engine, c.policy) && t.0.engine == s.engine && IsReleased(t.0.locks, c.policy)
  {
    if cid in s.desk.claims && cid in s.desk.schedules {
      var plan, c := s.desk.schedules[cid], s.desk.claims[cid];
      assert ScheduleFits(plan, c, s.locks);
      assert ClaimFits(c, s.engine, s.desk.confirmed);
      assert IsHeld(s.locks, c.policy) ==> plan.paid == 0 && !IsEnded(s.engine, c.policy);
      FirstCollection(plan, c.coverage, now);
    }
  }

  lemma FirstCollection(plan: Schedule, coverage: int, now: nat)
    requires plan.amount > 0 && plan.count > 0 && plan.amount * plan.count <= coverage <= I128_MAX
    ensures plan.paid == 0 ==> (Collect(plan, now).Some? <==> plan.interval > 0 && now >= plan.firstAt)
    ensures plan.paid == 0 && Collect(plan, now).Some? ==> 0 < Collect(plan, now).value.1 == plan.amount * Due(plan, now) <= coverage
  {
    if plan.paid == 0 && plan.interval > 0 && now >= plan.firstAt {
      StepAmount(plan.amount, plan.count, Due(plan, now), 0);
      MulMono(1, Due(plan, now), plan.amount);
    }
  }

  /** An installment of a claim on this policy is collected. */
  predicate Collects(s: System, op: Op, policy: nat) {
    op.OpInstallment? && Try(s, op).Some? && s.desk.claims[op.cid].policy == policy
  }

  /** The policy is paid, at once or after a delay, or expires. */
  predicate Ends(s: System, op: Op, policy: nat) {
    !IsEnded(s.engine, policy) && IsEnded(Step(s, op).engine, policy)
  }

  /** Once the lock is released nothing succeeds for the policy any more, in any run and whatever is scheduled,
      disputed or settled again: no collection, no delayed payout and no settlement at once. A policy still
      active then is never paid and never expires; it stays active until its holder cancels it. */
  lemma ReleasedForGood(s: System, ops: seq<Op>, policy: nat, cid: nat, claimant: Address, bps: Option<nat>, now: nat)
    requires LockSound(s) && (forall i :: 0 <= i < |ops| ==> FromOutside(ops[i])) && IsReleased(s.locks, policy)
    ensures var t := Run(s, ops);
      cid in t.desk.claims && t.desk.claims[cid].policy == policy ==>
        && ClaimInstallment(t, claimant, cid, now).None? && ClaimPayout(t, cid, now).None?
        && (HasStatus(t.desk, cid, Pending) && t.desk.rules.payoutDelay == 0 ==> Process(t, cid, true, bps, now).None?)
    ensures policy in s.engine.policies && !IsEnded(s.engine, policy) ==> !IsEnded(Run(s, ops).engine, policy)
  {
    RunLockSound(s, ops);
    NeverEnds(s, ops, policy);
    var t := Run(s, ops);
    if cid in t.desk.claims && t.desk.claims[cid].policy == policy {
      RefusedWithoutLock(t, cid, claimant, bps, now);
    }
  }

  /** An installment collected while the delayed payout of an approved claim still waits costs the claimant the
      coverage: no later run pays the claim or its policy, nor another installment, however often a schedule is
      made anew. */
  lemma CollectionForfeitsPayout(s: System, claimant: Address, cid: nat, at: nat, ops: seq<Op>, now: nat)
    requires LockSound(s) && ClaimInstallment(s, claimant, cid, at).Some? && forall i :: 0 <= i < |ops| ==> FromOutside(ops[i])
    ensures var t := Run(ClaimInstallment(s, claimant, cid, at).value.0, ops);
      && ClaimPayout(t, cid, now).None? && ClaimInstallment(t, claimant, cid, now).None?
      && forall flow :: flow in FlowsOf(t.engine, s.desk.claims[cid].policy) ==> flow.Refund?
  {
    var op, policy := OpInstallment(claimant, cid, at), s.desk.claims[cid].policy;
    assert Step(s, op) == ClaimInstallment(s, claimant, cid, at).value.0;
    var mid, t := Step(s, op), Run(Step(s, op), ops);
    CollectionExact(s, claimant, cid, at);
    StepLockSound(s, op);
    RunLockSound(mid, ops);
    RunPolicies(mid, ops);
    ReleasedForGood(mid, ops, policy, cid, claimant, None, now);
    assert ClaimFits(s.desk.claims[cid], s.engine, s.desk.confirmed);
    NoPayoutUnlessClaimed(t.engine, policy);
  }

  lemma NoPayoutUnlessClaimed(e: Engine, id: nat)
    requires FlowsSound(e) && id in e.policies && e.policies[id].status != Claimed
    ensures forall flow :: flow in FlowsOf(e, id) ==> flow.Refund?
  {
    FlowsByStatus(id, e.policies[id], FlowsOf(e, id));
  }

  /** After a settlement at once no installment of the claim is ever reported. */
  lemma NoInstallmentAfterSettling(s: System, cid: nat, bps: Option<nat>, at: nat, ops: seq<Op>, claimant: Address, now: nat)
    requires LockSound(s) && HasStatus(s.desk, cid, Pending) && s.desk.rules.payoutDelay == 0
    requires Process(s, cid, true, bps, at).Some? && forall i :: 0 <= i < |ops| ==> FromOutside(ops[i])
    ensures ClaimInstallment(Run(Process(s, cid, true, bps, at).value, ops), claimant, cid, now).None?
  {
    var op, policy := OpProcess(cid, true, bps, at), s.desk.claims[cid].policy;
    var mid := Step(s, op);
    SettlingReleases(s, cid, bps, at);
    ProcessStep(s, cid, true, bps, at);
    StepLockSound(s, op);
    RunPolicies(mid, ops);
    ReleasedForGood(mid, ops, policy, cid, claimant, bps, now);
  }

  lemma ProcessStep(s: System, cid: nat, verdict: bool, bps: Option<nat>, now: nat)
    requires Process(s, cid, verdict, bps, now).Some?
    ensures Step(s, OpProcess(cid, verdict, bps, now)) == Process(s, cid, verdict, bps, now).value
  {
  }

  lemma SettlingReleases(s: System, cid: nat, bps: Option<nat>, at: nat)
    requires Sound(s) && HasStatus(s.desk, cid, Pending) && s.desk.rules.payoutDelay == 0
    requires Process(s, cid, true, bps, at).Some?
    ensures var t := Process(s, cid, true, bps, at).value;
      && IsReleased(t.locks, s.desk.claims[cid].policy)
      && cid in t.desk.claims && t.desk.claims[cid].policy == s.desk.claims[cid].policy
  {
    ProcessIsSettle(s, cid, true, bps, at);
    SettleReleases(s, cid, bps, at);
  }

  lemma SettleReleases(s: System, cid: nat, bps: Option<nat>, at: nat)
    requires cid in s.desk.claims && s.desk.claims[cid].policy in s.engine.policies
    requires s.desk.rules.payoutDelay == 0 && Settle(s, cid, true, bps, at).Some?
    ensures var t := Settle(s, cid, true, bps, at).value;
      && IsReleased(t.locks, s.desk.claims[cid].policy)
      && cid in t.desk.claims && t.desk.claims[cid].policy == s.desk.claims[cid].policy
  {
  }

  lemma RefusedWithoutLock(s: System, cid: nat, claimant: Address, bps: Option<nat>, now: nat)
    requires cid in s.desk.claims && !IsHeld(s.locks, s.desk.claims[cid].policy)
    ensures ClaimInstallment(s, claimant, cid, now).None? && ClaimPayout(s, cid, now).None?
    ensures HasStatus(s.desk, cid, Pending) && s.desk.rules.payoutDelay == 0 ==> Process(s, cid, true, bps, now).None?
  {
  }

  lemma {:induction false} NeverEnds(s: System, ops: seq<Op>, policy: nat)
    requires LockSound(s) && (forall i :: 0 <= i < |ops| ==> FromOutside(ops[i])) && IsReleased(s.locks, policy)
    ensures !IsEnded(s.engine, policy) ==> !IsEnded(Run(s, ops).engine, policy)
  {
    if ops != [] {
      var before := Run(s, ops[..|ops| - 1]);
      NeverEnds(s, ops[..|ops| - 1], policy);
      RunLockSound(s, ops[..|ops| - 1]);
      EndingNeedsLock(before, ops[|ops| - 1], policy);
    }
  }

  lemma EndingNeedsLock(s: System, op: Op, policy: nat)
    requires LockSound(s) && FromOutside(op)
    ensures Ends(s, op, policy) ==> IsHeld(s.locks, policy) && IsReleased(Step(s, op).locks, policy)
  {
    StepLocks(s, op);
  }

  lemma CollectingNeedsLock(s: System, op: Op, policy: nat)
    requires Collects(s, op, policy)
    ensures IsHeld(s.locks, policy) && IsReleased(Step(s, op).locks, policy)
  {
  }

  predicate Succeeds(s: System, op: Op, policy: nat) {
    Collects(s, op, policy) || Ends(s, op, policy)
  }

  /** Of everything that a run does for a policy, at most one operation pays it, lets it expire or collects an
      installment. */
  lemma OneSuccessPerPolicy(admin: Address, rules: Rules, ledger: map<Address, int>, ops: seq<Op>, i: nat, j: nat, policy: nat)
    requires (forall k :: 0 <= k < |ops| ==> FromOutside(ops[k])) && i < j < |ops|
    ensures var d := Deployed(admin, rules, ledger);
      !(Succeeds(Run(d, ops[..i]), ops[i], policy) && Succeeds(Run(d, ops[..j]), ops[j], policy))
  {
    var d := Deployed(admin, rules, ledger);
    DeployedLockSound(admin, rules, ledger);
    if Succeeds(Run(d, ops[..i]), ops[i], policy) && Succeeds(Run(d, ops[..j]), ops[j], policy) {
      assert ops[..j][..i] == ops[..i];
      SpentLater(d, ops[..j], i, policy);
      RunLockSound(d, ops[..j]);
      SpendsLock(Run(d, ops[..j]), ops[j], policy);
      assert false;
    }
  }

  lemma SpentLater(s: System, ops: seq<Op>, i: nat, policy: nat)
    requires LockSound(s) && (forall k :: 0 <= k < |ops| ==> FromOutside(ops[k])) && i < |ops|
    requires Succeeds(Run(s, ops[..i]), ops[i], policy)
    ensures IsReleased(Run(s, ops).locks, policy)
  {
    RunLockSound(s, ops[..i]);
    SpendsLock(Run(s, ops[..i]), ops[i], policy);
    StepLockSound(Run(s, ops[..i]), ops[i]);
    RunLockSound(Step(Run(s, ops[..i]), ops[i]), ops[i + 1..]);
    RunSplit(s, ops, i);
  }

  lemma DeployedLockSound(admin: Address, rules: Rules, ledger: map<Address, int>)
    ensures LockSound(Deployed(admin, rules, ledger))
  {
    ReachableSound(admin, rules, ledger, []);
  }

  lemma SpendsLock(s: System, op: Op, policy: nat)
    requires LockSound(s) && FromOutside(op) && Succeeds(s, op, policy)
    ensures IsHeld(s.locks, policy) && IsReleased(Step(s, op).locks, policy)
  {
    if Collects(s, op, policy) {
      CollectingNeedsLock(s, op, policy);
    } else {
      EndingNeedsLock(s, op, policy);
    }
  }

  /** A run goes through the state after each of its operations. */
  lemma {:induction false} RunSplit(s: System, ops: seq<Op>, i: nat)
    requires i < |ops|
    ensures Run(s, ops) == Run(Step(Run(s, ops[..i]), ops[i]), ops[i + 1..])
  {
    if i == |ops| - 1 {
      assert ops[i + 1..] == [];
    } else {
      var init, rest := ops[..|ops| - 1], ops[i + 1..];
      RunSplit(s, init, i);
      assert init[..i] == ops[..i] && init[i + 1..] == rest[..|rest| - 1];
    }
  }

  // ----- Installments over a run -----

  /** All installments a run reports as paid for a policy. */
  function Reported(s: System, ops: seq<Op>, policy: nat): int {
    if ops == [] then 0
    else
      var before, op := Run(s, ops[..|ops| - 1]), ops[|ops| - 1];
      Reported(s, ops[..|ops| - 1], policy)
      + if Collects(before, op, policy) then ClaimInstallment(before, op.claimant, op.cid, op.now).value.1 else 0
  }

  /** Over any run, however often installments are scheduled and collected, a policy's installments come to no
      more than its coverage, and to nothing once the coverage itself was paid. */
  lemma {:induction false} ReportedWithinCoverage(admin: Address, rules: Rules, ledger: map<Address, int>, ops: seq<Op>, policy: nat)
    requires forall k :: 0 <= k < |ops| ==> FromOutside(ops[k])
    ensures var t, total := Run(Deployed(admin, rules, ledger), ops), Reported(Deployed(admin, rules, ledger), ops, policy);
      && total >= 0
      && (total > 0 ==> IsReleased(t.locks, policy) && policy in t.engine.policies && !IsEnded(t.engine, policy)
                        && total <= t.engine.policies[policy].coverage)
  {
    if ops != [] {
      var d, init, op := Deployed(admin, rules, ledger), ops[..|ops| - 1], ops[|ops| - 1];
      ReportedWithinCoverage(admin, rules, ledger, init, policy);
      DeployedLockSound(admin, rules, ledger);
      RunLockSound(d, init);
      ReportedStep(Run(d, init), op, policy, Reported(d, init, policy));
    }
  }

  lemma ReportedStep(s: System, op: Op, policy: nat, before: int)
    requires LockSound(s) && FromOutside(op)
    requires before >= 0
    requires before > 0 ==> IsReleased(s.locks, policy) && policy in s.engine.policies && !IsEnded(s.engine, policy)
                            && before <= s.engine.policies[policy].coverage
    ensures var t := Step(s, op);
      var total := before + if Collects(s, op, policy) then ClaimInstallment(s, op.claimant, op.cid, op.now).value.1 else 0;
      && total >= 0
      && (total > 0 ==> IsReleased(t.locks, policy) && policy in t.engine.policies && !IsEnded(t.engine, policy)
                        && total <= t.engine.policies[policy].coverage)
  {
    StepLockSound(s, op);
    if Collects(s, op, policy) {
      CollectingNeedsLock(s, op, policy);
      CollectionExact(s, op.claimant, op.cid, op.now);
      assert ClaimFits(s.desk.claims[op.cid], s.engine, s.desk.confirmed);
    } else if before > 0 && Ends(s, op, policy) {
      EndingNeedsLock(s, op, policy);
    }
  }
}
