/** What a run does to an approved claim: which operation approved it, and what can still stop a payout that
    waits for its time. */
module DelayedPayouts {
  import opened Arithmetic
  import opened Sequences
  import opened Ledger
  import opened Policies
  import opened CapitalLocks
  import opened Settlement
  import opened SettlementRuns
  import opened SettlementOutcomes

  // ----- The verdict behind a payment -----

  /** The operation settles the pending claim on the policy with a true verdict; `auto_process` files the claim
      first when there is none. */
  predicate Confirms(s: System, op: Op, policy: nat) {
    Try(s, op).Some? &&
    match op
    case OpAuto(id, verdict, _, now) =>
      && id == policy && verdict && IsActive(s.engine, id) && now <= s.engine.policies[id].end
      && (id in s.desk.policyClaim ==> HasStatus(s.desk, s.desk.policyClaim[id], Pending))
    case OpProcess(cid, verdict, _, _) =>
      HasStatus(s.desk, cid, Pending) && s.desk.claims[cid].policy == policy && verdict
    case OpProcessMulti(cid, readings, all, _, _) =>
      HasStatus(s.desk, cid, Pending) && s.desk.claims[cid].policy == policy && Combined(readings, all)
    case _ => false
  }

  lemma ProcessConfirms(s: System, cid: nat, verdict: bool, bps: Option<nat>, now: nat)
    requires Process(s, cid, verdict, bps, now).Some?
    ensures Process(s, cid, verdict, bps, now).value.desk.confirmed
            == if verdict && HasStatus(s.desk, cid, Pending) then s.desk.confirmed + {s.desk.claims[cid].policy} else s.desk.confirmed
  {
  }

  lemma AutoConfirms(s: System, policy: nat, verdict: bool, bps: Option<nat>, now: nat)
    requires ClaimsIndexed(s.desk) && AutoProcess(s, policy, verdict, bps, now).Some?
    ensures AutoProcess(s, policy, verdict, bps, now).value.desk.confirmed
            == if Confirms(s, OpAuto(policy, verdict, bps, now), policy) then s.desk.confirmed + {policy} else s.desk.confirmed
  {
  }

  lemma StepConfirms(s: System, op: Op, policy: nat)
    requires ClaimsIndexed(s.desk)
    ensures policy in Step(s, op).desk.confirmed <==> policy in s.desk.confirmed || Confirms(s, op, policy)
  {
    if Try(s, op).Some? {
      if op.OpAuto? {
        AutoConfirms(s, op.policy, op.verdict, op.bps, op.now);
      } else if op.OpProcess? {
        ProcessConfirms(s, op.cid, op.verdict, op.bps, op.now);
      } else if op.OpProcessMulti? {
        ProcessConfirms(s, op.cid, Combined(op.readings, op.requireAll), op.bps, op.now);
      } else {
        OthersConfirmNothing(s, op);
      }
    }
  }

  lemma OthersConfirmNothing(s: System, op: Op)
    requires !op.OpAuto? && !op.OpProcess? && !op.OpProcessMulti? && Try(s, op).Some?
    ensures Try(s, op).value.desk.confirmed == s.desk.confirmed
  {
  }

  ghost predicate ConfirmedAt(s: System, ops: seq<Op>, i: nat, policy: nat) {
    i < |ops| && Confirms(Run(s, ops[..i]), ops[i], policy)
  }

  lemma {:induction false} ConfirmingOperation(s: System, ops: seq<Op>, policy: nat) returns (i: nat)
    requires Sound(s) && policy !in s.desk.confirmed && policy in Run(s, ops).desk.confirmed
    requires forall k :: 0 <= k < |ops| ==> FromOutside(ops[k])
    ensures ConfirmedAt(s, ops, i, policy)
  {
    var init, last := ops[..|ops| - 1], ops[|ops| - 1];
    if policy in Run(s, init).desk.confirmed {
      i := ConfirmingOperation(s, init, policy);
      assert init[..i] == ops[..i] && init[i] == ops[i];
    } else {
      i := |ops| - 1;
      RunSound(s, init);
      StepConfirms(Run(s, init), last, policy);
    }
  }

  /** Coverage is paid only if some operation of the run settled the claim on that policy with a true verdict. */
  lemma PaidOnlyOnVerdict(admin: Address, rules: Rules, ledger: map<Address, int>, ops: seq<Op>, policy: nat)
    requires forall i :: 0 <= i < |ops| ==> FromOutside(ops[i])
    ensures var e := Run(Deployed(admin, rules, ledger), ops).engine;
      policy in e.policies && FlowsOf(e, policy) == [Payout(policy, e.policies[policy].holder, e.policies[policy].coverage)]
      ==> exists i :: ConfirmedAt(Deployed(admin, rules, ledger), ops, i, policy)
  {
    ReachableSound(admin, rules, ledger, []);
    PaidExactlyOnce(admin, rules, ledger, ops, policy);
    if policy in Run(Deployed(admin, rules, ledger), ops).desk.confirmed {
      var i := ConfirmingOperation(Deployed(admin, rules, ledger), ops, policy);
    }
  }

  // ----- A payout that waits -----

  /** What a delayed payout depends on in the claim. */
  ghost predicate PayoutKept(d: Desk, f: Desk, cid: nat) {
    cid in d.claims ==>
      && cid in f.claims && f.claims[cid].policy == d.claims[cid].policy && f.claims[cid].coverage == d.claims[cid].coverage
      && f.claims[cid].readyAt == d.claims[cid].readyAt && f.claims[cid].paidAmount == d.claims[cid].paidAmount
  }

  /** The payout is carried out, or the claim is approved once more. */
  predicate Disturbs(s: System, op: Op, cid: nat) {
    cid in s.desk.claims &&
    ((op.OpClaimPayout? && op.cid == cid && Try(s, op).Some?) || Confirms(s, op, s.desk.claims[cid].policy))
  }

  lemma SettleKeepsPayout(s: System, j: nat, verdict: bool, bps: Option<nat>, now: nat, cid: nat)
    requires j in s.desk.claims && s.desk.claims[j].policy in s.engine.policies && Settle(s, j, verdict, bps, now).Some?
    requires cid != j || !verdict
    ensures PayoutKept(s.desk, Settle(s, j, verdict, bps, now).value.desk, cid)
  {
  }

  lemma ProcessKeepsPayout(s: System, j: nat, verdict: bool, bps: Option<nat>, now: nat, cid: nat)
    requires Process(s, j, verdict, bps, now).Some?
    requires cid == j ==> !verdict || !HasStatus(s.desk, j, Pending)
    ensures PayoutKept(s.desk, Process(s, j, verdict, bps, now).value.desk, cid)
  {
    if HasStatus(s.desk, j, Pending) {
      SettleKeepsPayout(s, j, verdict, bps, now, cid);
    }
  }

  lemma OpenAndSettleKeepsPayout(s: System, policy: nat, verdict: bool, bps: Option<nat>, now: nat, cid: nat)
    requires ClaimsIndexed(s.desk) && policy in s.engine.policies && OpenAndSettle(s, policy, verdict, bps, now).Some?
    requires cid in s.desk.claims && (s.desk.claims[cid].policy != policy || !verdict)
    ensures PayoutKept(s.desk, OpenAndSettle(s, policy, verdict, bps, now).value.desk, cid)
  {
    if policy in s.desk.policyClaim {
      SettleKeepsPayout(s, s.desk.policyClaim[policy], verdict, bps, now, cid);
    } else {
      var p := s.engine.policies[policy];
      SettleKeepsPayout(s.(desk := OpenClaim(s.desk, policy, p.holder, p.coverage, now)), s.desk.nextId, verdict, bps, now, cid);
    }
  }

  lemma AutoKeepsPayout(s: System, policy: nat, verdict: bool, bps: Option<nat>, now: nat, cid: nat)
    requires ClaimsIndexed(s.desk) && AutoProcess(s, policy, verdict, bps, now).Some? && cid in s.desk.claims
    requires !Confirms(s, OpAuto(policy, verdict, bps, now), s.desk.claims[cid].policy)
    ensures PayoutKept(s.desk, AutoProcess(s, policy, verdict, bps, now).value.desk, cid)
  {
    var seen := s.(desk := s.desk.(lastAuto := s.desk.lastAuto[policy := now]));
    if IsActive(s.engine, policy) && now <= s.engine.policies[policy].end
        && (policy in s.desk.policyClaim ==> HasStatus(s.desk, s.desk.policyClaim[policy], Pending)) {
      OpenAndSettleKeepsPayout(seen, policy, verdict, bps, now, cid);
    }
  }

  lemma OtherKeepsPayout(s: System, op: Op, cid: nat)
    requires ClaimsIndexed(s.desk) && !IsSettling(op) && Try(s, op).Some? && cid in s.desk.claims
    ensures PayoutKept(s.desk, Try(s, op).value.desk, cid)
  {
    if IsReview(op) {
      ReviewKeepsPayout(s, op, cid);
    } else {
      OtherKeepsClaims(s, op);
    }
  }

  lemma ReviewKeepsPayout(s: System, op: Op, cid: nat)
    requires s.desk.nextId !in s.desk.claims && IsReview(op) && Try(s, op).Some? && cid in s.desk.claims
    ensures PayoutKept(s.desk, Try(s, op).value.desk, cid)
  {
  }

  lemma OtherKeepsClaims(s: System, op: Op)
    requires !IsSettling(op) && !IsReview(op) && Try(s, op).Some?
    ensures Try(s, op).value.desk.claims == s.desk.claims
  {
  }

  lemma StepKeepsPayout(s: System, op: Op, cid: nat)
    requires ClaimsIndexed(s.desk) && cid in s.desk.claims && !Disturbs(s, op, cid)
    ensures PayoutKept(s.desk, Step(s, op).desk, cid)
  {
    if Try(s, op).Some? {
      if op.OpAuto? {
        AutoKeepsPayout(s, op.policy, op.verdict, op.bps, op.now, cid);
      } else if op.OpProcess? {
        ProcessKeepsPayout(s, op.cid, op.verdict, op.bps, op.now, cid);
      } else if op.OpProcessMulti? {
        ProcessKeepsPayout(s, op.cid, Combined(op.readings, op.requireAll), op.bps, op.now, cid);
      } else if !op.OpClaimPayout? {
        OtherKeepsPayout(s, op, cid);
      }
    }
  }

  /** No operation of the run disturbs the payout. */
  ghost predicate Undisturbed(s: System, ops: seq<Op>, cid: nat) {
    ops == [] ||
    (Undisturbed(s, ops[..|ops| - 1], cid) && !Disturbs(Run(s, ops[..|ops| - 1]), ops[|ops| - 1], cid))
  }

  lemma {:induction false} RunKeepsPayout(s: System, ops: seq<Op>, cid: nat)
    requires Sound(s) && cid in s.desk.claims && forall i :: 0 <= i < |ops| ==> FromOutside(ops[i])
    requires Undisturbed(s, ops, cid)
    ensures PayoutKept(s.desk, Run(s, ops).desk, cid)
  {
    if ops != [] {
      var init, before := ops[..|ops| - 1], Run(s, ops[..|ops| - 1]);
      RunSound(s, init);
      RunKeepsPayout(s, init, cid);
      StepKeepsPayout(before, ops[|ops| - 1], cid);
    }
  }

  /** Once approved, a delayed payout can be stopped by nothing that happens to the claim: after any run in which
      it was neither paid nor approved once more, rejected or disputed as it may be, it goes through exactly when
      its time has come, the policy is active and covered and its lock is held. */
  lemma OnlyThePolicyStopsPayout(s: System, ops: seq<Op>, cid: nat, now: nat)
    requires Sound(s) && (forall i :: 0 <= i < |ops| ==> FromOutside(ops[i]))
    requires cid in s.desk.claims && s.desk.claims[cid].readyAt.Some?
    requires Undisturbed(s, ops, cid)
    ensures var t, c := Run(s, ops), s.desk.claims[cid];
      && (ClaimPayout(t, cid, now).Some? <==>
          && now >= c.readyAt.value && IsActive(t.engine, c.policy)
          && c.coverage <= Balance(t.engine.ledger, SELF) && IsHeld(t.locks, c.policy))
      && (ClaimPayout(t, cid, now).Some? ==>
          PaysHolder(t.engine, ClaimPayout(t, cid, now).value.engine, c.policy, c.coverage))
  {
    RunSound(s, ops);
    RunKeepsPayout(s, ops, cid);
    ClaimPayoutExact(Run(s, ops), cid, now);
  }

  /** A true verdict on a pending claim while a delay is configured. */
  lemma DelayedVerdict(s: System, cid: nat, bps: Option<nat>, now: nat)
    requires HasStatus(s.desk, cid, Pending) && s.desk.rules.payoutDelay > 0
    requires ClaimFits(s.desk.claims[cid], s.engine, s.desk.confirmed) && 0 < s.desk.claims[cid].coverage <= MAX_COVERAGE
    ensures Process(s, cid, true, bps, now).Some? <==>
            s.desk.claims[cid].claimant == s.engine.policies[s.desk.claims[cid].policy].holder
    ensures Process(s, cid, true, bps, now).Some? ==>
              var u := Process(s, cid, true, bps, now).value;
              && cid in u.desk.claims && u.desk.claims[cid].readyAt == Some(SatAddU64(now, s.desk.rules.payoutDelay))
              && u.engine == s.engine
  {
    ShareFitsI128(s.desk.claims[cid].coverage, EffectiveBps(bps));
  }

  /** A dispute resolved by another true verdict postpones the payout: it waits the whole delay again. */
  lemma DisputePostponesPayout(s: System, caller: Address, cid: nat, at: nat, bps: Option<nat>, now: nat)
    requires Sound(s) && s.desk.rules.payoutDelay > 0 && Dispute(s, caller, cid, true, at).Some?
    ensures Resolve(Dispute(s, caller, cid, true, at).value, cid).Some?
    ensures var t, c := Resolve(Dispute(s, caller, cid, true, at).value, cid).value, s.desk.claims[cid];
      && (Process(t, cid, true, bps, now).Some? <==> c.claimant == s.engine.policies[c.policy].holder)
      && (Process(t, cid, true, bps, now).Some? ==>
            var u := Process(t, cid, true, bps, now).value;
            && cid in u.desk.claims && u.desk.claims[cid].readyAt == Some(SatAddU64(now, s.desk.rules.payoutDelay))
            && u.engine == s.engine)
  {
    assert ClaimFits(s.desk.claims[cid], s.engine, s.desk.confirmed);
    ReopenedByDispute(s, caller, cid, at);
    DelayedVerdict(Resolve(Dispute(s, caller, cid, true, at).value, cid).value, cid, bps, now);
  }

  lemma ReopenedByDispute(s: System, caller: Address, cid: nat, at: nat)
    requires Dispute(s, caller, cid, true, at).Some?
    ensures Resolve(Dispute(s, caller, cid, true, at).value, cid).Some?
    ensures var t := Resolve(Dispute(s, caller, cid, true, at).value, cid).value;
      && t.engine == s.engine && t.desk.rules == s.desk.rules && t.desk.confirmed == s.desk.confirmed
      && cid in t.desk.claims && t.desk.claims[cid] == s.desk.claims[cid].(status := Pending)
  {
  }
}
