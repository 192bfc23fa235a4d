/** Exactly when a claim is filed, settled, disputed, reviewed or scheduled, in terms of what is stored, and all that the
    call changes. */
module SettlementAdmission {
  import opened Arithmetic
  import opened Sequences
  import opened Ledger
  import opened Installments
  import opened Policies
  import opened CapitalLocks
  import opened Settlement
  import opened SettlementRuns
  import opened SettlementOutcomes

  // ----- Filing -----

  /** From the start of the cover to its end, and after that until the deadline for claims. */
  predicate CoverTime(p: Policy, rules: Rules, now: nat) {
    p.start <= now && (now <= p.end || now <= Min(p.end + rules.claimDeadline, U64_MAX))
  }

  /** A new pending claim on the policy for its whole coverage, at the end of the queue. */
  ghost predicate OpenedClaim(d: Desk, f: Desk, policy: nat, claimant: Address, coverage: int, now: nat) {
    && f.claims == d.claims[d.nextId := Claim(policy, claimant, coverage, false, Pending, now, None, None, None, None)]
    && f.nextId == d.nextId + 1 && f.policyClaim == d.policyClaim[policy := d.nextId] && f.pending == d.pending + [d.nextId]
    && f == d.(claims := f.claims, nextId := f.nextId, policyClaim := f.policyClaim, pending := f.pending, lastClaim := f.lastClaim)
  }

  /** A claim is filed exactly by the holder of an active policy without a claim, in time, at least 60 seconds after
      that account's last claim, when it is admitted. */
  lemma FileExact(s: System, claimant: Address, policy: nat, now: nat, admitted: bool)
    requires Sound(s)
    ensures FileClaim(s, claimant, policy, now, admitted).Some? <==>
            && policy in s.engine.policies && s.engine.policies[policy].status == Active
            && s.engine.policies[policy].holder == claimant && policy !in s.desk.policyClaim && admitted
            && CoverTime(s.engine.policies[policy], s.desk.rules, now)
            && (claimant in s.desk.lastClaim ==> now >= Min(s.desk.lastClaim[claimant] + 60, U64_MAX))
    ensures FileClaim(s, claimant, policy, now, admitted).Some? ==>
              var t := FileClaim(s, claimant, policy, now, admitted).value;
              && t == s.(desk := t.desk)
              && OpenedClaim(s.desk, t.desk, policy, claimant, s.engine.policies[policy].coverage, now)
              && t.desk.lastClaim == s.desk.lastClaim[claimant := now]
  {
  }

  // ----- Settling -----

  /** The share of the coverage in basis points, rounded down; from 100% on all of it. */
  ghost predicate IsShare(amount: int, coverage: int, bps: Option<nat>) {
    if bps.None? || bps.value >= 10_000 then amount == coverage
    else amount * 10_000 <= coverage * bps.value < (amount + 1) * 10_000
  }

  /** The claim with the verdict against it. */
  function Refused(c: Claim, now: nat): Claim {
    c.(triggerMet := false, processedAt := Some(now), status := Rejected)
  }

  /** The claim `c` as approved: in full or in part, and payable now or from `readyAt` on. */
  ghost predicate ApprovedAs(c: Claim, a: Claim, bps: Option<nat>, now: nat, readyAt: Option<nat>) {
    && a.paidAmount.Some? && IsShare(a.paidAmount.value, c.coverage, bps) && a.payoutBps.Some?
    && a.payoutBps.value == (if bps.None? || bps.value >= 10_000 then 10_000 else bps.value)
    && a == c.(triggerMet := true, processedAt := Some(now), readyAt := readyAt, paidAmount := a.paidAmount, payoutBps := a.payoutBps,
               status := if bps.None? || bps.value >= 10_000 then Paid else PartiallyPaid)
  }

  /** The claim is rewritten and leaves the queue, which keeps its order. */
  ghost predicate Rewritten(d: Desk, f: Desk, cid: nat, c: Claim) {
    && f.claims == d.claims[cid := c]
    && f.pending == RemoveFirst(d.pending, cid)
    && f == d.(claims := f.claims, pending := f.pending, confirmed := f.confirmed)
  }

  lemma ShareExactly(coverage: int, bps: Option<nat>)
    requires coverage >= 0
    ensures IsShare(Share(coverage, EffectiveBps(bps)), coverage, bps)
    ensures EffectiveBps(bps) == if bps.None? || bps.value >= 10_000 then 10_000 else bps.value
  {
    if bps.Some? && bps.value < BPS {
      MulMono(0, coverage, bps.value);
      var q := coverage * bps.value / BPS;
      assert q * BPS <= coverage * bps.value < q * BPS + BPS;
    }
  }

  /** A verdict that the trigger was not met refuses a pending claim of the policy's holder. */
  lemma RefusalExact(s: System, cid: nat, bps: Option<nat>, now: nat)
    requires Sound(s) && cid in s.desk.claims
    ensures var c := s.desk.claims[cid];
      Settle(s, cid, false, bps, now).Some? <==> c.status == Pending && c.claimant == s.engine.policies[c.policy].holder
    ensures Settle(s, cid, false, bps, now).Some? ==>
              var t := Settle(s, cid, false, bps, now).value;
              && t == s.(desk := t.desk) && t.desk.confirmed == s.desk.confirmed
              && Rewritten(s.desk, t.desk, cid, Refused(s.desk.claims[cid], now))
  {
    assert ClaimFits(s.desk.claims[cid], s.engine, s.desk.confirmed);
  }

  lemma ApprovedExactly(c: Claim, bps: Option<nat>, now: nat)
    requires c.coverage >= 0
    ensures ApprovedAs(c, Approved(c, EffectiveBps(bps), now), bps, now, c.readyAt)
  {
    ShareExactly(c.coverage, bps);
  }

  lemma ApprovedLater(c: Claim, a: Claim, bps: Option<nat>, now: nat, at: nat)
    requires ApprovedAs(c, a, bps, now, c.readyAt)
    ensures ApprovedAs(c, a.(readyAt := Some(at)), bps, now, Some(at))
  {
  }

  lemma LaterIs(s: System, cid: nat, bps: Option<nat>, now: nat)
    requires cid in s.desk.claims && s.desk.claims[cid].policy in s.engine.policies && s.desk.rules.payoutDelay > 0
    requires FitsI128(s.desk.claims[cid].coverage * EffectiveBps(bps))
    ensures var c := s.desk.claims[cid];
      Settle(s, cid, true, bps, now) ==
      if c.status != Pending || c.claimant != s.engine.policies[c.policy].holder then None
      else Some(s.(desk := Resolved(s.desk, cid,
                                    Approved(c, EffectiveBps(bps), now).(readyAt := Some(SatAddU64(now, s.desk.rules.payoutDelay)))).(
                             confirmed := s.desk.confirmed + {c.policy})))
  {
  }

  lemma ClaimCovered(s: System, cid: nat, bps: Option<nat>)
    requires Sound(s) && cid in s.desk.claims
    ensures var c := s.desk.claims[cid];
      && c.policy in s.engine.policies && c.coverage == s.engine.policies[c.policy].coverage >= 0
      && FitsI128(c.coverage * EffectiveBps(bps))
  {
    var c := s.desk.claims[cid];
    assert ClaimFits(c, s.engine, s.desk.confirmed);
    PayClaimPays(s.engine, c.policy);
    ShareFitsI128(c.coverage, EffectiveBps(bps));
  }

  lemma ResolvedRewrites(d: Desk, cid: nat, c: Claim, confirmed: set<nat>)
    ensures var f := Resolved(d, cid, c).(confirmed := confirmed);
      cid in f.claims && f.claims[cid] == c && Rewritten(d, f, cid, c)
  {
  }

  /** A verdict that it was met approves such a claim. With a payout delay it is payable later, and nothing asks whether
      policy, pool or lock would allow a payment. */
  lemma ApprovalExact(s: System, cid: nat, bps: Option<nat>, now: nat)
    requires Sound(s) && cid in s.desk.claims && s.desk.rules.payoutDelay > 0
    ensures var c := s.desk.claims[cid];
      Settle(s, cid, true, bps, now).Some? <==> c.status == Pending && c.claimant == s.engine.policies[c.policy].holder
    ensures Settle(s, cid, true, bps, now).Some? ==>
              var c, t := s.desk.claims[cid], Settle(s, cid, true, bps, now).value;
              && t == s.(desk := t.desk) && t.desk.confirmed == s.desk.confirmed + {c.policy}
              && cid in t.desk.claims && Rewritten(s.desk, t.desk, cid, t.desk.claims[cid])
              && ApprovedAs(c, t.desk.claims[cid], bps, now, Some(Min(now + s.desk.rules.payoutDelay, U64_MAX)))
  {
    ClaimCovered(s, cid, bps);
    LaterIs(s, cid, bps, now);
    LaterApproved(s, cid, bps, now, Min(now + s.desk.rules.payoutDelay, U64_MAX));
  }

  lemma LaterApproved(s: System, cid: nat, bps: Option<nat>, now: nat, at: nat)
    requires cid in s.desk.claims && s.desk.claims[cid].coverage >= 0
    ensures var c, a := s.desk.claims[cid], Approved(s.desk.claims[cid], EffectiveBps(bps), now).(readyAt := Some(at));
      var f := Resolved(s.desk, cid, a).(confirmed := s.desk.confirmed + {c.policy});
      cid in f.claims && f.claims[cid] == a && Rewritten(s.desk, f, cid, a) && ApprovedAs(c, a, bps, now, Some(at))
  {
    var c := s.desk.claims[cid];
    ApprovedExactly(c, bps, now);
    ApprovedLater(c, Approved(c, EffectiveBps(bps), now), bps, now, at);
    ResolvedRewrites(s.desk, cid, Approved(c, EffectiveBps(bps), now).(readyAt := Some(at)), s.desk.confirmed + {c.policy});
  }

  lemma PaidIs(s: System, cid: nat, bps: Option<nat>, now: nat)
    requires cid in s.desk.claims && s.desk.claims[cid].policy in s.engine.policies && s.desk.rules.payoutDelay == 0
    requires Settle(s, cid, true, bps, now).Some?
    ensures var c, t := s.desk.claims[cid], Settle(s, cid, true, bps, now).value;
      && c.claimant == s.engine.policies[c.policy].holder && PayClaim(s.engine, c.policy) == Some(t.engine)
      && t.locks == s.locks[c.policy := Released]
      && t.desk == Resolved(s.desk, cid, Approved(c, EffectiveBps(bps), now)).(confirmed := s.desk.confirmed + {c.policy})
  {
  }

  /** Without a delay it pays at once (`SettleExact` says when that is possible), and the claim is approved the same way. */
  lemma PaymentExact(s: System, cid: nat, bps: Option<nat>, now: nat)
    requires Sound(s) && cid in s.desk.claims && s.desk.rules.payoutDelay == 0 && Settle(s, cid, true, bps, now).Some?
    ensures var c, t := s.desk.claims[cid], Settle(s, cid, true, bps, now).value;
      && t.desk.confirmed == s.desk.confirmed + {c.policy} && t.locks == s.locks[c.policy := Released]
      && cid in t.desk.claims && Rewritten(s.desk, t.desk, cid, t.desk.claims[cid])
      && ApprovedAs(c, t.desk.claims[cid], bps, now, c.readyAt)
      && t.engine.outflows == s.engine.outflows + [Payout(c.policy, c.claimant, c.coverage)]
  {
    var c := s.desk.claims[cid];
    ClaimCovered(s, cid, bps);
    PaidIs(s, cid, bps, now);
    PayClaimExact(s.engine, c.policy);
    ApprovedExactly(c, bps, now);
    ResolvedRewrites(s.desk, cid, Approved(c, EffectiveBps(bps), now), s.desk.confirmed + {c.policy});
  }

  /** Several readings decide as configured: every one of them, or at least one, says that the trigger was met. Without
      readings nothing is decided. */
  lemma ReadingsExact(s: System, cid: nat, readings: seq<bool>, requireAll: bool, bps: Option<nat>, now: nat)
    ensures readings == [] ==> ProcessMulti(s, cid, readings, requireAll, bps, now).None?
    ensures readings != [] && requireAll ==>
              ProcessMulti(s, cid, readings, requireAll, bps, now)
              == Process(s, cid, forall i :: 0 <= i < |readings| ==> readings[i], bps, now)
    ensures readings != [] && !requireAll ==>
              ProcessMulti(s, cid, readings, requireAll, bps, now)
              == Process(s, cid, exists i :: 0 <= i < |readings| && readings[i], bps, now)
  {
  }

  /** Processing looks at pending claims only; any other is reported back as it is. */
  lemma ProcessExact(s: System, cid: nat, verdict: bool, bps: Option<nat>, now: nat)
    requires Sound(s)
    ensures cid !in s.desk.claims ==> Process(s, cid, verdict, bps, now).None?
    ensures cid in s.desk.claims && s.desk.claims[cid].status != Pending ==> Process(s, cid, verdict, bps, now) == Some(s)
    ensures cid in s.desk.claims && s.desk.claims[cid].status == Pending ==>
              Process(s, cid, verdict, bps, now) == Settle(s, cid, verdict, bps, now)
  {
    if HasStatus(s.desk, cid, Pending) {
      ProcessIsSettle(s, cid, verdict, bps, now);
    }
  }

  // ----- Automatic processing -----

  /** The state with this attempt remembered. */
  function Attempted(s: System, policy: nat, now: nat): System {
    s.(desk := s.desk.(lastAuto := s.desk.lastAuto[policy := now]))
  }

  /** Automatic processing waits for the cooldown since the last attempt on the policy, which it remembers. */
  lemma CooldownExact(s: System, policy: nat, verdict: bool, bps: Option<nat>, now: nat)
    ensures var last := s.desk.lastAuto;
      AutoProcess(s, policy, verdict, bps, now) ==
      if policy in last && now < Min(last[policy] + s.desk.rules.autoCooldown, U64_MAX) then None
      else Attend(Attempted(s, policy, now), policy, verdict, bps, now)
  {
  }

  /** Then it leaves alone policies that are decided or no longer active, and expires one whose cover is over if its
      lock is held. */
  lemma AttendExact(s: System, policy: nat, verdict: bool, bps: Option<nat>, now: nat)
    requires Sound(s)
    requires (policy in s.desk.policyClaim && s.desk.claims[s.desk.policyClaim[policy]].status != Pending)
             || policy !in s.engine.policies || s.engine.policies[policy].status != Active || now > s.engine.policies[policy].end
    ensures var t := Attend(s, policy, verdict, bps, now);
      if policy in s.desk.policyClaim && s.desk.claims[s.desk.policyClaim[policy]].status != Pending then t == Some(s)
      else if policy !in s.engine.policies then t.None?
      else if s.engine.policies[policy].status != Active then t == Some(s)
      else
        && (t.Some? <==> IsHeld(s.locks, policy))
        && (t.Some? ==> Expire(s.engine, policy) == Some(t.value.engine)
                        && t.value == System(t.value.engine, s.desk, s.locks[policy := Released]))
  {
  }

  /** Otherwise it settles the pending claim of the policy, opening one for the holder first if there is none. */
  lemma AttendSettles(s: System, policy: nat, verdict: bool, bps: Option<nat>, now: nat) returns (filed: Desk)
    requires Sound(s) && policy in s.engine.policies && s.engine.policies[policy].status == Active
    requires now <= s.engine.policies[policy].end
    requires policy in s.desk.policyClaim ==> s.desk.claims[s.desk.policyClaim[policy]].status == Pending
    ensures policy in s.desk.policyClaim ==>
              Attend(s, policy, verdict, bps, now) == Settle(s, s.desk.policyClaim[policy], verdict, bps, now)
    ensures policy !in s.desk.policyClaim ==>
              && OpenedClaim(s.desk, filed, policy, s.engine.policies[policy].holder, s.engine.policies[policy].coverage, now)
              && filed.lastClaim == s.desk.lastClaim
              && Attend(s, policy, verdict, bps, now) == Settle(s.(desk := filed), s.desk.nextId, verdict, bps, now)
  {
    var p := s.engine.policies[policy];
    filed := OpenClaim(s.desk, policy, p.holder, p.coverage, now);
    if policy in s.desk.policyClaim {
      assert ClaimFits(s.desk.claims[s.desk.policyClaim[policy]], s.engine, s.desk.confirmed);
    }
  }

  // ----- Disputes and review -----

  /** A claim is disputed by its claimant or the policy's holder with a valid reason, while it is pending, rejected or
      partially paid, before its own deadline if it has one, and within the dispute window once it was processed. */
  lemma DisputeExact(s: System, caller: Address, cid: nat, reasonOk: bool, now: nat)
    requires Sound(s)
    ensures Dispute(s, caller, cid, reasonOk, now).Some? <==>
            cid in s.desk.claims &&
            var c := s.desk.claims[cid];
            && reasonOk && (caller == c.claimant || caller == s.engine.policies[c.policy].holder)
            && (c.status == Pending || c.status == Rejected || c.status == PartiallyPaid)
            && (cid in s.desk.deadlines ==> now <= s.desk.deadlines[cid])
            && (c.status != Pending && c.processedAt.Some? ==> now <= Min(c.processedAt.value + s.desk.rules.disputeWindow, U64_MAX))
    ensures Dispute(s, caller, cid, reasonOk, now).Some? ==>
              var t := Dispute(s, caller, cid, reasonOk, now).value;
              && t == s.(desk := t.desk) && t.desk.confirmed == s.desk.confirmed
              && Rewritten(s.desk, t.desk, cid, s.desk.claims[cid].(status := Disputed))
  {
    if cid in s.desk.claims {
      assert ClaimFits(s.desk.claims[cid], s.engine, s.desk.confirmed);
    }
  }

  /** Resolving puts a disputed claim back to the end of the queue; rejecting looks at no status; escalating takes a
      claim that waited for the threshold, while claims on its policy are still in time. */
  lemma ReviewExact(s: System, cid: nat, threshold: nat, now: nat)
    requires Sound(s)
    ensures Resolve(s, cid).Some? <==> cid in s.desk.claims && s.desk.claims[cid].status == Disputed
    ensures Resolve(s, cid).Some? ==>
              Resolve(s, cid).value == s.(desk := s.desk.(claims := s.desk.claims[cid := s.desk.claims[cid].(status := Pending)],
                                                          pending := s.desk.pending + [cid]))
    ensures Reject(s, cid).Some? <==> cid in s.desk.claims
    ensures Reject(s, cid).Some? ==>
              var t := Reject(s, cid).value;
              && t == s.(desk := t.desk) && t.desk.confirmed == s.desk.confirmed
              && Rewritten(s.desk, t.desk, cid, s.desk.claims[cid].(status := Rejected))
    ensures Escalate(s, cid, threshold, now).Some? <==>
            && cid in s.desk.claims && s.desk.claims[cid].status == Pending
            && Max(now - s.desk.claims[cid].submittedAt, 0) >= threshold
            && now <= Min(s.engine.policies[s.desk.claims[cid].policy].end + s.desk.rules.claimDeadline, U64_MAX)
    ensures Escalate(s, cid, threshold, now).Some? ==>
              var t := Escalate(s, cid, threshold, now).value;
              && t == s.(desk := t.desk) && t.desk.confirmed == s.desk.confirmed
              && Rewritten(s.desk, t.desk, cid, s.desk.claims[cid].(status := Escalated))
  {
    if cid in s.desk.claims {
      assert ClaimFits(s.desk.claims[cid], s.engine, s.desk.confirmed);
    }
  }

  // ----- Capital locks -----

  /** The risk pool locks capital for a policy at most once, whether or not that lock was released, and releases it once;
      no other lock changes. */
  lemma LockExact(locks: Locks, policy: nat, covered: bool)
    ensures Take(locks, policy, covered).Some? <==> covered && policy !in locks
    ensures Take(locks, policy, covered).Some? ==> Take(locks, policy, covered).value == locks[policy := Held]
    ensures Release(locks, policy).Some? <==> policy in locks && locks[policy] == Held
    ensures Release(locks, policy).Some? ==> Release(locks, policy).value == locks[policy := Released]
  {
  }

  // ----- Installments -----

  lemma PlanExact(coverage: int, amount: int, count: nat, interval: nat, now: nat)
    requires coverage <= 1_000_000_000_000
    ensures Plan(coverage, amount, count, interval, now) ==
            if amount > 0 && 1 <= count <= 12 && amount * count <= coverage
            then Some(Schedule(amount, count, interval, Min(now + interval, U64_MAX), 0)) else None
  {
  }

  /** A schedule of 1 to 12 equal positive amounts within the coverage is accepted for an approved claim and replaces
      what was scheduled before; the first amount is due one interval from now. */
  lemma ScheduleExact(s: System, cid: nat, amount: int, count: nat, interval: nat, now: nat)
    requires Sound(s)
    ensures ScheduleInstallments(s, cid, amount, count, interval, now).Some? <==>
            && cid in s.desk.claims && (s.desk.claims[cid].status == Paid || s.desk.claims[cid].status == PartiallyPaid)
            && amount > 0 && 1 <= count <= 12 && amount * count <= s.desk.claims[cid].coverage
    ensures ScheduleInstallments(s, cid, amount, count, interval, now).Some? ==>
              ScheduleInstallments(s, cid, amount, count, interval, now).value ==
              s.(desk := s.desk.(schedules := s.desk.schedules[cid := Schedule(amount, count, interval, Min(now + interval, U64_MAX), 0)]))
  {
    if cid in s.desk.claims {
      assert ClaimFits(s.desk.claims[cid], s.engine, s.desk.confirmed);
      PlanExact(s.desk.claims[cid].coverage, amount, count, interval, now);
    }
  }

  /** Before the first time nothing is due. From then on one installment more is due than whole intervals have passed,
      up to all of them. */
  lemma DueExactly(p: Schedule, now: nat)
    requires p.interval > 0 && 0 < p.count <= U32_MAX && now <= U64_MAX
    ensures now < p.firstAt ==> Due(p, now) == 0
    ensures now >= p.firstAt ==> 0 < Due(p, now) <= p.count && (Due(p, now) - 1) * p.interval <= now - p.firstAt
    ensures now >= p.firstAt && Due(p, now) < p.count ==> now - p.firstAt < Due(p, now) * p.interval
  {
    if now >= p.firstAt {
      var passed := (now - p.firstAt) / p.interval;
      assert passed * p.interval <= now - p.firstAt < passed * p.interval + p.interval;
      MulMono(1, p.interval, passed);
      MulMono(Due(p, now) - 1, passed, p.interval);
      if Due(p, now) < p.count {
        MulMono(passed + 1, Due(p, now), p.interval);
      }
    }
  }

  /** Installments are collected exactly when the next one not yet collected has fallen due; then all that have are
      reported at once, and no later one. */
  lemma CollectExact(p: Schedule, now: nat)
    requires p.count <= U32_MAX && now <= U64_MAX
    ensures Collect(p, now).Some? <==> p.paid < p.count && p.interval > 0 && now >= p.firstAt + p.paid * p.interval
    ensures Collect(p, now).Some? ==>
              var q, amount := Collect(p, now).value.0, Collect(p, now).value.1;
              && q == p.(paid := q.paid) && p.paid < q.paid <= p.count
              && now >= p.firstAt + (q.paid - 1) * p.interval && (q.paid < p.count ==> now < p.firstAt + q.paid * p.interval)
              && (FitsI128(p.amount * (q.paid - p.paid)) ==> amount == p.amount * (q.paid - p.paid))
  {
    if p.paid < p.count && p.interval > 0 {
      DueExactly(p, now);
      MulMono(0, p.paid, p.interval);
      if Due(p, now) > p.paid {
        MulMono(p.paid, Due(p, now) - 1, p.interval);
      } else {
        MulMono(Due(p, now), p.paid, p.interval);
      }
    }
  }
}
