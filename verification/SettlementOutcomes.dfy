/** What settling comes to for a policy and its holder: paid at most once, exactly when, and to whom. */
module SettlementOutcomes {
  import opened Arithmetic
  import opened Sequences
  import opened Ledger
  import opened Policies
  import opened CapitalLocks
  import opened Settlement
  import opened SettlementRuns

  // ----- At most once -----

  lemma FlowsByStatus(id: nat, p: Policy, flows: seq<Outflow>)
    requires FlowsFit(id, p, flows)
    ensures |flows| <= 1
    ensures p.status == Claimed <==> flows == [Payout(id, p.holder, p.coverage)]
    ensures p.status != Claimed ==> forall flow :: flow in flows ==> flow.Refund? && 0 < flow.amount <= p.premium
  {
  }

  /** In every reachable state the coverage of a policy left the pool exactly once if it is claimed and never
      otherwise, never next to a refund, and only after the oracle confirmed the claim filed on it. */
  lemma PaidExactlyOnce(admin: Address, rules: Rules, ledger: map<Address, int>, ops: seq<Op>, id: nat)
    requires forall i :: 0 <= i < |ops| ==> FromOutside(ops[i])
    ensures var s := Run(Deployed(admin, rules, ledger), ops);
      id in s.engine.policies ==>
      var p, flows := s.engine.policies[id], FlowsOf(s.engine, id);
      && |flows| <= 1
      && (p.status == Claimed <==> flows == [Payout(id, p.holder, p.coverage)])
      && (p.status != Claimed ==> forall flow :: flow in flows ==> flow.Refund? && 0 < flow.amount <= p.premium)
      && (p.status == Claimed ==> id in s.desk.confirmed && id in s.desk.policyClaim)
  {
    ReachableSound(admin, rules, ledger, ops);
    if id in Run(Deployed(admin, rules, ledger), ops).engine.policies {
      OnceInSoundState(Run(Deployed(admin, rules, ledger), ops), id);
    }
  }

  lemma OnceInSoundState(s: System, id: nat)
    requires Sound(s) && id in s.engine.policies
    ensures var p, flows := s.engine.policies[id], FlowsOf(s.engine, id);
      && |flows| <= 1
      && (p.status == Claimed <==> flows == [Payout(id, p.holder, p.coverage)])
      && (p.status != Claimed ==> forall flow :: flow in flows ==> flow.Refund? && 0 < flow.amount <= p.premium)
      && (p.status == Claimed ==> id in s.desk.confirmed && id in s.desk.policyClaim)
  {
    FlowsByStatus(id, s.engine.policies[id], FlowsOf(s.engine, id));
  }

  /** A claim that says paid has been paid, unless it still waits for a payout time. */
  lemma PaidMeansPaid(s: System, cid: nat)
    requires Sound(s) && (HasStatus(s.desk, cid, Paid) || HasStatus(s.desk, cid, PartiallyPaid))
    requires s.desk.claims[cid].readyAt.None?
    ensures var c := s.desk.claims[cid];
      && c.policy in s.engine.policies
      && FlowsOf(s.engine, c.policy) == [Payout(c.policy, s.engine.policies[c.policy].holder, c.coverage)]
  {
    var c := s.desk.claims[cid];
    assert ClaimFits(c, s.engine, s.desk.confirmed);
    assert FlowsFit(c.policy, s.engine.policies[c.policy], FlowsOf(s.engine, c.policy));
  }

  /** Whatever becomes of the claim afterwards, disputed, resolved, rejected or settled again, an ended policy
      never moves another token. */
  lemma EndedForGood(s: System, ops: seq<Op>, id: nat)
    requires Sound(s) && (forall i :: 0 <= i < |ops| ==> FromOutside(ops[i]))
    requires id in s.engine.policies && s.engine.policies[id].status != Active
    ensures var t := Run(s, ops);
      && id in t.engine.policies && t.engine.policies[id] == s.engine.policies[id]
      && FlowsOf(t.engine, id) == FlowsOf(s.engine, id)
  {
    RunSound(s, ops);
  }

  /** The pool holds what came in less what went out, and what went out went out for policies. */
  lemma PoolConserved(admin: Address, rules: Rules, ledger: map<Address, int>, ops: seq<Op>)
    requires forall i :: 0 <= i < |ops| ==> FromOutside(ops[i])
    ensures var e := Run(Deployed(admin, rules, ledger), ops).engine;
      && Balance(e.ledger, SELF) == e.inflow - SumBy(e.outflows, AmountFn())
      && forall flow :: flow in e.outflows ==> flow.policy in e.policies
  {
    ReachableSound(admin, rules, ledger, ops);
  }

  // ----- Delayed payouts -----

  predicate PayoutDue(s: System, cid: nat, now: nat) {
    cid in s.desk.claims && s.desk.claims[cid].readyAt.Some? && now >= s.desk.claims[cid].readyAt.value
  }

  /** The policy became claimed, and its holder received the coverage from the pool. */
  ghost predicate PaysHolder(e: Engine, f: Engine, id: nat, coverage: int) {
    id in e.policies && id in f.policies &&
    var holder := e.policies[id].holder;
    && f.policies[id] == e.policies[id].(status := Claimed)
    && Balance(f.ledger, holder) == Balance(e.ledger, holder) + coverage
    && Balance(f.ledger, SELF) == Balance(e.ledger, SELF) - coverage
  }

  lemma PayClaimPays(e: Engine, id: nat)
    requires EngineSound(e) && id in e.policies
    ensures PayClaim(e, id).Some? <==> IsActive(e, id) && e.policies[id].coverage <= Balance(e.ledger, SELF)
    ensures PayClaim(e, id).Some? ==> PaysHolder(e, PayClaim(e, id).value, id, e.policies[id].coverage)
    ensures 0 < e.policies[id].coverage <= MAX_COVERAGE
  {
    PayClaimExact(e, id);
  }

  /** A delayed payout goes through exactly when its time has come, the policy is still active and covered, and
      its capital lock is still held. The status of the claim plays no part. It pays the whole coverage to the
      current holder, also when only a part was approved, releases the lock and cannot be repeated. */
  lemma ClaimPayoutExact(s: System, cid: nat, now: nat)
    requires Sound(s)
    ensures ClaimPayout(s, cid, now).Some? <==>
            PayoutDue(s, cid, now) && IsHeld(s.locks, s.desk.claims[cid].policy) && IsActive(s.engine, s.desk.claims[cid].policy)
            && s.desk.claims[cid].coverage <= Balance(s.engine.ledger, SELF)
    ensures ClaimPayout(s, cid, now).Some? ==>
              && PaysHolder(s.engine, ClaimPayout(s, cid, now).value.engine, s.desk.claims[cid].policy, s.desk.claims[cid].coverage)
              && IsReleased(ClaimPayout(s, cid, now).value.locks, s.desk.claims[cid].policy)
              && ClaimPayout(ClaimPayout(s, cid, now).value, cid, now).None?
  {
    if cid in s.desk.claims {
      var c := s.desk.claims[cid];
      assert ClaimFits(c, s.engine, s.desk.confirmed);
      PayClaimPays(s.engine, c.policy);
    }
  }

  /** An approved claim is never paid if the policy ends during the delay, for instance when its holder
      cancels it for the premium. */
  lemma EndedBeforePayout(s: System, ops: seq<Op>, cid: nat, now: nat)
    requires Sound(s) && (forall i :: 0 <= i < |ops| ==> FromOutside(ops[i]))
    requires cid in s.desk.claims && !IsActive(s.engine, s.desk.claims[cid].policy)
    ensures ClaimPayout(Run(s, ops), cid, now).None?
  {
    var policy := s.desk.claims[cid].policy;
    RunPolicies(s, ops);
    assert ClaimFits(s.desk.claims[cid], s.engine, s.desk.confirmed);
    assert !IsActive(Run(s, ops).engine, policy) by {
      EndedForGood(s, ops, policy);
    }
    NoPayoutWhenEnded(Run(s, ops), cid, now);
  }

  lemma NoPayoutWhenEnded(s: System, cid: nat, now: nat)
    requires cid in s.desk.claims && !IsActive(s.engine, s.desk.claims[cid].policy)
    ensures ClaimPayout(s, cid, now).None?
  {
  }

  /** Claims stay on their policy. */
  ghost predicate PoliciesStay(d: Desk, f: Desk) {
    forall cid :: cid in d.claims ==> cid in f.claims && f.claims[cid].policy == d.claims[cid].policy
  }

  /** Escalated claims stay escalated. */
  ghost predicate EscalatedStay(d: Desk, f: Desk) {
    forall cid :: HasStatus(d, cid, Escalated) ==> HasStatus(f, cid, Escalated)
  }

  ghost predicate ClaimsStay(d: Desk, f: Desk) {
    PoliciesStay(d, f) && EscalatedStay(d, f)
  }

  /** One claim rewritten that was not escalated. */
  lemma RewriteStays(d: Desk, f: Desk, cid: nat, c: Claim)
    requires cid in d.claims && d.claims[cid].status != Escalated && c.policy == d.claims[cid].policy
    requires f.claims == d.claims[cid := c]
    ensures ClaimsStay(d, f)
  {
  }

  lemma SettleStays(s: System, cid: nat, verdict: bool, bps: Option<nat>, now: nat)
    requires cid in s.desk.claims && s.desk.claims[cid].policy in s.engine.policies
    requires Settle(s, cid, verdict, bps, now).Some?
    ensures ClaimsStay(s.desk, Settle(s, cid, verdict, bps, now).value.desk)
  {
    var f := Settle(s, cid, verdict, bps, now).value.desk;
    RewriteStays(s.desk, f, cid, f.claims[cid]);
  }

  lemma OpenedStays(d: Desk, policy: nat, claimant: Address, coverage: int, now: nat, f: Desk)
    requires d.nextId !in d.claims && ClaimsStay(OpenClaim(d, policy, claimant, coverage, now), f)
    ensures ClaimsStay(d, f)
  {
    var filed := OpenClaim(d, policy, claimant, coverage, now);
    assert forall cid :: cid in d.claims ==> cid in filed.claims && filed.claims[cid] == d.claims[cid];
    assert forall cid :: HasStatus(d, cid, Escalated) ==> HasStatus(filed, cid, Escalated);
  }

  lemma OpenAndSettleStays(s: System, policy: nat, verdict: bool, bps: Option<nat>, now: nat)
    requires ClaimsIndexed(s.desk) && policy in s.engine.policies
    requires OpenAndSettle(s, policy, verdict, bps, now).Some?
    ensures ClaimsStay(s.desk, OpenAndSettle(s, policy, verdict, bps, now).value.desk)
  {
    if policy in s.desk.policyClaim {
      SettleStays(s, s.desk.policyClaim[policy], verdict, bps, now);
    } else {
      var p := s.engine.policies[policy];
      var filed := s.(desk := OpenClaim(s.desk, policy, p.holder, p.coverage, now));
      SettleStays(filed, s.desk.nextId, verdict, bps, now);
      OpenedStays(s.desk, policy, p.holder, p.coverage, now, Settle(filed, s.desk.nextId, verdict, bps, now).value.desk);
    }
  }

  lemma AutoStays(s: System, policy: nat, verdict: bool, bps: Option<nat>, now: nat)
    requires ClaimsIndexed(s.desk) && AutoProcess(s, policy, verdict, bps, now).Some?
    ensures ClaimsStay(s.desk, AutoProcess(s, policy, verdict, bps, now).value.desk)
  {
    var seen := s.(desk := s.desk.(lastAuto := s.desk.lastAuto[policy := now]));
    if policy in s.engine.policies && OpenAndSettle(seen, policy, verdict, bps, now).Some? {
      OpenAndSettleStays(seen, policy, verdict, bps, now);
    }
  }

  lemma SettlingStays(s: System, op: Op)
    requires ClaimsIndexed(s.desk) && IsSettling(op) && Try(s, op).Some?
    ensures ClaimsStay(s.desk, Try(s, op).value.desk)
  {
    match op
    case OpAuto(id, verdict, bps, now) => AutoStays(s, id, verdict, bps, now);
    case OpProcess(cid, verdict, bps, now) =>
      if s.desk.claims[cid].status == Pending { SettleStays(s, cid, verdict, bps, now); }
    case OpProcessMulti(cid, readings, all, bps, now) =>
      if s.desk.claims[cid].status == Pending { SettleStays(s, cid, Combined(readings, all), bps, now); }
    case OpClaimPayout(_, _) =>
  }

  lemma ReviewStays(s: System, op: Op)
    requires ClaimsIndexed(s.desk) && IsReview(op) && !op.OpReject? && Try(s, op).Some?
    ensures ClaimsStay(s.desk, Try(s, op).value.desk)
  {
    var f := Try(s, op).value.desk;
    if op.OpFile? {
      assert s.desk.nextId !in s.desk.claims;
    } else {
      RewriteStays(s.desk, f, op.cid, f.claims[op.cid]);
    }
  }

  lemma OtherStays(s: System, op: Op)
    requires !IsSettling(op) && !IsReview(op) && Try(s, op).Some?
    ensures ClaimsStay(s.desk, Try(s, op).value.desk)
  {
    assert Try(s, op).value.desk.claims == s.desk.claims;
  }

  lemma StepStays(s: System, op: Op)
    requires ClaimsIndexed(s.desk) && !op.OpReject?
    ensures ClaimsStay(s.desk, Step(s, op).desk)
  {
    if Try(s, op).Some? {
      if IsSettling(op) {
        SettlingStays(s, op);
      } else if IsReview(op) {
        ReviewStays(s, op);
      } else {
        OtherStays(s, op);
      }
    }
  }

  lemma RejectStays(s: System, cid: nat)
    ensures PoliciesStay(s.desk, Step(s, OpReject(cid)).desk)
    ensures cid in s.desk.claims ==> HasStatus(Step(s, OpReject(cid)).desk, cid, Rejected)
    ensures forall j :: j != cid && HasStatus(s.desk, j, Escalated) ==> HasStatus(Step(s, OpReject(cid)).desk, j, Escalated)
  {
  }

  lemma StepPolicies(s: System, op: Op)
    requires ClaimsIndexed(s.desk)
    ensures PoliciesStay(s.desk, Step(s, op).desk)
  {
    if op.OpReject? {
      RejectStays(s, op.cid);
    } else {
      StepStays(s, op);
    }
  }

  /** Claims never move to another policy. */
  lemma {:induction false} RunPolicies(s: System, ops: seq<Op>)
    requires Sound(s) && (forall i :: 0 <= i < |ops| ==> FromOutside(ops[i]))
    ensures PoliciesStay(s.desk, Run(s, ops).desk)
  {
    if ops != [] {
      var before := Run(s, ops[..|ops| - 1]);
      RunSound(s, ops[..|ops| - 1]);
      RunPolicies(s, ops[..|ops| - 1]);
      StepPolicies(before, ops[|ops| - 1]);
      assert Run(s, ops) == Step(before, ops[|ops| - 1]);
      StaysOn(s.desk, before.desk, Run(s, ops).desk);
    }
  }

  lemma StaysOn(d: Desk, e: Desk, f: Desk)
    requires PoliciesStay(d, e) && PoliciesStay(e, f)
    ensures PoliciesStay(d, f)
  {
  }

  // ----- Settling at once -----

  /** Without a delay a true verdict settles exactly when the claimant still holds the active and covered policy
      and its capital lock is still held; then the claimant receives the whole coverage. */
  lemma SettleExact(s: System, cid: nat, bps: Option<nat>, now: nat)
    requires Sound(s) && cid in s.desk.claims && s.desk.rules.payoutDelay == 0
    ensures var c := s.desk.claims[cid];
      Settle(s, cid, true, bps, now).Some? <==>
      && c.status == Pending && c.claimant == s.engine.policies[c.policy].holder && IsHeld(s.locks, c.policy)
      && IsActive(s.engine, c.policy) && c.coverage <= Balance(s.engine.ledger, SELF)
    ensures Settle(s, cid, true, bps, now).Some? ==>
              var c, t := s.desk.claims[cid], Settle(s, cid, true, bps, now).value;
              && PaysHolder(s.engine, t.engine, c.policy, c.coverage) && IsReleased(t.locks, c.policy)
              && HasStatus(t.desk, cid, if EffectiveBps(bps) >= BPS then Paid else PartiallyPaid)
  {
    var c := s.desk.claims[cid];
    assert ClaimFits(c, s.engine, s.desk.confirmed);
    PayClaimPays(s.engine, c.policy);
    ShareFitsI128(c.coverage, EffectiveBps(bps));
  }

  lemma ShareFitsI128(coverage: int, bps: nat)
    requires 0 < coverage <= MAX_COVERAGE && bps <= BPS
    ensures FitsI128(coverage * bps)
  {
    MulMono(bps, BPS, coverage);
    MulMono(0, bps, coverage);
  }

  /** The coverage recorded with a claim always agrees with its policy, so processing a pending claim is
      settling it. */
  lemma ProcessIsSettle(s: System, cid: nat, verdict: bool, bps: Option<nat>, now: nat)
    requires Sound(s) && HasStatus(s.desk, cid, Pending)
    ensures Process(s, cid, verdict, bps, now) == Settle(s, cid, verdict, bps, now)
  {
    assert ClaimFits(s.desk.claims[cid], s.engine, s.desk.confirmed);
  }

  /** Escalated claims leave that status only by the admin's rejection. */
  lemma EscalatedOnlyRejected(s: System, op: Op, cid: nat)
    requires Sound(s) && HasStatus(s.desk, cid, Escalated)
    ensures HasStatus(Step(s, op).desk, cid, if op == OpReject(cid) then Rejected else Escalated)
  {
    if op.OpReject? {
      RejectStays(s, op.cid);
    } else {
      StepStays(s, op);
    }
  }

  // ----- Filing and disputes -----

  /** One claim per policy, for ever: after a claim was filed no run makes room for another. */
  lemma FiledOnce(s: System, ops: seq<Op>, cid: nat, claimant: Address, now: nat, admitted: bool)
    requires Sound(s) && (forall i :: 0 <= i < |ops| ==> FromOutside(ops[i])) && cid in s.desk.claims
    ensures FileClaim(Run(s, ops), claimant, s.desk.claims[cid].policy, now, admitted).None?
  {
    RunPolicies(s, ops);
    RunSound(s, ops);
    IndexedPolicy(Run(s, ops).desk, cid);
  }

  lemma IndexedPolicy(d: Desk, cid: nat)
    requires ClaimsIndexed(d) && cid in d.claims
    ensures d.claims[cid].policy in d.policyClaim
  {
  }

  lemma BackInQueue(queue: seq<nat>, cid: nat)
    requires Distinct(queue) && cid in queue
    ensures cid !in RemoveFirst(queue, cid) && multiset(RemoveFirst(queue, cid) + [cid]) == multiset(queue)
  {
    RemoveFirstDistinct(queue, cid);
    RemoveFirstCounts(queue, cid);
    assert cid in multiset(queue);
  }

  /** Disputing a pending claim and resolving the dispute leaves the claim as it was, at the end of the queue. */
  lemma DisputeThenResolve(s: System, caller: Address, cid: nat, reasonOk: bool, now: nat)
    requires QueueExact(s.desk) && HasStatus(s.desk, cid, Pending) && Dispute(s, caller, cid, reasonOk, now).Some?
    ensures var disputed := Dispute(s, caller, cid, reasonOk, now).value;
      && HasStatus(disputed.desk, cid, Disputed) && cid !in disputed.desk.pending
      && Resolve(disputed, cid).Some?
      && var t := Resolve(disputed, cid).value;
      && t.desk.claims == s.desk.claims && t.engine == s.engine
      && multiset(t.desk.pending) == multiset(s.desk.pending) && t.desk.pending[|t.desk.pending| - 1] == cid
  {
    assert cid in s.desk.pending <==> HasStatus(s.desk, cid, Pending);
    BackInQueue(s.desk.pending, cid);
    var disputed := Dispute(s, caller, cid, reasonOk, now).value;
    assert Resolve(disputed, cid).value.desk.claims == s.desk.claims;
  }
}
