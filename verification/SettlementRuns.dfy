/** What holds of claims and policies in every reachable state, across both contracts. */
module SettlementRuns {
  import opened Arithmetic
  import opened Sequences
  import opened Ledger
  import opened QueueSort
  import opened Installments
  import opened Policies
  import opened CapitalLocks
  import opened Settlement

  /** At most one claim per policy, found from either side. */
  ghost predicate ClaimsIndexed(d: Desk) {
    && (forall cid :: cid in d.claims ==>
          cid < d.nextId && d.claims[cid].policy in d.policyClaim && d.policyClaim[d.claims[cid].policy] == cid)
    && (forall p :: p in d.policyClaim ==> d.policyClaim[p] in d.claims && d.claims[d.policyClaim[p]].policy == p)
  }

  /** The queue is exactly the pending claims, each once. */
  ghost predicate QueueExact(d: Desk) {
    && Distinct(d.pending)
    && forall cid :: cid in d.pending <==> HasStatus(d, cid, Pending)
  }

  /** A claim says it is paid only if its policy was paid or a payout time is still set; a payout time is only
      ever set after a true verdict, for an amount within the coverage. */
  ghost predicate ClaimFits(c: Claim, e: Engine, confirmed: set<nat>) {
    && c.policy in e.policies && c.coverage == e.policies[c.policy].coverage
    && (c.readyAt.Some? ==> c.policy in confirmed && c.paidAmount.Some? && 0 <= c.paidAmount.value <= c.coverage)
    && ((c.status == Paid || c.status == PartiallyPaid) && c.readyAt.None? ==> e.policies[c.policy].status == Claimed)
  }

  ghost predicate ClaimsFit(claims: map<nat, Claim>, e: Engine, confirmed: set<nat>) {
    forall cid :: cid in claims ==> ClaimFits(claims[cid], e, confirmed)
  }

  /** Only policies whose claim was confirmed count as claimed. */
  ghost predicate PaidOnlyIfConfirmed(e: Engine, confirmed: set<nat>, policyClaim: map<nat, nat>) {
    && (forall p :: p in e.policies && e.policies[p].status == Claimed ==> p in confirmed)
    && confirmed <= policyClaim.Keys
  }

  ghost predicate Sound(s: System) {
    && EngineSound(s.engine)
    && ClaimsIndexed(s.desk)
    && QueueExact(s.desk)
    && ClaimsFit(s.desk.claims, s.engine, s.desk.confirmed)
    && PaidOnlyIfConfirmed(s.engine, s.desk.confirmed, s.desk.policyClaim)
  }

  // ----- The engine under the claims -----

  /** Policies keep their coverage, and a final status is final, with all that ever flowed for it. */
  ghost predicate EngineEvolves(e: Engine, f: Engine) {
    forall id :: id in e.policies ==>
      && id in f.policies && f.policies[id].coverage == e.policies[id].coverage
      && (e.policies[id].status != Active ==> f.policies[id] == e.policies[id] && FlowsOf(f, id) == FlowsOf(e, id))
  }

  /** No policy newly counts as claimed, except possibly `paid`. */
  ghost predicate ClaimsOnly(e: Engine, f: Engine, paid: set<nat>) {
    forall id :: id in f.policies && f.policies[id].status == Claimed ==>
      id in paid || (id in e.policies && e.policies[id].status == Claimed)
  }

  /** Claims still fit when the engine moves on and more is confirmed. */
  lemma ClaimsStillFit(claims: map<nat, Claim>, e: Engine, f: Engine, confirmed: set<nat>, more: set<nat>)
    requires ClaimsFit(claims, e, confirmed) && EngineEvolves(e, f) && confirmed <= more
    ensures ClaimsFit(claims, f, more)
  {
    forall cid | cid in claims ensures ClaimFits(claims[cid], f, more) {
      assert ClaimFits(claims[cid], e, confirmed);
    }
  }

  lemma EngineStep(s: System, f: Engine)
    requires Sound(s) && EngineSound(f) && EngineEvolves(s.engine, f) && ClaimsOnly(s.engine, f, {})
    ensures Sound(s.(engine := f)) && forall locks :: Sound(System(f, s.desk, locks))
  {
    ClaimsStillFit(s.desk.claims, s.engine, f, s.desk.confirmed, s.desk.confirmed);
  }

  lemma FinishEvolves(e: Engine, id: nat, status: PolicyStatus)
    requires IsActive(e, id)
    ensures EngineEvolves(e, Finish(e, id, status)) && ClaimsOnly(e, Finish(e, id, status), {id})
    ensures status != Claimed ==> ClaimsOnly(e, Finish(e, id, status), {})
  {
    FinishKeepsRest(e, id, status);
  }

  lemma SendEvolves(e: Engine, flow: Outflow)
    requires IsActive(e, flow.policy) && flow.to != SELF && Send(e, flow).Some?
    ensures EngineEvolves(e, Send(e, flow).value) && Send(e, flow).value.policies == e.policies
  {
    SentFlows(e, flow);
    forall id | id in e.policies && id != flow.policy ensures FlowsOf(Send(e, flow).value, id) == FlowsOf(e, id) {
      assert FlowsOf(e, id) + [] == FlowsOf(e, id);
    }
  }

  lemma PayClaimEvolves(e: Engine, id: nat)
    requires EngineSound(e) && PayClaim(e, id).Some?
    ensures EngineSound(PayClaim(e, id).value)
    ensures EngineEvolves(e, PayClaim(e, id).value) && ClaimsOnly(e, PayClaim(e, id).value, {id})
    ensures id in PayClaim(e, id).value.policies && PayClaim(e, id).value.policies[id].status == Claimed
  {
    var flow := Payout(id, e.policies[id].holder, e.policies[id].coverage);
    PayClaimSound(e, id);
    SendEvolves(e, flow);
    FinishEvolves(Send(e, flow).value, id, Claimed);
    FinishKeepsRest(Send(e, flow).value, id, Claimed);
  }

  lemma CancelEvolves(e: Engine, holder: Address, id: nat, reasonLen: nat, now: nat)
    requires EngineSound(e) && Cancel(e, holder, id, reasonLen, now).Some?
    ensures EngineEvolves(e, Cancel(e, holder, id, reasonLen, now).value)
    ensures ClaimsOnly(e, Cancel(e, holder, id, reasonLen, now).value, {})
  {
    var refund := RefundOf(e.policies[id], now).value;
    FinishEvolves(e, id, Cancelled);
    FinishKeepsRest(e, id, Cancelled);
    if refund > 0 {
      var done, flow := Finish(e, id, Cancelled), Refund(id, holder, refund);
      SentFlows(done, flow);
      forall j | j in e.policies && j != id ensures FlowsOf(Send(done, flow).value, j) == FlowsOf(e, j) {
        assert FlowsOf(done, j) + [] == FlowsOf(e, j);
      }
    }
  }

  lemma TransferEvolves(e: Engine, from: Address, to: Address, id: nat)
    requires TransferPolicy(e, from, to, id).Some?
    ensures EngineEvolves(e, TransferPolicy(e, from, to, id).value)
    ensures ClaimsOnly(e, TransferPolicy(e, from, to, id).value, {})
  {
    var t := TransferPolicy(e, from, to, id).value;
    assert t.outflows == e.outflows && forall j :: j in e.policies && j != id ==> t.policies[j] == e.policies[j];
  }

  predicate IsEngineOp(op: Op) {
    op.OpBuy? || op.OpCancelPolicy? || op.OpTransferPolicy? || op.OpSetProduct? || op.OpOutside?
  }

  lemma BuyEvolves(e: Engine, order: Order, now: nat)
    requires Buy(e, order, now).Some? && e.nextId !in e.policies
    ensures EngineEvolves(e, Buy(e, order, now).value) && ClaimsOnly(e, Buy(e, order, now).value, {})
  {
    var t := Buy(e, order, now).value;
    assert t.outflows == e.outflows;
  }

  /** The same policies and the same transfers. */
  lemma SamePolicies(e: Engine, f: Engine)
    requires f.policies == e.policies && f.outflows == e.outflows
    ensures EngineEvolves(e, f) && ClaimsOnly(e, f, {})
  {
  }

  lemma EngineOpEvolves(e: Engine, s: System, op: Op)
    requires e == s.engine && EngineSound(e) && FromOutside(op) && IsEngineOp(op) && Try(s, op).Some?
    ensures var f := Try(s, op).value.engine;
      && Try(s, op).value == s.(engine := f)
      && EngineSound(f) && EngineEvolves(e, f) && ClaimsOnly(e, f, {})
  {
    match op
    case OpBuy(order, now) =>
      BuySound(e, order, now);
      BuyEvolves(e, order, now);
    case OpCancelPolicy(holder, id, len, now) =>
      CancelSound(e, holder, id, len, now);
      CancelEvolves(e, holder, id, len, now);
    case OpTransferPolicy(from, to, id) =>
      TransferSound(e, from, to, id);
      TransferEvolves(e, from, to, id);
    case OpSetProduct(id, product) =>
      ProductSound(e, id, product);
      SamePolicies(e, e.(products := e.products[id := product]));
    case OpOutside(from, to, amount) =>
      OutsideSound(e, from, to, amount);
      SamePolicies(e, Outside(e, from, to, amount).value);
  }

  lemma EngineOpSound(s: System, op: Op)
    requires Sound(s) && FromOutside(op) && IsEngineOp(op) && Try(s, op).Some?
    ensures Sound(Try(s, op).value) && EngineEvolves(s.engine, Try(s, op).value.engine)
  {
    EngineOpEvolves(s.engine, s, op);
    EngineStep(s, Try(s, op).value.engine);
  }

  lemma ProductSound(e: Engine, id: nat, product: Product)
    requires EngineSound(e)
    ensures EngineSound(e.(products := e.products[id := product]))
  {
    var t := e.(products := e.products[id := product]);
    forall user ensures ListExact(t, user) {
      assert ListExact(e, user);
    }
    assert forall j :: FlowsOf(t, j) == FlowsOf(e, j);
  }

  // ----- The desk -----

  lemma OpenedQueue(d: Desk, policy: nat, claimant: Address, coverage: int, now: nat)
    requires ClaimsIndexed(d) && QueueExact(d) && policy !in d.policyClaim
    ensures ClaimsIndexed(OpenClaim(d, policy, claimant, coverage, now))
    ensures QueueExact(OpenClaim(d, policy, claimant, coverage, now))
  {
    var t := OpenClaim(d, policy, claimant, coverage, now);
    assert d.nextId in d.pending <==> HasStatus(d, d.nextId, Pending);
    forall cid ensures cid in t.pending <==> HasStatus(t, cid, Pending) {
      assert cid in d.pending <==> HasStatus(d, cid, Pending);
    }
  }

  lemma OpenSound(s: System, policy: nat, now: nat)
    requires Sound(s) && policy in s.engine.policies && policy !in s.desk.policyClaim
    ensures var p := s.engine.policies[policy];
      Sound(s.(desk := OpenClaim(s.desk, policy, p.holder, p.coverage, now)))
  {
    var p := s.engine.policies[policy];
    OpenedQueue(s.desk, policy, p.holder, p.coverage, now);
    OpenedFits(s.desk, s.engine, policy, now);
  }

  lemma OpenedFits(d: Desk, e: Engine, policy: nat, now: nat)
    requires ClaimsFit(d.claims, e, d.confirmed) && policy in e.policies
    ensures ClaimsFit(OpenClaim(d, policy, e.policies[policy].holder, e.policies[policy].coverage, now).claims, e, d.confirmed)
  {
  }

  /** Rewriting a claim to a status other than Pending takes it out of the queue. */
  lemma ResolvedQueue(d: Desk, cid: nat, c: Claim)
    requires ClaimsIndexed(d) && QueueExact(d) && cid in d.claims && c.policy == d.claims[cid].policy && c.status != Pending
    ensures ClaimsIndexed(Resolved(d, cid, c)) && QueueExact(Resolved(d, cid, c))
  {
    RemoveFirstDistinct(d.pending, cid);
    forall j ensures j in Resolved(d, cid, c).pending <==> HasStatus(Resolved(d, cid, c), j, Pending) {
      assert j in d.pending <==> HasStatus(d, j, Pending);
    }
  }

  /** Rewriting a claim that still fits its policy. */
  lemma ResolvedSound(s: System, cid: nat, c: Claim, e: Engine, confirmed: set<nat>, locks: Locks)
    requires Sound(s) && cid in s.desk.claims && c.policy == s.desk.claims[cid].policy && c.status != Pending
    requires EngineSound(e) && EngineEvolves(s.engine, e) && ClaimsOnly(s.engine, e, {c.policy})
    requires s.desk.confirmed <= confirmed <= s.desk.confirmed + {c.policy}
    requires ClaimFits(c, e, confirmed)
    requires c.policy in confirmed || ClaimsOnly(s.engine, e, {})
    ensures Sound(System(e, Resolved(s.desk, cid, c).(confirmed := confirmed), locks))
  {
    ResolvedQueue(s.desk, cid, c);
    ClaimsStillFit(s.desk.claims, s.engine, e, s.desk.confirmed, confirmed);
    RewrittenFits(s.desk.claims, cid, c, e, confirmed);
    RewrittenPaid(s.desk.claims, s.desk.policyClaim, s.engine, e, cid, c.policy, s.desk.confirmed, confirmed);
  }

  lemma RewrittenFits(claims: map<nat, Claim>, cid: nat, c: Claim, e: Engine, confirmed: set<nat>)
    requires ClaimsFit(claims, e, confirmed) && ClaimFits(c, e, confirmed)
    ensures ClaimsFit(claims[cid := c], e, confirmed)
  {
  }

  lemma RewrittenPaid(claims: map<nat, Claim>, policyClaim: map<nat, nat>, e: Engine, f: Engine, cid: nat, policy: nat,
      confirmed: set<nat>, more: set<nat>)
    requires PaidOnlyIfConfirmed(e, confirmed, policyClaim) && ClaimsOnly(e, f, {policy}) && policy in policyClaim
    requires confirmed <= more <= confirmed + {policy} && (policy in more || ClaimsOnly(e, f, {}))
    ensures PaidOnlyIfConfirmed(f, more, policyClaim)
  {
  }

  lemma ShareWithin(coverage: int, bps: nat)
    requires coverage >= 0 && bps <= BPS
    ensures 0 <= Share(coverage, bps) <= coverage
  {
    MulMono(bps, BPS, coverage);
    MulMono(0, bps, coverage);
    TruncDivHull(coverage * bps, BPS, 0, coverage);
  }

  lemma SettleSound(s: System, cid: nat, verdict: bool, bps: Option<nat>, now: nat)
    requires Sound(s) && cid in s.desk.claims && Settle(s, cid, verdict, bps, now).Some?
    ensures Sound(Settle(s, cid, verdict, bps, now).value)
    ensures EngineEvolves(s.engine, Settle(s, cid, verdict, bps, now).value.engine)
  {
    var d, c, eff := s.desk, s.desk.claims[cid], EffectiveBps(bps);
    assert ClaimFits(c, s.engine, d.confirmed);
    if !verdict {
      var r := c.(triggerMet := false, processedAt := Some(now), status := Rejected);
      ResolvedSound(s, cid, r, s.engine, d.confirmed, s.locks);
      assert Resolved(d, cid, r).(confirmed := d.confirmed) == Resolved(d, cid, r);
    } else {
      var confirmed, approved := d.confirmed + {c.policy}, Approved(c, eff, now);
      ShareWithin(c.coverage, eff);
      if d.rules.payoutDelay > 0 {
        ResolvedSound(s, cid, approved.(readyAt := Some(SatAddU64(now, d.rules.payoutDelay))), s.engine, confirmed, s.locks);
      } else {
        PayClaimEvolves(s.engine, c.policy);
        ResolvedSound(s, cid, approved, PayClaim(s.engine, c.policy).value, confirmed, Release(s.locks, c.policy).value);
      }
    }
  }

  lemma ClaimPayoutSound(s: System, cid: nat, now: nat)
    requires Sound(s) && ClaimPayout(s, cid, now).Some?
    ensures Sound(ClaimPayout(s, cid, now).value)
    ensures EngineEvolves(s.engine, ClaimPayout(s, cid, now).value.engine)
  {
    var c, f := s.desk.claims[cid], PayClaim(s.engine, s.desk.claims[cid].policy).value;
    assert ClaimFits(c, s.engine, s.desk.confirmed);
    PayClaimEvolves(s.engine, c.policy);
    ClaimsStillFit(s.desk.claims, s.engine, f, s.desk.confirmed, s.desk.confirmed);
    RewrittenFits(s.desk.claims, cid, c.(readyAt := None), f, s.desk.confirmed);
    RewrittenPaid(s.desk.claims, s.desk.policyClaim, s.engine, f, cid, c.policy, s.desk.confirmed, s.desk.confirmed);
    SameStatuses(s.desk, cid, c.(readyAt := None));
  }

  lemma SameStatuses(d: Desk, cid: nat, c: Claim)
    requires ClaimsIndexed(d) && QueueExact(d) && cid in d.claims
    requires c.policy == d.claims[cid].policy && c.status == d.claims[cid].status
    ensures ClaimsIndexed(d.(claims := d.claims[cid := c])) && QueueExact(d.(claims := d.claims[cid := c]))
  {
    var t := d.(claims := d.claims[cid := c]);
    forall j ensures j in t.pending <==> HasStatus(t, j, Pending) {
      assert j in d.pending <==> HasStatus(d, j, Pending);
    }
  }

  lemma AttendSound(s: System, policy: nat, verdict: bool, bps: Option<nat>, now: nat)
    requires Sound(s) && Attend(s, policy, verdict, bps, now).Some?
    ensures Sound(Attend(s, policy, verdict, bps, now).value)
    ensures EngineEvolves(s.engine, Attend(s, policy, verdict, bps, now).value.engine)
  {
    var t := Attend(s, policy, verdict, bps, now).value;
    if t != s {
      if now > s.engine.policies[policy].end {
        FinishSound(s.engine, policy, Expired);
        FinishEvolves(s.engine, policy, Expired);
        EngineStep(s, Finish(s.engine, policy, Expired));
      } else {
        OpenAndSettleSound(s, policy, verdict, bps, now);
      }
    }
  }

  lemma AutoSound(s: System, policy: nat, verdict: bool, bps: Option<nat>, now: nat)
    requires Sound(s) && AutoProcess(s, policy, verdict, bps, now).Some?
    ensures Sound(AutoProcess(s, policy, verdict, bps, now).value)
    ensures EngineEvolves(s.engine, AutoProcess(s, policy, verdict, bps, now).value.engine)
  {
    var d := s.desk.(lastAuto := s.desk.lastAuto[policy := now]);
    SameDesk(s, d);
    AttendSound(s.(desk := d), policy, verdict, bps, now);
  }

  lemma OpenAndSettleSound(s: System, policy: nat, verdict: bool, bps: Option<nat>, now: nat)
    requires Sound(s) && policy in s.engine.policies && OpenAndSettle(s, policy, verdict, bps, now).Some?
    ensures Sound(OpenAndSettle(s, policy, verdict, bps, now).value)
    ensures EngineEvolves(s.engine, OpenAndSettle(s, policy, verdict, bps, now).value.engine)
  {
    if policy in s.desk.policyClaim {
      SettleSound(s, s.desk.policyClaim[policy], verdict, bps, now);
    } else {
      var p := s.engine.policies[policy];
      var filed := s.(desk := OpenClaim(s.desk, policy, p.holder, p.coverage, now));
      OpenSound(s, policy, now);
      SettleSound(filed, s.desk.nextId, verdict, bps, now);
    }
  }

  /** Bookkeeping that leaves claims and queue alone. */
  lemma SameDesk(s: System, d: Desk)
    requires Sound(s)
    requires d.claims == s.desk.claims && d.nextId == s.desk.nextId && d.policyClaim == s.desk.policyClaim
    requires d.pending == s.desk.pending && d.confirmed == s.desk.confirmed
    ensures Sound(s.(desk := d)) && forall locks :: Sound(System(s.engine, d, locks))
  {
    forall cid ensures cid in d.pending <==> HasStatus(d, cid, Pending) {
      assert cid in s.desk.pending <==> HasStatus(s.desk, cid, Pending);
    }
  }

  lemma FileSound(s: System, claimant: Address, policy: nat, now: nat, admitted: bool)
    requires Sound(s) && FileClaim(s, claimant, policy, now, admitted).Some?
    ensures Sound(FileClaim(s, claimant, policy, now, admitted).value)
  {
    OpenSound(s, policy, now);
    var p := s.engine.policies[policy];
    var filed := s.(desk := OpenClaim(s.desk, policy, p.holder, p.coverage, now));
    SameDesk(filed, filed.desk.(lastClaim := s.desk.lastClaim[claimant := now]));
  }

  lemma RequeuedExact(s: System, cid: nat)
    requires ClaimsIndexed(s.desk) && QueueExact(s.desk) && Resolve(s, cid).Some?
    ensures ClaimsIndexed(Resolve(s, cid).value.desk) && QueueExact(Resolve(s, cid).value.desk)
  {
    var d := Resolve(s, cid).value.desk;
    forall j ensures j in d.pending <==> HasStatus(d, j, Pending) {
      assert j in s.desk.pending <==> HasStatus(s.desk, j, Pending);
    }
    assert cid in s.desk.pending <==> HasStatus(s.desk, cid, Pending);
  }

  lemma ResolveSound(s: System, cid: nat)
    requires Sound(s) && Resolve(s, cid).Some?
    ensures Sound(Resolve(s, cid).value)
  {
    RequeuedExact(s, cid);
    assert ClaimFits(s.desk.claims[cid], s.engine, s.desk.confirmed);
    RewrittenFits(s.desk.claims, cid, s.desk.claims[cid].(status := Pending), s.engine, s.desk.confirmed);
  }

  /** A change of status alone, to one that claims no payment. */
  lemma StatusSound(s: System, cid: nat, status: ClaimStatus)
    requires Sound(s) && cid in s.desk.claims && (status == Rejected || status == Disputed || status == Escalated)
    ensures Sound(s.(desk := Resolved(s.desk, cid, s.desk.claims[cid].(status := status))))
  {
    var c := s.desk.claims[cid].(status := status);
    assert ClaimFits(s.desk.claims[cid], s.engine, s.desk.confirmed);
    ResolvedSound(s, cid, c, s.engine, s.desk.confirmed, s.locks);
    assert Resolved(s.desk, cid, c).(confirmed := s.desk.confirmed) == Resolved(s.desk, cid, c);
  }

  // ----- The sorted queue -----

  lemma {:induction false} StampIds(d: Desk, queue: seq<nat>)
    requires forall cid :: cid in queue ==> cid in d.claims
    ensures Map(Stamp(d, queue), IdFn()) == queue
  {
    if queue != [] {
      var rest, cid := queue[..|queue| - 1], queue[|queue| - 1];
      assert queue == rest + [cid];
      StampIds(d, rest);
      MapSnoc(Stamp(d, rest), (cid, d.claims[cid].submittedAt), IdFn());
    }
  }

  /** Sorting permutes the queue and arranges it by submission time, equal times as they were queued. */
  lemma QueueSorted(s: System)
    requires Sound(s)
    ensures multiset(SortQueue(s).desk.pending) == multiset(s.desk.pending)
    ensures FirstInFirstOut(Stamp(s.desk, s.desk.pending), Sort(Stamp(s.desk, s.desk.pending), NotLater()))
  {
    var entries := Stamp(s.desk, s.desk.pending);
    forall cid | cid in s.desk.pending ensures cid in s.desk.claims {
      assert HasStatus(s.desk, cid, Pending);
    }
    StampIds(s.desk, s.desk.pending);
    SortIsFirstInFirstOut(entries);
    SameOrderPermutes(entries, Sort(entries, NotLater()));
    MapPermutation(entries, Sort(entries, NotLater()), IdFn());
  }

  lemma SortSound(s: System)
    requires Sound(s)
    ensures Sound(SortQueue(s))
  {
    QueueSorted(s);
    var d := SortQueue(s).desk;
    DistinctPermutation(s.desk.pending, d.pending);
    forall cid ensures cid in d.pending <==> HasStatus(d, cid, Pending) {
      assert cid in s.desk.pending <==> HasStatus(s.desk, cid, Pending);
      assert cid in d.pending <==> cid in multiset(d.pending);
      assert cid in s.desk.pending <==> cid in multiset(s.desk.pending);
    }
  }

  // ----- Every run -----

  lemma ProcessSound(s: System, cid: nat, verdict: bool, bps: Option<nat>, now: nat)
    requires Sound(s) && Process(s, cid, verdict, bps, now).Some?
    ensures Sound(Process(s, cid, verdict, bps, now).value)
    ensures EngineEvolves(s.engine, Process(s, cid, verdict, bps, now).value.engine)
  {
    if s.desk.claims[cid].status == Pending {
      SettleSound(s, cid, verdict, bps, now);
    }
  }

  predicate IsSettling(op: Op) {
    op.OpAuto? || op.OpProcess? || op.OpProcessMulti? || op.OpClaimPayout?
  }

  lemma SettlingOpSound(s: System, op: Op, t: System)
    requires Sound(s) && IsSettling(op) && Try(s, op) == Some(t)
    ensures Sound(t) && EngineEvolves(s.engine, t.engine)
  {
    if op.OpAuto? {
      AutoSound(s, op.policy, op.verdict, op.bps, op.now);
      assert t == AutoProcess(s, op.policy, op.verdict, op.bps, op.now).value;
    } else if op.OpProcess? {
      ProcessSound(s, op.cid, op.verdict, op.bps, op.now);
      assert t == Process(s, op.cid, op.verdict, op.bps, op.now).value;
    } else if op.OpProcessMulti? {
      var verdict := Combined(op.readings, op.requireAll);
      ProcessSound(s, op.cid, verdict, op.bps, op.now);
      assert t == Process(s, op.cid, verdict, op.bps, op.now).value;
    } else {
      ClaimPayoutSound(s, op.cid, op.now);
      assert t == ClaimPayout(s, op.cid, op.now).value;
    }
  }

  predicate IsReview(op: Op) {
    op.OpFile? || op.OpDispute? || op.OpResolve? || op.OpReject? || op.OpEscalate?
  }

  lemma ReviewOpSound(s: System, op: Op)
    requires Sound(s) && IsReview(op) && Try(s, op).Some?
    ensures Sound(Try(s, op).value) && Try(s, op).value.engine == s.engine
  {
    match op
    case OpFile(claimant, id, now, admitted) => FileSound(s, claimant, id, now, admitted);
    case OpDispute(_, cid, _, _) => StatusSound(s, cid, Disputed);
    case OpResolve(cid) => ResolveSound(s, cid);
    case OpReject(cid) => StatusSound(s, cid, Rejected);
    case OpEscalate(cid, _, _) => StatusSound(s, cid, Escalated);
  }

  lemma BookOpSound(s: System, op: Op, t: System)
    requires Sound(s) && !IsEngineOp(op) && !IsSettling(op) && !IsReview(op) && Try(s, op) == Some(t)
    ensures Sound(t) && t.engine == s.engine
  {
    if op.OpSortQueue? {
      SortSound(s);
      assert t == SortQueue(s);
    } else {
      BookOpKeepsClaims(s, op);
      SameDesk(s, t.desk);
      assert t == System(s.engine, t.desk, t.locks);
    }
  }

  lemma BookOpKeepsClaims(s: System, op: Op)
    requires !IsEngineOp(op) && !IsSettling(op) && !IsReview(op) && !op.OpSortQueue? && Try(s, op).Some?
    ensures var d := Try(s, op).value.desk;
      && d.claims == s.desk.claims && d.nextId == s.desk.nextId && d.policyClaim == s.desk.policyClaim
      && d.pending == s.desk.pending && d.confirmed == s.desk.confirmed && Try(s, op).value.engine == s.engine
  {
  }

  lemma DeskOpSound(s: System, op: Op)
    requires Sound(s) && !IsEngineOp(op) && Try(s, op).Some?
    ensures Sound(Try(s, op).value) && EngineEvolves(s.engine, Try(s, op).value.engine)
  {
    if IsSettling(op) {
      SettlingOpSound(s, op, Try(s, op).value);
    } else if IsReview(op) {
      ReviewOpSound(s, op);
    } else {
      BookOpSound(s, op, Try(s, op).value);
    }
  }

  lemma StepSound(s: System, op: Op)
    requires Sound(s) && FromOutside(op)
    ensures Sound(Step(s, op)) && EngineEvolves(s.engine, Step(s, op).engine)
  {
    if Try(s, op).Some? {
      if IsEngineOp(op) {
        EngineOpSound(s, op);
      } else {
        DeskOpSound(s, op);
      }
    }
  }

  lemma {:induction false} RunSound(s: System, ops: seq<Op>)
    requires Sound(s) && forall i :: 0 <= i < |ops| ==> FromOutside(ops[i])
    ensures Sound(Run(s, ops)) && EngineEvolves(s.engine, Run(s, ops).engine)
  {
    if ops != [] {
      RunSound(s, ops[..|ops| - 1]);
      StepSound(Run(s, ops[..|ops| - 1]), ops[|ops| - 1]);
    }
  }

  lemma ReachableSound(admin: Address, rules: Rules, ledger: map<Address, int>, ops: seq<Op>)
    requires forall i :: 0 <= i < |ops| ==> FromOutside(ops[i])
    ensures Sound(Run(Deployed(admin, rules, ledger), ops))
  {
    assert Sound(Deployed(admin, rules, ledger));
    RunSound(Deployed(admin, rules, ledger), ops);
  }
}
