/** The claims processor on top of the policy engine and the capital locks of the risk pool: claims, their
    queue, and how they are settled. Oracle verdicts come from outside. None is an abort. */
module Settlement {
  import opened Arithmetic
  import opened Sequences
  import opened Ledger
  import opened QueueSort
  import opened Installments
  import opened Policies
  import opened CapitalLocks

  const USER_COOLDOWN: nat := 60

  datatype ClaimStatus = Pending | Paid | PartiallyPaid | Rejected | Disputed | Escalated

  datatype Claim = Claim(
    policy: nat, claimant: Address, coverage: int, triggerMet: bool, status: ClaimStatus, submittedAt: nat,
    processedAt: Option<nat>, paidAmount: Option<int>, payoutBps: Option<nat>, readyAt: Option<nat>)

  datatype Rules = Rules(payoutDelay: nat, disputeWindow: nat, claimDeadline: nat, autoCooldown: nat)

  /** `confirmed` is history: the policies on whose claim the oracle once said that the trigger was met. */
  datatype Desk = Desk(
    rules: Rules,
    claims: map<nat, Claim>,
    nextId: nat,
    policyClaim: map<nat, nat>,
    pending: seq<nat>,
    lastClaim: map<Address, nat>,
    lastAuto: map<nat, nat>,
    deadlines: map<nat, nat>,
    schedules: map<nat, Schedule>,
    confirmed: set<nat>)

  datatype System = System(engine: Engine, desk: Desk, locks: Locks)

  predicate HasStatus(d: Desk, cid: nat, status: ClaimStatus) {
    cid in d.claims && d.claims[cid].status == status
  }

  // ----- Filing -----

  function OpenClaim(d: Desk, policy: nat, claimant: Address, coverage: int, now: nat): Desk {
    d.(claims := d.claims[d.nextId := Claim(policy, claimant, coverage, false, Pending, now, None, None, None, None)],
       nextId := d.nextId + 1,
       policyClaim := d.policyClaim[policy := d.nextId],
       pending := d.pending + [d.nextId])
  }

  /** Inside the cover period, or after it within the deadline. */
  predicate InTime(p: Policy, rules: Rules, now: nat) {
    now >= p.start && (now <= p.end || now <= SatAddU64(p.end, rules.claimDeadline))
  }

  /** `admitted` stands for the checks on the claimant's account, the product category and fraud score. */
  function FileClaim(s: System, claimant: Address, policy: nat, now: nat, admitted: bool): Option<System> {
    var d := s.desk;
    if policy in d.policyClaim || !IsActive(s.engine, policy) || !admitted then None
    else if s.engine.policies[policy].coverage <= 0 || s.engine.policies[policy].holder != claimant then None
    else if !InTime(s.engine.policies[policy], d.rules, now) then None
    else if claimant in d.lastClaim && now < SatAddU64(d.lastClaim[claimant], USER_COOLDOWN) then None
    else Some(s.(desk := OpenClaim(d, policy, claimant, s.engine.policies[policy].coverage, now).(
      lastClaim := d.lastClaim[claimant := now])))
  }

  // ----- Settling -----

  /** The claim is rewritten and leaves the queue. */
  function Resolved(d: Desk, cid: nat, c: Claim): Desk {
    d.(claims := d.claims[cid := c], pending := RemoveFirst(d.pending, cid))
  }

  /** A payout ratio: everything from 100% up counts as full. */
  function EffectiveBps(bps: Option<nat>): nat {
    Min(bps.GetOr(BPS), BPS)
  }

  function Share(coverage: int, bps: nat): int {
    if bps >= BPS then coverage else TruncDiv(coverage * bps, BPS)
  }

  function Approved(c: Claim, bps: nat, now: nat): Claim {
    c.(triggerMet := true, processedAt := Some(now), status := if bps >= BPS then Paid else PartiallyPaid,
       paidAmount := Some(Share(c.coverage, bps)), payoutBps := Some(bps))
  }

  /** `settle_claim_with_trigger_result`: rejects, or approves and pays, at once or after the configured delay. */
  function Settle(s: System, cid: nat, verdict: bool, bps: Option<nat>, now: nat): Option<System>
    requires cid in s.desk.claims && s.desk.claims[cid].policy in s.engine.policies
  {
    var d, c, eff := s.desk, s.desk.claims[cid], EffectiveBps(bps);
    if c.status != Pending || c.claimant != s.engine.policies[c.policy].holder then None
    else if !verdict then
      Some(s.(desk := Resolved(d, cid, c.(triggerMet := false, processedAt := Some(now), status := Rejected))))
    else if eff < BPS && !FitsI128(c.coverage * eff) then None
    else
      var confirmed, approved := d.confirmed + {c.policy}, Approved(c, eff, now);
      if d.rules.payoutDelay > 0 then
        Some(s.(desk := Resolved(d, cid, approved.(readyAt := Some(SatAddU64(now, d.rules.payoutDelay)))).(confirmed := confirmed)))
      else
        var engine, locks := PayClaim(s.engine, c.policy), Release(s.locks, c.policy);
        if engine.None? || locks.None? then None
        else Some(System(engine.value, Resolved(d, cid, approved).(confirmed := confirmed), locks.value))
  }

  /** A claim already processed is reported back without change. */
  function Process(s: System, cid: nat, verdict: bool, bps: Option<nat>, now: nat): Option<System> {
    if cid !in s.desk.claims then None
    else if s.desk.claims[cid].status != Pending then Some(s)
    else if s.desk.claims[cid].policy !in s.engine.policies then None
    else if s.desk.claims[cid].coverage != s.engine.policies[s.desk.claims[cid].policy].coverage then None
    else Settle(s, cid, verdict, bps, now)
  }

  /** Several readings: all of them, or at least one. */
  predicate Combined(readings: seq<bool>, requireAll: bool) {
    if requireAll then false !in readings else true in readings
  }

  function ProcessMulti(s: System, cid: nat, readings: seq<bool>, requireAll: bool, bps: Option<nat>, now: nat): Option<System> {
    if readings == [] then None else Process(s, cid, Combined(readings, requireAll), bps, now)
  }

  /** `auto_process`: at most once per cooldown. */
  function AutoProcess(s: System, policy: nat, verdict: bool, bps: Option<nat>, now: nat): Option<System> {
    var d := s.desk;
    if policy in d.lastAuto && now < SatAddU64(d.lastAuto[policy], d.rules.autoCooldown) then None
    else Attend(s.(desk := d.(lastAuto := d.lastAuto[policy := now])), policy, verdict, bps, now)
  }

  /** Expires an ended policy, or opens a claim if there is none and settles it. */
  function Attend(s: System, policy: nat, verdict: bool, bps: Option<nat>, now: nat): Option<System> {
    var d := s.desk;
    if policy in d.policyClaim && d.policyClaim[policy] in d.claims && d.claims[d.policyClaim[policy]].status != Pending
    then Some(s)
    else if policy !in s.engine.policies || s.engine.policies[policy].coverage <= 0 then None
    else if !IsActive(s.engine, policy) then Some(s)
    else if now > s.engine.policies[policy].end then
      var locks := Release(s.locks, policy);
      if locks.None? then None else Some(s.(engine := Finish(s.engine, policy, Expired), locks := locks.value))
    else OpenAndSettle(s, policy, verdict, bps, now)
  }

  function OpenAndSettle(s: System, policy: nat, verdict: bool, bps: Option<nat>, now: nat): Option<System>
    requires policy in s.engine.policies
  {
    var p := s.engine.policies[policy];
    var filed := if policy in s.desk.policyClaim then s
                  else s.(desk := OpenClaim(s.desk, policy, p.holder, p.coverage, now));
    var cid := filed.desk.policyClaim[policy];
    if cid !in filed.desk.claims || filed.desk.claims[cid].policy !in s.engine.policies then None
    else Settle(filed, cid, verdict, bps, now)
  }

  // ----- Disputes and review -----

  predicate Disputable(d: Desk, cid: nat, now: nat) {
    && cid in d.claims
    && (d.claims[cid].status == Pending || d.claims[cid].status == Rejected || d.claims[cid].status == PartiallyPaid)
    && (cid in d.deadlines ==> now <= d.deadlines[cid])
    && (d.claims[cid].status != Pending && d.claims[cid].processedAt.Some? ==>
          now <= SatAddU64(d.claims[cid].processedAt.value, d.rules.disputeWindow))
  }

  function Dispute(s: System, caller: Address, cid: nat, reasonOk: bool, now: nat): Option<System> {
    if !Disputable(s.desk, cid, now) || !reasonOk || s.desk.claims[cid].policy !in s.engine.policies then None
    else if caller != s.desk.claims[cid].claimant && caller != s.engine.policies[s.desk.claims[cid].policy].holder then None
    else Some(s.(desk := Resolved(s.desk, cid, s.desk.claims[cid].(status := Disputed))))
  }

  function Resolve(s: System, cid: nat): Option<System> {
    if !HasStatus(s.desk, cid, Disputed) then None
    else Some(s.(desk := s.desk.(
      claims := s.desk.claims[cid := s.desk.claims[cid].(status := Pending)],
      pending := s.desk.pending + [cid])))
  }

  /** The admin's rejection looks at no status. */
  function Reject(s: System, cid: nat): Option<System> {
    if cid !in s.desk.claims then None
    else Some(s.(desk := Resolved(s.desk, cid, s.desk.claims[cid].(status := Rejected))))
  }

  /** `threshold` is the one configured for the product's category. */
  function Escalate(s: System, cid: nat, threshold: nat, now: nat): Option<System> {
    if !HasStatus(s.desk, cid, Pending) || SatSubU64(now, s.desk.claims[cid].submittedAt) < threshold then None
    else if s.desk.claims[cid].policy !in s.engine.policies then None
    else if now > SatAddU64(s.engine.policies[s.desk.claims[cid].policy].end, s.desk.rules.claimDeadline) then None
    else Some(s.(desk := Resolved(s.desk, cid, s.desk.claims[cid].(status := Escalated))))
  }

  // ----- Delayed payouts -----

  /** Looks at the release time and the amount, not at the status. */
  function ClaimPayout(s: System, cid: nat, now: nat): Option<System> {
    if cid !in s.desk.claims || s.desk.claims[cid].readyAt.None? || now < s.desk.claims[cid].readyAt.value then None
    else
      var c := s.desk.claims[cid];
      var engine, locks := PayClaim(s.engine, c.policy), Release(s.locks, c.policy);
      if c.paidAmount.None? || c.paidAmount.value > c.coverage || engine.None? || locks.None? then None
      else Some(System(engine.value, s.desk.(claims := s.desk.claims[cid := c.(readyAt := None)]), locks.value))
  }

  // ----- The queue -----

  function Stamp(d: Desk, queue: seq<nat>): seq<Entry>
  {
    if queue == [] then []
    else
      var rest := Stamp(d, queue[..|queue| - 1]);
      var cid := queue[|queue| - 1];
      if cid in d.claims then rest + [(cid, d.claims[cid].submittedAt)] else rest
  }

  function IdFn(): Entry -> nat {
    (e: Entry) => e.0
  }

  /** The queue rebuild at the start of `batch_auto_process`. */
  function SortQueue(s: System): System {
    s.(desk := s.desk.(pending := Map(Sort(Stamp(s.desk, s.desk.pending), NotLater()), IdFn())))
  }

  // ----- Installments -----

  function ScheduleInstallments(s: System, cid: nat, amount: int, count: nat, interval: nat, now: nat): Option<System> {
    if !HasStatus(s.desk, cid, Paid) && !HasStatus(s.desk, cid, PartiallyPaid) then None
    else
      var plan := Plan(s.desk.claims[cid].coverage, amount, count, interval, now);
      if plan.None? then None else Some(s.(desk := s.desk.(schedules := s.desk.schedules[cid := plan.value])))
  }

  /** Releases the capital lock and reports what is due to the caller; no token moves. */
  function ClaimInstallment(s: System, claimant: Address, cid: nat, now: nat): Option<(System, int)> {
    if cid !in s.desk.claims || s.desk.claims[cid].claimant != claimant || cid !in s.desk.schedules then None
    else
      var next, locks := Collect(s.desk.schedules[cid], now), Release(s.locks, s.desk.claims[cid].policy);
      if next.None? || locks.None? then None
      else Some((s.(desk := s.desk.(schedules := s.desk.schedules[cid := next.value.0]), locks := locks.value), next.value.1))
  }

  // ----- Runs -----

  datatype Op =
    | OpBuy(order: Order, now: nat)
    | OpCancelPolicy(holder: Address, policy: nat, reasonLen: nat, now: nat)
    | OpTransferPolicy(from: Address, to: Address, policy: nat)
    | OpFile(claimant: Address, policy: nat, now: nat, admitted: bool)
    | OpAuto(policy: nat, verdict: bool, bps: Option<nat>, now: nat)
    | OpProcess(cid: nat, verdict: bool, bps: Option<nat>, now: nat)
    | OpProcessMulti(cid: nat, readings: seq<bool>, requireAll: bool, bps: Option<nat>, now: nat)
    | OpDispute(caller: Address, cid: nat, reasonOk: bool, now: nat)
    | OpResolve(cid: nat)
    | OpReject(cid: nat)
    | OpEscalate(cid: nat, threshold: nat, now: nat)
    | OpClaimPayout(cid: nat, now: nat)
    | OpSortQueue
    | OpSchedule(cid: nat, amount: int, count: nat, interval: nat, now: nat)
    | OpInstallment(claimant: Address, cid: nat, now: nat)
    | OpSetRules(rules: Rules)
    | OpSetDeadline(cid: nat, deadline: nat)
    | OpSetProduct(id: nat, product: Product)
    | OpOutside(from: Address, to: Address, amount: int)
    | OpLock(policy: nat, covered: bool)
    | OpRelease(policy: nat)

  function LiftEngine(s: System, engine: Option<Engine>): Option<System> {
    if engine.None? then None else Some(s.(engine := engine.value))
  }

  function LiftLocks(s: System, locks: Option<Locks>): Option<System> {
    if locks.None? then None else Some(s.(locks := locks.value))
  }

  function Try(s: System, op: Op): Option<System> {
    match op
    case OpBuy(order, now) => LiftEngine(s, Buy(s.engine, order, now))
    case OpCancelPolicy(holder, id, len, now) => LiftEngine(s, Cancel(s.engine, holder, id, len, now))
    case OpTransferPolicy(from, to, id) => LiftEngine(s, TransferPolicy(s.engine, from, to, id))
    case OpFile(claimant, id, now, admitted) => FileClaim(s, claimant, id, now, admitted)
    case OpAuto(id, verdict, bps, now) => AutoProcess(s, id, verdict, bps, now)
    case OpProcess(cid, verdict, bps, now) => Process(s, cid, verdict, bps, now)
    case OpProcessMulti(cid, readings, all, bps, now) => ProcessMulti(s, cid, readings, all, bps, now)
    case OpDispute(caller, cid, reasonOk, now) => Dispute(s, caller, cid, reasonOk, now)
    case OpResolve(cid) => Resolve(s, cid)
    case OpReject(cid) => Reject(s, cid)
    case OpEscalate(cid, threshold, now) => Escalate(s, cid, threshold, now)
    case OpClaimPayout(cid, now) => ClaimPayout(s, cid, now)
    case OpSortQueue => Some(SortQueue(s))
    case OpSchedule(cid, amount, count, interval, now) => ScheduleInstallments(s, cid, amount, count, interval, now)
    case OpInstallment(claimant, cid, now) =>
      var collected := ClaimInstallment(s, claimant, cid, now);
      if collected.None? then None else Some(collected.value.0)
    case OpSetRules(rules) => Some(s.(desk := s.desk.(rules := rules)))
    case OpSetDeadline(cid, deadline) =>
      if cid in s.desk.claims then Some(s.(desk := s.desk.(deadlines := s.desk.deadlines[cid := deadline]))) else None
    case OpSetProduct(id, product) => Some(s.(engine := s.engine.(products := s.engine.products[id := product])))
    case OpOutside(from, to, amount) => LiftEngine(s, Outside(s.engine, from, to, amount))
    case OpLock(policy, covered) => LiftLocks(s, Take(s.locks, policy, covered))
    case OpRelease(policy) => LiftLocks(s, Release(s.locks, policy))
  }

  function Step(s: System, op: Op): System {
    Try(s, op).GetOr(s)
  }

  function Run(s: System, ops: seq<Op>): System {
    if ops == [] then s else Step(Run(s, ops[..|ops| - 1]), ops[|ops| - 1])
  }

  function Deployed(admin: Address, rules: Rules, ledger: map<Address, int>): System {
    System(Engine(admin, map[], map[], 1, map[], map[], ledger, Balance(ledger, SELF), []),
           Desk(rules, map[], 1, map[], [], map[], map[], map[], map[], {}),
           map[])
  }

  /** Nobody can sign for the engine's own account. */
  predicate FromOutside(op: Op) {
    match op
    case OpBuy(order, _) => order.buyer != SELF
    case OpTransferPolicy(_, to, _) => to != SELF
    case OpOutside(from, _, _) => from != SELF
    case _ => true
  }
}
