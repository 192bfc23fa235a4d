/** The policy engine's storage and what each entry point does to it: None is an abort. Its token balance is
    the pool that premiums flow into and claims are paid from. */
module Policies {
  import opened Arithmetic
  import opened Sequences
  import opened Ledger

  const DAY: nat := 86_400
  const MAX_COVERAGE: int := 1_000_000_000_000
  const MAX_RATE_BPS: nat := 5_000
  const COOLING_OFF: nat := 24 * 60 * 60
  const MAX_REASON_LEN: nat := 256

  datatype PolicyStatus = Active | Claimed | Expired | Cancelled

  datatype Product = Product(active: bool, coverageMin: int, coverageMax: int, maxDays: nat, rateBps: nat)

  datatype Policy = Policy(holder: Address, coverage: int, premium: int, start: nat, end: nat, status: PolicyStatus)

  datatype Order = Order(buyer: Address, product: nat, coverage: int, days: nat, key: Symbol, start: nat)

  /** A transfer out of the pool on account of a policy. */
  datatype Outflow =
    | Payout(policy: nat, to: Address, amount: int)
    | Refund(policy: nat, to: Address, amount: int)

  /** `inflow` and `outflows` are history: all tokens received, and every transfer out. */
  datatype Engine = Engine(
    admin: Address,
    products: map<nat, Product>,
    policies: map<nat, Policy>,
    nextId: nat,
    lists: map<Address, seq<nat>>,
    lastPurchase: map<(Address, Symbol), nat>,
    ledger: map<Address, int>,
    inflow: int,
    outflows: seq<Outflow>)

  function ListOf(e: Engine, user: Address): seq<nat> {
    Get(e.lists, user, [])
  }

  predicate IsActive(e: Engine, id: nat) {
    id in e.policies && e.policies[id].status == Active
  }

  // ----- Buying -----

  /** The yearly rate on the coverage for the days bought; None when it overflows. */
  function PremiumOf(coverage: int, rateBps: nat, days: nat): Option<int> {
    if !FitsI128(coverage * rateBps) || !FitsI128(coverage * rateBps * days) then None
    else Some(TruncDiv(TruncDiv(coverage * rateBps * days, 365), BPS))
  }

  predicate ProductAccepts(p: Product, o: Order) {
    && p.active
    && o.coverage > 0 && p.coverageMin <= o.coverage <= p.coverageMax && o.coverage <= MAX_COVERAGE
    && 0 < o.days <= p.maxDays
    && 0 < p.rateBps <= MAX_RATE_BPS
  }

  predicate MayBuy(e: Engine, o: Order, now: nat) {
    && o.start >= now && o.buyer != e.admin
    && ((o.buyer, o.key) in e.lastPurchase ==> now >= SatAddU64(e.lastPurchase[(o.buyer, o.key)], COOLING_OFF))
    && o.product in e.products && ProductAccepts(e.products[o.product], o)
    && FitsU64(o.start + o.days * DAY)
  }

  function Buy(e: Engine, o: Order, now: nat): Option<Engine> {
    if !MayBuy(e, o, now) then None
    else
      var premium := PremiumOf(o.coverage, e.products[o.product].rateBps, o.days).GetOr(0);
      var moved := Transfer(e.ledger, o.buyer, SELF, premium);
      if premium <= 0 || moved.None? then None
      else Some(e.(
        policies := e.policies[e.nextId := Policy(o.buyer, o.coverage, premium, o.start, o.start + o.days * DAY, Active)],
        nextId := e.nextId + 1,
        lists := e.lists[o.buyer := ListOf(e, o.buyer) + [e.nextId]],
        lastPurchase := e.lastPurchase[(o.buyer, o.key) := now],
        ledger := moved.value,
        inflow := e.inflow + premium))
  }

  /** Both truncations together are one: the premium is coverage x rate x days over a year of full rates,
      rounded down. */
  lemma PremiumIsProRata(coverage: int, rateBps: nat, days: nat)
    requires 0 <= coverage <= MAX_COVERAGE && rateBps <= MAX_RATE_BPS && days <= U32_MAX
    ensures PremiumOf(coverage, rateBps, days) == Some(coverage * rateBps * days / (365 * BPS))
  {
    MulMono(coverage, MAX_COVERAGE, rateBps);
    MulMono(rateBps, MAX_RATE_BPS, MAX_COVERAGE);
    MulMono(0, coverage, rateBps);
    MulMono(coverage * rateBps, MAX_COVERAGE * MAX_RATE_BPS, days);
    MulMono(days, U32_MAX, MAX_COVERAGE * MAX_RATE_BPS);
    MulMono(0, coverage * rateBps, days);
    TwoQuotients(coverage * rateBps * days);
  }

  lemma TwoQuotients(x: nat)
    ensures x / 365 / BPS == x / (365 * BPS)
  {
  }

  // ----- Ending a policy -----

  function Unlist(e: Engine, user: Address, id: nat): Engine {
    if id in ListOf(e, user) then e.(lists := e.lists[user := RemoveFirst(ListOf(e, user), id)]) else e
  }

  /** The policy takes a final status and leaves its holder's list. */
  function Finish(e: Engine, id: nat, status: PolicyStatus): Engine
    requires id in e.policies
  {
    Unlist(e.(policies := e.policies[id := e.policies[id].(status := status)]), e.policies[id].holder, id)
  }

  function Send(e: Engine, flow: Outflow): Option<Engine> {
    var moved := Transfer(e.ledger, SELF, flow.to, flow.amount);
    if moved.None? then None else Some(e.(ledger := moved.value, outflows := e.outflows + [flow]))
  }

  /** The premium less the part already earned, pro rata over the policy's span. */
  function RefundOf(p: Policy, now: nat): Option<int> {
    var total := SatSubU64(p.end, p.start);
    if total == 0 then Some(p.premium)
    else
      var elapsed := Min(SatSubU64(now, p.start), total);
      if !FitsI128(p.premium * elapsed) then None else Some(p.premium - TruncDiv(p.premium * elapsed, total))
  }

  function Cancel(e: Engine, holder: Address, id: nat, reasonLen: nat, now: nat): Option<Engine> {
    if reasonLen == 0 || reasonLen > MAX_REASON_LEN || !IsActive(e, id) || e.policies[id].holder != holder then None
    else
      var refund := RefundOf(e.policies[id], now);
      if refund.None? then None
      else if refund.value > 0 then Send(Finish(e, id, Cancelled), Refund(id, holder, refund.value))
      else Some(Finish(e, id, Cancelled))
  }

  function TransferPolicy(e: Engine, from: Address, to: Address, id: nat): Option<Engine> {
    if !IsActive(e, id) || e.policies[id].holder != from then None
    else if from == to then Some(e)
    else
      var moved := Unlist(e.(policies := e.policies[id := e.policies[id].(holder := to)]), from, id);
      Some(moved.(lists := moved.lists[to := ListOf(moved, to) + [id]]))
  }

  /** Called by the claims processor: the whole coverage goes to whoever holds the policy now. */
  function PayClaim(e: Engine, id: nat): Option<Engine> {
    if !IsActive(e, id) then None
    else
      var sent := Send(e, Payout(id, e.policies[id].holder, e.policies[id].coverage));
      if sent.None? then None else Some(Finish(sent.value, id, Claimed))
  }

  function Expire(e: Engine, id: nat): Option<Engine> {
    if !IsActive(e, id) then None else Some(Finish(e, id, Expired))
  }

  /** A token transfer that does not involve the contract. */
  function Outside(e: Engine, from: Address, to: Address, amount: int): Option<Engine> {
    var moved := Transfer(e.ledger, from, to, amount);
    if moved.None? then None
    else Some(e.(ledger := moved.value, inflow := e.inflow + if to == SELF then amount else 0))
  }

  // ----- What holds of the engine -----

  /** A user's list is exactly the active policies they hold, each once. */
  ghost predicate ListExact(e: Engine, user: Address) {
    && Distinct(ListOf(e, user))
    && forall id :: id in ListOf(e, user) <==> IsActive(e, id) && e.policies[id].holder == user
  }

  function About(id: nat): Outflow -> bool {
    (flow: Outflow) => flow.policy == id
  }

  function AmountFn(): Outflow -> int {
    (flow: Outflow) => flow.amount
  }

  function FlowsOf(e: Engine, id: nat): seq<Outflow> {
    Filter(e.outflows, About(id))
  }

  /** All that ever left the pool for a policy, by its status: nothing while it is active or when it expired,
      the coverage exactly once when it was claimed, at most one refund within the premium when it was
      cancelled. */
  ghost predicate FlowsFit(id: nat, p: Policy, flows: seq<Outflow>) {
    match p.status
    case Active => flows == []
    case Expired => flows == []
    case Claimed => flows == [Payout(id, p.holder, p.coverage)]
    case Cancelled => flows == [] || (|flows| == 1 && flows[0] == Refund(id, p.holder, flows[0].amount) && 0 < flows[0].amount <= p.premium)
  }

  ghost predicate FlowsSound(e: Engine) {
    && (forall id :: id in e.policies ==> FlowsFit(id, e.policies[id], FlowsOf(e, id)))
    && (forall flow :: flow in e.outflows ==> flow.policy in e.policies)
    && Balance(e.ledger, SELF) == e.inflow - SumBy(e.outflows, AmountFn())
  }

  ghost predicate TermsSound(e: Engine) {
    forall id :: id in e.policies ==>
      var p := e.policies[id];
      id < e.nextId && p.holder != SELF && 0 < p.coverage <= MAX_COVERAGE && p.premium > 0 && p.start < p.end
  }

  ghost predicate EngineSound(e: Engine) {
    && (forall user :: ListExact(e, user))
    && FlowsSound(e)
    && TermsSound(e)
  }

  // ----- Lists -----

  lemma UnlistFinished(e: Engine, id: nat, status: PolicyStatus)
    requires IsActive(e, id) && status != Active && forall user :: ListExact(e, user)
    ensures forall user :: ListExact(Finish(e, id, status), user)
  {
    var t, holder := Finish(e, id, status), e.policies[id].holder;
    assert ListExact(e, holder);
    RemoveFirstDistinct(ListOf(e, holder), id);
    forall user ensures ListExact(t, user) {
      assert ListExact(e, user);
      forall j ensures j in ListOf(t, user) <==> IsActive(t, j) && t.policies[j].holder == user {
        assert j in ListOf(e, user) <==> IsActive(e, j) && e.policies[j].holder == user;
      }
    }
  }

  lemma TransferLists(e: Engine, from: Address, to: Address, id: nat)
    requires TransferPolicy(e, from, to, id).Some? && forall user :: ListExact(e, user)
    ensures forall user :: ListExact(TransferPolicy(e, from, to, id).value, user)
  {
    if from != to {
      var t := TransferPolicy(e, from, to, id).value;
      assert ListExact(e, from);
      RemoveFirstDistinct(ListOf(e, from), id);
      forall user ensures ListExact(t, user) {
        assert ListExact(e, user);
        assert user == to ==> id !in ListOf(e, to);
        forall j ensures j in ListOf(t, user) <==> IsActive(t, j) && t.policies[j].holder == user {
          assert j in ListOf(e, user) <==> IsActive(e, j) && e.policies[j].holder == user;
        }
      }
    }
  }

  lemma BuyLists(e: Engine, o: Order, now: nat)
    requires Buy(e, o, now).Some? && e.nextId !in e.policies && forall user :: ListExact(e, user)
    ensures forall user :: ListExact(Buy(e, o, now).value, user)
  {
    var t := Buy(e, o, now).value;
    forall user ensures ListExact(t, user) {
      assert ListExact(e, user);
      assert e.nextId !in ListOf(e, user);
      forall j ensures j in ListOf(t, user) <==> IsActive(t, j) && t.policies[j].holder == user {
        assert j in ListOf(e, user) <==> IsActive(e, j) && e.policies[j].holder == user;
      }
    }
  }

  // ----- Flows -----

  /** One more transfer shows up in the flows of its own policy only. */
  lemma SentFlows(e: Engine, flow: Outflow)
    requires Send(e, flow).Some? && flow.to != SELF
    ensures var t := Send(e, flow).value;
      && (forall id :: FlowsOf(t, id) == FlowsOf(e, id) + if id == flow.policy then [flow] else [])
      && SumBy(t.outflows, AmountFn()) == SumBy(e.outflows, AmountFn()) + flow.amount
      && Balance(t.ledger, SELF) == Balance(e.ledger, SELF) - flow.amount
  {
    SumBySnoc(e.outflows, flow, AmountFn());
    forall id ensures FlowsOf(Send(e, flow).value, id) == FlowsOf(e, id) + if id == flow.policy then [flow] else [] {
      FilterSnoc(e.outflows, flow, About(id));
    }
  }

  /** Nothing has flowed for an id that was never handed out. */
  lemma NoFlowsYet(e: Engine, id: nat)
    requires FlowsSound(e) && id !in e.policies
    ensures FlowsOf(e, id) == []
  {
    FilterNone(e.outflows, About(id));
  }

  // ----- Every operation keeps the engine sound -----

  lemma BuySound(e: Engine, o: Order, now: nat)
    requires EngineSound(e) && o.buyer != SELF && Buy(e, o, now).Some?
    ensures EngineSound(Buy(e, o, now).value)
  {
    BuyLists(e, o, now);
    NoFlowsYet(e, e.nextId);
    var t := Buy(e, o, now).value;
    forall id | id in t.policies ensures FlowsFit(id, t.policies[id], FlowsOf(t, id)) {
      assert FlowsOf(t, id) == FlowsOf(e, id);
    }
  }

  lemma RefundBounds(p: Policy, now: nat)
    requires p.premium > 0 && RefundOf(p, now).Some?
    ensures 0 <= RefundOf(p, now).value <= p.premium
    ensures now <= p.start ==> RefundOf(p, now).value == p.premium
    ensures p.start < p.end <= now ==> RefundOf(p, now).value == 0
  {
    var total := SatSubU64(p.end, p.start);
    if total > 0 {
      var elapsed := Min(SatSubU64(now, p.start), total);
      MulMono(elapsed, total, p.premium);
      MulMono(0, elapsed, p.premium);
      TruncDivHull(p.premium * elapsed, total, 0, p.premium);
      if elapsed == total {
        TruncDivHull(p.premium * elapsed, total, p.premium, p.premium);
      }
    }
  }

  /** Cancelling later never refunds more. */
  lemma RefundShrinks(p: Policy, now: nat, later: nat)
    requires p.premium > 0 && now <= later && RefundOf(p, now).Some? && RefundOf(p, later).Some?
    ensures RefundOf(p, later).value <= RefundOf(p, now).value
  {
    var total := SatSubU64(p.end, p.start);
    if total > 0 {
      var e, f := Min(SatSubU64(now, p.start), total), Min(SatSubU64(later, p.start), total);
      MulMono(e, f, p.premium);
      TruncDivMono(p.premium * e, p.premium * f, total);
    }
  }

  /** The premium less its earned share: all of it before the start and nothing at the end, and strictly inside the
      cover the earned part is the elapsed share of the premium, rounded down. */
  ghost predicate ProRata(p: Policy, now: nat, refund: int) {
    && 0 <= refund <= p.premium
    && (now <= p.start ==> refund == p.premium)
    && (now >= p.end ==> refund == 0)
    && (p.start < now < p.end ==>
          (p.premium - refund) * (p.end - p.start) <= p.premium * (now - p.start) < (p.premium - refund + 1) * (p.end - p.start))
  }

  lemma FloorBounds(a: int, b: int)
    requires a >= 0 && b > 0
    ensures TruncDiv(a, b) * b <= a < (TruncDiv(a, b) + 1) * b
  {
  }

  /** That is one amount only. */
  lemma ProRataUnique(p: Policy, now: nat, a: int, b: int)
    requires p.start < p.end && ProRata(p, now, a) && ProRata(p, now, b)
    ensures a == b
  {
    if p.start < now < p.end {
      var span := p.end - p.start;
      if a < b { MulMono(p.premium - b + 1, p.premium - a, span); }
      if b < a { MulMono(p.premium - a + 1, p.premium - b, span); }
    }
  }

  lemma RefundFitsProRata(p: Policy, now: nat)
    requires p.premium > 0 && p.start < p.end && RefundOf(p, now).Some?
    ensures ProRata(p, now, RefundOf(p, now).value)
  {
    RefundBounds(p, now);
    if p.start < now < p.end {
      MulMono(0, now - p.start, p.premium);
      FloorBounds(p.premium * (now - p.start), p.end - p.start);
    }
  }

  /** The refund is the one amount that is pro rata. */
  lemma RefundIsProRata(p: Policy, now: nat, refund: int)
    requires p.premium > 0 && p.start < p.end && RefundOf(p, now).Some?
    ensures ProRata(p, now, refund) <==> refund == RefundOf(p, now).value
  {
    RefundFitsProRata(p, now);
    if ProRata(p, now, refund) {
      ProRataUnique(p, now, refund, RefundOf(p, now).value);
    }
  }

  lemma FinishKeepsRest(e: Engine, id: nat, status: PolicyStatus)
    requires id in e.policies
    ensures var t := Finish(e, id, status);
      && t == e.(policies := t.policies, lists := t.lists)
      && t.policies == e.policies[id := e.policies[id].(status := status)]
      && forall j :: FlowsOf(t, j) == FlowsOf(e, j)
  {
  }

  /** A step on one policy has to account for the flows of that policy only. */
  lemma FlowsAfter(e: Engine, t: Engine, id: nat)
    requires FlowsSound(e) && id in e.policies && t.policies.Keys == e.policies.Keys
    requires forall j :: j in e.policies && j != id ==> t.policies[j] == e.policies[j] && FlowsOf(t, j) == FlowsOf(e, j)
    requires FlowsFit(id, t.policies[id], FlowsOf(t, id))
    requires forall flow :: flow in t.outflows ==> flow in e.outflows || flow.policy == id
    requires Balance(t.ledger, SELF) == t.inflow - SumBy(t.outflows, AmountFn())
    ensures FlowsSound(t)
  {
  }

  lemma SendKeepsLists(e: Engine, flow: Outflow)
    requires Send(e, flow).Some? && forall user :: ListExact(e, user)
    ensures forall user :: ListExact(Send(e, flow).value, user)
  {
    forall user ensures ListExact(Send(e, flow).value, user) {
      assert ListExact(e, user);
    }
  }

  /** Ending an active policy without a transfer. */
  lemma FinishSound(e: Engine, id: nat, status: PolicyStatus)
    requires EngineSound(e) && IsActive(e, id) && (status == Cancelled || status == Expired)
    ensures EngineSound(Finish(e, id, status))
  {
    UnlistFinished(e, id, status);
    FinishKeepsRest(e, id, status);
    FlowsAfter(e, Finish(e, id, status), id);
  }

  lemma FinishAndSendFlows(e: Engine, t: Engine, id: nat, status: PolicyStatus, flow: Outflow)
    requires FlowsSound(e) && IsActive(e, id) && flow.policy == id && flow.to != SELF
    requires Send(e, flow).Some? && t == Finish(Send(e, flow).value, id, status)
    requires FlowsFit(id, e.policies[id].(status := status), [flow])
    ensures FlowsSound(t)
  {
    SentFlows(e, flow);
    FinishKeepsRest(Send(e, flow).value, id, status);
    assert FlowsFit(id, e.policies[id], FlowsOf(e, id));
    assert FlowsOf(t, id) == [] + [flow] == [flow];
    FlowsAfter(e, t, id);
  }

  /** Ending an active policy with the one transfer its final status allows. */
  lemma FinishAndSend(e: Engine, t: Engine, id: nat, status: PolicyStatus, flow: Outflow)
    requires EngineSound(e) && IsActive(e, id) && status != Active && flow.policy == id && flow.to != SELF
    requires Send(e, flow).Some? && t == Finish(Send(e, flow).value, id, status)
    requires FlowsFit(id, e.policies[id].(status := status), [flow])
    ensures EngineSound(t)
  {
    SendKeepsLists(e, flow);
    UnlistFinished(Send(e, flow).value, id, status);
    FinishAndSendFlows(e, t, id, status, flow);
    FinishKeepsRest(Send(e, flow).value, id, status);
  }

  lemma CancelSound(e: Engine, holder: Address, id: nat, reasonLen: nat, now: nat)
    requires EngineSound(e) && Cancel(e, holder, id, reasonLen, now).Some?
    ensures EngineSound(Cancel(e, holder, id, reasonLen, now).value)
  {
    var refund := RefundOf(e.policies[id], now).value;
    RefundBounds(e.policies[id], now);
    if refund > 0 {
      var flow := Refund(id, holder, refund);
      assert Send(Finish(e, id, Cancelled), flow) == Some(Finish(Send(e, flow).value, id, Cancelled));
      FinishAndSend(e, Finish(Send(e, flow).value, id, Cancelled), id, Cancelled, flow);
    } else {
      FinishSound(e, id, Cancelled);
    }
  }

  /** The product of premium and elapsed time, capped at the span, fits i128. */
  predicate EarnedFits(p: Policy, now: nat) {
    FitsI128(p.premium * (if now <= p.start then 0 else if now >= p.end then p.end - p.start else now - p.start))
  }

  /** What a cancellation changes: the policy's status and its holder's list; and the refund, if there is one, moves
      from the pool to the holder and is recorded. */
  ghost predicate CancelledWith(e: Engine, t: Engine, id: nat, refund: int) {
    id in e.policies &&
    var holder := e.policies[id].holder;
    && t.policies == e.policies[id := e.policies[id].(status := Cancelled)]
    && Balance(t.ledger, holder) == Balance(e.ledger, holder) + refund
    && Balance(t.ledger, SELF) == Balance(e.ledger, SELF) - refund
    && (forall a :: a != holder && a != SELF ==> Balance(t.ledger, a) == Balance(e.ledger, a))
    && t.outflows == e.outflows + (if refund > 0 then [Refund(id, holder, refund)] else [])
    && t.inflow == e.inflow && t.products == e.products && t.nextId == e.nextId && t.lastPurchase == e.lastPurchase
    && (forall j :: j in ListOf(t, holder) <==> j in ListOf(e, holder) && j != id)
    && (forall user :: user != holder ==> ListOf(t, user) == ListOf(e, user))
  }

  lemma UnlistedExactly(e: Engine, id: nat)
    requires EngineSound(e) && IsActive(e, id)
    ensures var t, holder := Finish(e, id, Cancelled), e.policies[id].holder;
      && (forall j :: j in ListOf(t, holder) <==> j in ListOf(e, holder) && j != id)
      && (forall user :: user != holder ==> ListOf(t, user) == ListOf(e, user))
  {
    assert ListExact(e, e.policies[id].holder);
    RemoveFirstDistinct(ListOf(e, e.policies[id].holder), id);
  }

  lemma CancelEffect(e: Engine, holder: Address, id: nat, reasonLen: nat, now: nat)
    requires EngineSound(e) && Cancel(e, holder, id, reasonLen, now).Some? && RefundOf(e.policies[id], now).Some?
    requires RefundOf(e.policies[id], now).value >= 0
    ensures CancelledWith(e, Cancel(e, holder, id, reasonLen, now).value, id, RefundOf(e.policies[id], now).value)
  {
    UnlistedExactly(e, id);
    FinishKeepsRest(e, id, Cancelled);
  }

  lemma RefundFits(p: Policy, now: nat)
    requires p.premium > 0 && p.start < p.end
    ensures RefundOf(p, now).Some? <==> EarnedFits(p, now)
  {
  }

  predicate MayCancel(e: Engine, holder: Address, id: nat, reasonLen: nat) {
    1 <= reasonLen <= 256 && id in e.policies && e.policies[id].status == Active && e.policies[id].holder == holder
  }

  lemma CancelGuards(e: Engine, holder: Address, id: nat, reasonLen: nat, now: nat)
    ensures Cancel(e, holder, id, reasonLen, now).Some? <==>
            && MayCancel(e, holder, id, reasonLen) && RefundOf(e.policies[id], now).Some?
            && (RefundOf(e.policies[id], now).value > 0 ==> RefundOf(e.policies[id], now).value <= Balance(e.ledger, SELF))
  {
  }

  /** A policy is cancelled exactly by its holder, while it is active, with a reason of 1 to 256 bytes, when the pool
      covers the pro-rata refund; then exactly that refund moves and is recorded. */
  lemma CancelExact(e: Engine, holder: Address, id: nat, reasonLen: nat, now: nat) returns (refund: int)
    requires EngineSound(e)
    ensures id in e.policies && EarnedFits(e.policies[id], now) ==> ProRata(e.policies[id], now, refund)
    ensures Cancel(e, holder, id, reasonLen, now).Some? <==>
            && MayCancel(e, holder, id, reasonLen) && EarnedFits(e.policies[id], now)
            && (refund > 0 ==> refund <= Balance(e.ledger, SELF))
    ensures Cancel(e, holder, id, reasonLen, now).Some? ==>
              CancelledWith(e, Cancel(e, holder, id, reasonLen, now).value, id, refund)
  {
    refund := 0;
    CancelGuards(e, holder, id, reasonLen, now);
    if id in e.policies {
      RefundFits(e.policies[id], now);
      if EarnedFits(e.policies[id], now) {
        refund := RefundOf(e.policies[id], now).value;
        RefundFitsProRata(e.policies[id], now);
        if Cancel(e, holder, id, reasonLen, now).Some? {
          CancelEffect(e, holder, id, reasonLen, now);
        }
      }
    }
  }

  lemma TransferSound(e: Engine, from: Address, to: Address, id: nat)
    requires EngineSound(e) && to != SELF && TransferPolicy(e, from, to, id).Some?
    ensures EngineSound(TransferPolicy(e, from, to, id).value)
  {
    TransferLists(e, from, to, id);
    if from != to {
      var t := TransferPolicy(e, from, to, id).value;
      assert t == e.(policies := t.policies, lists := t.lists);
      assert t.policies == e.policies[id := e.policies[id].(holder := to)];
      assert forall j :: FlowsOf(t, j) == FlowsOf(e, j);
      FlowsAfter(e, t, id);
    }
  }

  lemma PayClaimSound(e: Engine, id: nat)
    requires EngineSound(e) && PayClaim(e, id).Some?
    ensures EngineSound(PayClaim(e, id).value)
  {
    FinishAndSend(e, PayClaim(e, id).value, id, Claimed, Payout(id, e.policies[id].holder, e.policies[id].coverage));
  }

  lemma OutsideSound(e: Engine, from: Address, to: Address, amount: int)
    requires EngineSound(e) && from != SELF && Outside(e, from, to, amount).Some?
    ensures EngineSound(Outside(e, from, to, amount).value)
  {
    var t := Outside(e, from, to, amount).value;
    forall user ensures ListExact(t, user) {
      assert ListExact(e, user);
    }
    forall j | j in t.policies ensures FlowsFit(j, t.policies[j], FlowsOf(t, j)) {
      assert FlowsOf(t, j) == FlowsOf(e, j);
    }
  }

  /** A claim is payable exactly when its policy is active and the pool covers it; the coverage goes to the
      holder. */
  lemma PayClaimExact(e: Engine, id: nat)
    requires EngineSound(e)
    ensures PayClaim(e, id).Some? <==> IsActive(e, id) && e.policies[id].coverage <= Balance(e.ledger, SELF)
    ensures PayClaim(e, id).Some? ==>
              var p, t := e.policies[id], PayClaim(e, id).value;
              && t.policies == e.policies[id := p.(status := Claimed)]
              && Balance(t.ledger, p.holder) == Balance(e.ledger, p.holder) + p.coverage
              && Balance(t.ledger, SELF) == Balance(e.ledger, SELF) - p.coverage
              && t.outflows == e.outflows + [Payout(id, p.holder, p.coverage)]
  {
  }
}
