/** The policy engine contract: its storage as fields, its entry points as methods, each proved to do what
    Policies says. A method that returns false aborted and left the storage as it was. */
module PolicyEngine {
  import opened Arithmetic
  import opened Sequences
  import opened Ledger
  import opened Policies

  class Pool {
    var admin: Address
    var products: map<nat, Product>
    var policies: map<nat, Policy>
    var nextId: nat
    var lists: map<Address, seq<nat>>
    var lastPurchase: map<(Address, Symbol), nat>
    var ledger: map<Address, int>
    ghost var inflow: int
    ghost var outflows: seq<Outflow>

    ghost function Snapshot(): Engine
      reads this
    {
      Engine(admin, products, policies, nextId, lists, lastPurchase, ledger, inflow, outflows)
    }

    /** The call did what the specification says: `after` when it succeeded, nothing when it aborted. */
    ghost predicate Did(before: Engine, after: Option<Engine>, ok: bool)
      reads this
    {
      (ok <==> after.Some?) && Snapshot() == if ok then after.value else before
    }

    constructor (admin: Address, ledger: map<Address, int>)
      ensures Snapshot() == Engine(admin, map[], map[], 1, map[], map[], ledger, Balance(ledger, SELF), [])
    {
      this.admin, products, policies, nextId := admin, map[], map[], 1;
      lists, lastPurchase := map[], map[];
      this.ledger, inflow, outflows := ledger, Balance(ledger, SELF), [];
    }

    method PremiumFor(coverage: int, rateBps: nat, days: nat) returns (premium: Option<int>)
      ensures premium == PremiumOf(coverage, rateBps, days)
    {
      var yearly := coverage * rateBps;
      if !FitsI128(yearly) || !FitsI128(yearly * days) { return None; }
      return Some(TruncDiv(TruncDiv(yearly * days, 365), BPS));
    }

    /** The guards of a purchase. */
    method AcceptsOrder(o: Order, now: nat) returns (accepts: bool)
      ensures accepts == MayBuy(Snapshot(), o, now)
    {
      if o.start < now || o.buyer == admin { return false; }
      if (o.buyer, o.key) in lastPurchase && now < SatAddU64(lastPurchase[(o.buyer, o.key)], COOLING_OFF) { return false; }
      if o.product !in products { return false; }
      var product := products[o.product];
      if !product.active || o.coverage <= 0 { return false; }
      if o.coverage < product.coverageMin || o.coverage > product.coverageMax { return false; }
      if o.days == 0 || o.days > product.maxDays || o.coverage > MAX_COVERAGE { return false; }
      if product.rateBps == 0 || product.rateBps > MAX_RATE_BPS { return false; }
      return FitsU64(o.start + o.days * DAY);
    }

    method BuyPolicy(o: Order, now: nat) returns (ok: bool)
      modifies `policies, `nextId, `lists, `lastPurchase, `ledger, `inflow
      ensures Did(old(Snapshot()), Buy(old(Snapshot()), o, now), ok)
    {
      var accepts := AcceptsOrder(o, now);
      if !accepts { return false; }
      var premium := PremiumFor(o.coverage, products[o.product].rateBps, o.days);
      if premium.None? || premium.value <= 0 { return false; }
      var moved := Transfer(ledger, o.buyer, SELF, premium.value);
      if moved.None? { return false; }
      ledger := moved.value;
      inflow := inflow + premium.value;
      var id := nextId;
      nextId := id + 1;
      lastPurchase := lastPurchase[(o.buyer, o.key) := now];
      policies := policies[id := Policy(o.buyer, o.coverage, premium.value, o.start, o.start + o.days * DAY, Active)];
      lists := lists[o.buyer := Get(lists, o.buyer, []) + [id]];
      return true;
    }

    /** Takes the first occurrence of a policy out of a user's list. */
    method RemovePolicyFromUser(user: Address, id: nat)
      modifies `lists
      ensures Snapshot() == Unlist(old(Snapshot()), user, id)
    {
      var list := Get(lists, user, []);
      var pos := |list|;
      for i := 0 to |list|
        modifies {}
        invariant pos == |list| && id !in list[..i]
      {
        if list[i] == id {
          pos := i;
          break;
        }
      }
      if pos < |list| {
        RemoveFirstAt(list, pos);
        lists := lists[user := list[..pos] + list[pos + 1..]];
      }
    }

    method PayOut(to: Address, flow: Outflow) returns (ok: bool)
      requires to == flow.to
      modifies `ledger, `outflows
      ensures Did(old(Snapshot()), Send(old(Snapshot()), flow), ok)
    {
      var moved := Transfer(ledger, SELF, to, flow.amount);
      if moved.None? { return false; }
      ledger := moved.value;
      outflows := outflows + [flow];
      return true;
    }

    method RefundFor(p: Policy, now: nat) returns (refund: Option<int>)
      ensures refund == RefundOf(p, now)
    {
      var total := SatSubU64(p.end, p.start);
      if total == 0 { return Some(p.premium); }
      var elapsed := Min(SatSubU64(now, p.start), total);
      if !FitsI128(p.premium * elapsed) { return None; }
      return Some(p.premium - TruncDiv(p.premium * elapsed, total));
    }

    /** Gives a policy its final status and takes it off its holder's list. */
    method Conclude(id: nat, status: PolicyStatus)
      requires id in policies
      modifies `policies, `lists
      ensures Snapshot() == Finish(old(Snapshot()), id, status)
    {
      var policy := policies[id];
      policies := policies[id := policy.(status := status)];
      RemovePolicyFromUser(policy.holder, id);
    }

    method CancelPolicy(holder: Address, id: nat, reasonLen: nat, now: nat) returns (ok: bool)
      modifies `policies, `lists, `ledger, `outflows
      ensures Did(old(Snapshot()), Cancel(old(Snapshot()), holder, id, reasonLen, now), ok)
    {
      if reasonLen == 0 || reasonLen > MAX_REASON_LEN { return false; }
      if id !in policies || policies[id].holder != holder || policies[id].status != Active { return false; }
      var refund := RefundFor(policies[id], now);
      if refund.None? { return false; }
      if refund.value > 0 {
        ok := PayOut(holder, Refund(id, holder, refund.value));
        if !ok { return; }
      }
      Conclude(id, Cancelled);
      return true;
    }

    method TransferPolicy(from: Address, to: Address, id: nat) returns (ok: bool)
      modifies `policies, `lists
      ensures Did(old(Snapshot()), Policies.TransferPolicy(old(Snapshot()), from, to, id), ok)
    {
      if id !in policies || policies[id].holder != from || policies[id].status != Active { return false; }
      if from == to { return true; }
      policies := policies[id := policies[id].(holder := to)];
      RemovePolicyFromUser(from, id);
      lists := lists[to := Get(lists, to, []) + [id]];
      return true;
    }

    method PayClaim(id: nat) returns (ok: bool)
      modifies `policies, `lists, `ledger, `outflows
      ensures Did(old(Snapshot()), Policies.PayClaim(old(Snapshot()), id), ok)
    {
      if id !in policies || policies[id].status != Active { return false; }
      var policy := policies[id];
      ok := PayOut(policy.holder, Payout(id, policy.holder, policy.coverage));
      if !ok { return; }
      Conclude(id, Claimed);
    }

    method ExpirePolicy(id: nat) returns (ok: bool)
      modifies `policies, `lists
      ensures Did(old(Snapshot()), Expire(old(Snapshot()), id), ok)
    {
      if id !in policies || policies[id].status != Active { return false; }
      Conclude(id, Expired);
      return true;
    }
  }
}
