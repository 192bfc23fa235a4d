/** Exactly when a policy is sold, handed on or expired, in terms of what is stored and called with, and all that the
    call changes. */
module PolicyOutcomes {
  import opened Arithmetic
  import opened Sequences
  import opened Ledger
  import opened Policies

  // ----- Buying -----

  /** No backdated start, no purchase by the admin, a day between purchases of one buyer on one oracle key, an active
      product whose coverage range, length and rate limits the order meets, and an end within u64. */
  ghost predicate OrderAdmitted(e: Engine, o: Order, now: nat) {
    && now <= o.start
    && o.buyer != e.admin
    && ((o.buyer, o.key) in e.lastPurchase ==>
          now >= (if e.lastPurchase[(o.buyer, o.key)] + 86_400 > U64_MAX then U64_MAX else e.lastPurchase[(o.buyer, o.key)] + 86_400))
    && o.product in e.products && e.products[o.product].active
    && o.coverage >= 1 && o.coverage >= e.products[o.product].coverageMin && o.coverage <= e.products[o.product].coverageMax
    && o.coverage <= 1_000_000_000_000
    && 1 <= o.days <= e.products[o.product].maxDays
    && 1 <= e.products[o.product].rateBps <= 5_000
    && o.start + o.days * 86_400 <= U64_MAX
  }

  /** A purchase goes through exactly when the order is admitted and the buyer covers a positive premium: coverage x
      rate x days over a year of full rates, rounded down. The premium moves to the pool, the buyer's list grows by the
      new active policy, and nothing else changes but the time of the purchase. */
  lemma BuyExact(e: Engine, o: Order, now: nat)
    requires EngineSound(e) && o.buyer != SELF && o.days <= U32_MAX
    ensures Buy(e, o, now).Some? <==>
            && OrderAdmitted(e, o, now)
            && 0 < o.coverage * e.products[o.product].rateBps * o.days / 3_650_000 <= Balance(e.ledger, o.buyer)
    ensures Buy(e, o, now).Some? ==>
              BoughtWith(e, Buy(e, o, now).value, o, now, o.coverage * e.products[o.product].rateBps * o.days / 3_650_000)
  {
    if OrderAdmitted(e, o, now) {
      PremiumIsProRata(o.coverage, e.products[o.product].rateBps, o.days);
    }
    assert MayBuy(e, o, now) <==> OrderAdmitted(e, o, now);
  }

  ghost predicate BoughtWith(e: Engine, t: Engine, o: Order, now: nat, premium: int) {
    && e.nextId !in e.policies && t.nextId == e.nextId + 1
    && t.policies == e.policies[e.nextId := Policy(o.buyer, o.coverage, premium, o.start, o.start + o.days * 86_400, Active)]
    && ListOf(t, o.buyer) == ListOf(e, o.buyer) + [e.nextId]
    && (forall user :: user != o.buyer ==> ListOf(t, user) == ListOf(e, user))
    && t.lastPurchase == e.lastPurchase[(o.buyer, o.key) := now]
    && Balance(t.ledger, SELF) == Balance(e.ledger, SELF) + premium
    && Balance(t.ledger, o.buyer) == Balance(e.ledger, o.buyer) - premium
    && (forall a :: a != SELF && a != o.buyer ==> Balance(t.ledger, a) == Balance(e.ledger, a))
    && t.inflow == e.inflow + premium && t.outflows == e.outflows && t.products == e.products
  }

  // ----- Handing on -----

  /** A policy is handed on exactly by its holder while it is active; it moves from one list to the end of the other,
      keeps its terms, and no token moves. Handing it on to oneself changes nothing. */
  lemma TransferExact(e: Engine, from: Address, to: Address, id: nat)
    requires EngineSound(e)
    ensures TransferPolicy(e, from, to, id).Some? <==>
            id in e.policies && e.policies[id].status == Active && e.policies[id].holder == from
    ensures TransferPolicy(e, from, to, id).Some? && from == to ==> TransferPolicy(e, from, to, id).value == e
    ensures TransferPolicy(e, from, to, id).Some? && from != to ==>
              var t := TransferPolicy(e, from, to, id).value;
              && t == e.(policies := e.policies[id := e.policies[id].(holder := to)], lists := t.lists)
              && ListOf(t, to) == ListOf(e, to) + [id]
              && (forall j :: j in ListOf(t, from) <==> j in ListOf(e, from) && j != id)
              && (forall user :: user != from && user != to ==> ListOf(t, user) == ListOf(e, user))
  {
    if TransferPolicy(e, from, to, id).Some? && from != to {
      assert ListExact(e, from);
      RemoveFirstDistinct(ListOf(e, from), id);
    }
  }

  // ----- Expiring -----

  /** The engine expires any active policy when asked: whether its time is over is for the claims processor to check.
      It leaves its holder's list and keeps its premium in the pool. */
  lemma ExpireExact(e: Engine, id: nat)
    requires EngineSound(e)
    ensures Expire(e, id).Some? <==> id in e.policies && e.policies[id].status == Active
    ensures Expire(e, id).Some? ==>
              var t, holder := Expire(e, id).value, e.policies[id].holder;
              && t == e.(policies := e.policies[id := e.policies[id].(status := Expired)], lists := t.lists)
              && (forall j :: j in ListOf(t, holder) <==> j in ListOf(e, holder) && j != id)
              && (forall user :: user != holder ==> ListOf(t, user) == ListOf(e, user))
  {
    if Expire(e, id).Some? {
      assert ListExact(e, e.policies[id].holder);
      RemoveFirstDistinct(ListOf(e, e.policies[id].holder), id);
    }
  }
}
