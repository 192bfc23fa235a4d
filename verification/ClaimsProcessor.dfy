/** The claims processor contract, calling the policy engine and the risk pool: its storage as fields, its entry
    points as methods, each proved to do what Settlement says to all three contracts. A method that returns
    false aborted and left their storage as it was. */
module ClaimsProcessor {
  import opened Arithmetic
  import opened Sequences
  import opened Ledger
  import opened QueueSort
  import opened Installments
  import opened Policies
  import opened CapitalLocks
  import opened Settlement
  import opened PolicyEngine

  class Processor {
    const engine: Pool
    const pool: RiskPool
    var rules: Rules
    var claims: map<nat, Claim>
    var nextId: nat
    var policyClaim: map<nat, nat>
    var pending: seq<nat>
    var lastClaim: map<Address, nat>
    var lastAuto: map<nat, nat>
    var deadlines: map<nat, nat>
    var schedules: map<nat, Schedule>
    ghost var confirmed: set<nat>

    ghost function DeskNow(): Desk
      reads this
    {
      Desk(rules, claims, nextId, policyClaim, pending, lastClaim, lastAuto, deadlines, schedules, confirmed)
    }

    ghost function Snapshot(): System
      reads this, engine, pool
    {
      System(engine.Snapshot(), DeskNow(), pool.locks)
    }

    /** The call did what the specification says: `after` when it succeeded, nothing when it aborted. */
    ghost predicate Did(before: System, after: Option<System>, ok: bool)
      reads this, engine, pool
    {
      (ok <==> after.Some?) && Snapshot() == if ok then after.value else before
    }

    constructor (engine: Pool, pool: RiskPool, rules: Rules)
      ensures this.engine == engine && this.pool == pool
      ensures DeskNow() == Desk(rules, map[], 1, map[], [], map[], map[], map[], map[], {})
    {
      this.engine, this.pool, this.rules := engine, pool, rules;
      claims, nextId, policyClaim, pending := map[], 1, map[], [];
      lastClaim, lastAuto, deadlines, schedules, confirmed := map[], map[], map[], map[], {};
    }

    // ----- Filing -----

    /** Writes a new pending claim and queues it. */
    method NewClaim(policy: nat, claimant: Address, coverage: int, now: nat) returns (cid: nat)
      modifies `claims, `nextId, `policyClaim, `pending
      ensures cid == old(nextId) && DeskNow() == OpenClaim(old(DeskNow()), policy, claimant, coverage, now)
    {
      cid := nextId;
      nextId := cid + 1;
      claims := claims[cid := Claim(policy, claimant, coverage, false, Pending, now, None, None, None, None)];
      policyClaim := policyClaim[policy := cid];
      pending := pending + [cid];
    }

    method FileClaim(claimant: Address, policy: nat, now: nat, admitted: bool) returns (ok: bool)
      modifies `claims, `nextId, `policyClaim, `pending, `lastClaim
      ensures Did(old(Snapshot()), Settlement.FileClaim(old(Snapshot()), claimant, policy, now, admitted), ok)
    {
      if policy in policyClaim || policy !in engine.policies || !admitted { return false; }
      var p := engine.policies[policy];
      if p.coverage <= 0 || p.holder != claimant || p.status != Active || !InTime(p, rules, now) { return false; }
      if claimant in lastClaim && now < SatAddU64(lastClaim[claimant], USER_COOLDOWN) { return false; }
      lastClaim := lastClaim[claimant := now];
      var cid := NewClaim(policy, claimant, p.coverage, now);
      return true;
    }

    // ----- Settling -----

    method RemoveFromPending(cid: nat)
      modifies `pending
      ensures pending == RemoveFirst(old(pending), cid)
    {
      var pos := |pending|;
      for i := 0 to |pending|
        modifies {}
        invariant pos == |pending| && cid !in pending[..i]
      {
        if pending[i] == cid {
          pos := i;
          break;
        }
      }
      if pos < |pending| {
        RemoveFirstAt(pending, pos);
        pending := pending[..pos] + pending[pos + 1..];
      } else {
        RemoveFirstAbsent(pending, cid);
      }
    }

    method WriteResolved(cid: nat, c: Claim)
      modifies `claims, `pending
      ensures DeskNow() == Resolved(old(DeskNow()), cid, c)
    {
      claims := claims[cid := c];
      RemoveFromPending(cid);
    }

    /** The two calls of a payout: the engine pays the holder, the pool releases the lock. */
    method PayAndRelease(policy: nat) returns (ok: bool)
      modifies engine, pool
      ensures ok <==> PayClaim(old(engine.Snapshot()), policy).Some? && Release(old(pool.locks), policy).Some?
      ensures engine.Snapshot() == if ok then PayClaim(old(engine.Snapshot()), policy).value else old(engine.Snapshot())
      ensures pool.locks == if ok then Release(old(pool.locks), policy).value else old(pool.locks)
    {
      if policy !in pool.locks || pool.locks[policy] == Released { return false; }
      ok := engine.PayClaim(policy);
      if ok {
        ok := pool.ReleaseLock(policy);
      }
    }

    /** Marks a claim approved and pays it, unless a payout delay is configured. The calls into the engine and
        the pool come first, so that an abort leaves nothing behind. */
    method Approve(cid: nat, bps: nat, now: nat) returns (ok: bool)
      requires cid in claims && claims[cid].policy in engine.policies
      requires bps <= BPS && (bps < BPS ==> FitsI128(claims[cid].coverage * bps))
      requires claims[cid].status == Pending && claims[cid].claimant == engine.policies[claims[cid].policy].holder
      modifies `claims, `pending, `confirmed, engine, pool
      ensures Did(old(Snapshot()), Settle(old(Snapshot()), cid, true, Some(bps), now), ok)
    {
      var c := claims[cid];
      c := c.(triggerMet := true, processedAt := Some(now), payoutBps := Some(bps));
      if bps >= BPS {
        c := c.(status := Paid, paidAmount := Some(c.coverage));
      } else {
        c := c.(status := PartiallyPaid, paidAmount := Some(TruncDiv(c.coverage * bps, BPS)));
      }
      if rules.payoutDelay > 0 {
        c := c.(readyAt := Some(SatAddU64(now, rules.payoutDelay)));
      } else {
        ok := PayAndRelease(c.policy);
        if !ok { return; }
      }
      confirmed := confirmed + {c.policy};
      WriteResolved(cid, c);
      return true;
    }

    method SettleClaim(cid: nat, verdict: bool, bps: Option<nat>, now: nat) returns (ok: bool)
      requires cid in claims && claims[cid].policy in engine.policies
      modifies `claims, `pending, `confirmed, engine, pool
      ensures Did(old(Snapshot()), Settle(old(Snapshot()), cid, verdict, bps, now), ok)
    {
      var c := claims[cid];
      if c.status != Pending || c.claimant != engine.policies[c.policy].holder { return false; }
      if !verdict {
        WriteResolved(cid, c.(triggerMet := false, processedAt := Some(now), status := Rejected));
        return true;
      }
      var effective := if bps.Some? && bps.value < BPS then bps.value else BPS;
      if effective < BPS && !FitsI128(c.coverage * effective) { return false; }
      ok := Approve(cid, effective, now);
    }

    method ProcessClaim(cid: nat, verdict: bool, bps: Option<nat>, now: nat) returns (ok: bool)
      modifies `claims, `pending, `confirmed, engine, pool
      ensures Did(old(Snapshot()), Process(old(Snapshot()), cid, verdict, bps, now), ok)
    {
      if cid !in claims { return false; }
      var c := claims[cid];
      if c.status != Pending { return true; }
      if c.policy !in engine.policies || c.coverage != engine.policies[c.policy].coverage { return false; }
      ok := SettleClaim(cid, verdict, bps, now);
    }

    /** Several readings at once: all of them must hold, or at least one. */
    static method Combine(readings: seq<bool>, requireAll: bool) returns (met: bool)
      ensures met == Combined(readings, requireAll)
    {
      met := requireAll;
      for i := 0 to |readings|
        invariant met == requireAll && (!requireAll) !in readings[..i]
      {
        if readings[i] != requireAll {
          met := !requireAll;
          break;
        }
      }
      assert readings[..|readings|] == readings;
    }

    method ProcessMultiReadingClaim(cid: nat, readings: seq<bool>, requireAll: bool, bps: Option<nat>, now: nat)
      returns (ok: bool)
      modifies `claims, `pending, `confirmed, engine, pool
      ensures Did(old(Snapshot()), ProcessMulti(old(Snapshot()), cid, readings, requireAll, bps, now), ok)
    {
      if readings == [] { return false; }
      var met := Combine(readings, requireAll);
      ok := ProcessClaim(cid, met, bps, now);
    }

    /** Opens a claim if the policy has none, then settles it; an abort takes the new claim back. */
    method OpenThenSettle(policy: nat, verdict: bool, bps: Option<nat>, now: nat) returns (ok: bool)
      requires policy in engine.policies
      modifies `claims, `nextId, `policyClaim, `pending, `confirmed, engine, pool
      ensures Did(old(Snapshot()), OpenAndSettle(old(Snapshot()), policy, verdict, bps, now), ok)
    {
      var claims0, nextId0, policyClaim0, pending0 := claims, nextId, policyClaim, pending;
      var cid: nat;
      if policy in policyClaim {
        cid := policyClaim[policy];
      } else {
        var p := engine.policies[policy];
        cid := NewClaim(policy, p.holder, p.coverage, now);
      }
      ok := cid in claims && claims[cid].policy in engine.policies;
      if ok {
        ok := SettleClaim(cid, verdict, bps, now);
      }
      if !ok {
        claims, nextId, policyClaim, pending := claims0, nextId0, policyClaim0, pending0;
      }
    }

    /** Expires an ended policy or settles its claim; a policy already decided is reported back unchanged. */
    method AttendTo(policy: nat, verdict: bool, bps: Option<nat>, now: nat) returns (ok: bool)
      modifies `claims, `nextId, `policyClaim, `pending, `confirmed, engine, pool
      ensures Did(old(Snapshot()), Attend(old(Snapshot()), policy, verdict, bps, now), ok)
    {
      if policy in policyClaim && policyClaim[policy] in claims && claims[policyClaim[policy]].status != Pending { return true; }
      if policy !in engine.policies || engine.policies[policy].coverage <= 0 { return false; }
      if engine.policies[policy].status != Active { return true; }
      if now <= engine.policies[policy].end {
        ok := OpenThenSettle(policy, verdict, bps, now);
        return;
      }
      ok := pool.ReleaseLock(policy);
      if ok {
        ok := engine.ExpirePolicy(policy);
      }
    }

    method AutoProcess(policy: nat, verdict: bool, bps: Option<nat>, now: nat) returns (ok: bool)
      modifies `claims, `nextId, `policyClaim, `pending, `confirmed, `lastAuto, engine, pool
      ensures Did(old(Snapshot()), Settlement.AutoProcess(old(Snapshot()), policy, verdict, bps, now), ok)
    {
      if policy in lastAuto && now < SatAddU64(lastAuto[policy], rules.autoCooldown) { return false; }
      var before := lastAuto;
      lastAuto := lastAuto[policy := now];
      ok := AttendTo(policy, verdict, bps, now);
      if !ok {
        lastAuto := before;
      }
    }

    // ----- Disputes and review -----

    method DisputeClaim(caller: Address, cid: nat, reasonOk: bool, now: nat) returns (ok: bool)
      modifies `claims, `pending
      ensures Did(old(Snapshot()), Dispute(old(Snapshot()), caller, cid, reasonOk, now), ok)
    {
      if cid !in claims || claims[cid].policy !in engine.policies { return false; }
      var c := claims[cid];
      if caller != c.claimant && caller != engine.policies[c.policy].holder { return false; }
      if c.status != Pending && c.status != Rejected && c.status != PartiallyPaid { return false; }
      if cid in deadlines && now > deadlines[cid] { return false; }
      if c.status != Pending && c.processedAt.Some? && now > SatAddU64(c.processedAt.value, rules.disputeWindow) { return false; }
      if !reasonOk { return false; }
      WriteResolved(cid, c.(status := Disputed));
      return true;
    }

    method ResolveDispute(cid: nat) returns (ok: bool)
      modifies `claims, `pending
      ensures Did(old(Snapshot()), Resolve(old(Snapshot()), cid), ok)
    {
      if cid !in claims || claims[cid].status != Disputed { return false; }
      claims := claims[cid := claims[cid].(status := Pending)];
      pending := pending + [cid];
      return true;
    }

    method RejectClaim(cid: nat) returns (ok: bool)
      modifies `claims, `pending
      ensures Did(old(Snapshot()), Reject(old(Snapshot()), cid), ok)
    {
      if cid !in claims { return false; }
      WriteResolved(cid, claims[cid].(status := Rejected));
      return true;
    }

    method EscalateClaim(cid: nat, threshold: nat, now: nat) returns (ok: bool)
      modifies `claims, `pending
      ensures Did(old(Snapshot()), Escalate(old(Snapshot()), cid, threshold, now), ok)
    {
      if cid !in claims || claims[cid].status != Pending { return false; }
      var c := claims[cid];
      if SatSubU64(now, c.submittedAt) < threshold || c.policy !in engine.policies { return false; }
      if now > SatAddU64(engine.policies[c.policy].end, rules.claimDeadline) { return false; }
      WriteResolved(cid, c.(status := Escalated));
      return true;
    }

    // ----- Delayed payouts -----

    method ClaimPayout(cid: nat, now: nat) returns (ok: bool)
      modifies `claims, engine, pool
      ensures Did(old(Snapshot()), Settlement.ClaimPayout(old(Snapshot()), cid, now), ok)
    {
      if cid !in claims || claims[cid].readyAt.None? || now < claims[cid].readyAt.value { return false; }
      var c := claims[cid];
      if c.paidAmount.None? || c.paidAmount.value > c.coverage { return false; }
      ok := PayAndRelease(c.policy);
      if !ok { return; }
      claims := claims[cid := c.(readyAt := None)];
    }

    // ----- The queue -----

    /** Pairs each queued claim with its submission time. */
    method StampQueue() returns (entries: seq<Entry>)
      ensures entries == Stamp(DeskNow(), pending)
    {
      entries := [];
      for i := 0 to |pending|
        invariant entries == Stamp(DeskNow(), pending[..i])
      {
        assert pending[..i + 1][..i] == pending[..i];
        if pending[i] in claims {
          entries := entries + [(pending[i], claims[pending[i]].submittedAt)];
        }
      }
      assert pending[..|pending|] == pending;
    }

    /** Sorts the queue by submission time and writes it back. */
    method SortPending()
      modifies `pending
      ensures Snapshot() == SortQueue(old(Snapshot()))
    {
      var entries := StampQueue();
      var a := new Entry[|entries|](i requires 0 <= i < |entries| => entries[i]);
      assert a[..] == entries;
      BubbleSort(a);
      var sorted := [];
      for i := 0 to a.Length
        modifies {}
        invariant sorted == Map(a[..i], IdFn())
      {
        assert a[..i + 1] == a[..i] + [a[i]];
        MapSnoc(a[..i], a[i], IdFn());
        sorted := sorted + [a[i].0];
      }
      assert a[..a.Length] == a[..];
      pending := sorted;
    }

    // ----- Installments -----

    method ScheduleInstallments(cid: nat, amount: int, count: nat, interval: nat, now: nat) returns (ok: bool)
      modifies `schedules
      ensures Did(old(Snapshot()), Settlement.ScheduleInstallments(old(Snapshot()), cid, amount, count, interval, now), ok)
    {
      if amount <= 0 || count == 0 || count > MAX_INSTALLMENTS || cid !in claims { return false; }
      var c := claims[cid];
      if (c.status != Paid && c.status != PartiallyPaid) || SatMul(amount, count) > c.coverage { return false; }
      schedules := schedules[cid := Schedule(amount, count, interval, SatAddU64(now, interval), 0)];
      return true;
    }

    method ClaimInstallment(claimant: Address, cid: nat, now: nat) returns (ok: bool, amount: int)
      modifies `schedules, pool
      ensures var collected := Settlement.ClaimInstallment(old(Snapshot()), claimant, cid, now);
        && (ok <==> collected.Some?)
        && (ok ==> Snapshot() == collected.value.0 && amount == collected.value.1)
        && (!ok ==> Snapshot() == old(Snapshot()))
    {
      if cid !in claims || claims[cid].claimant != claimant || cid !in schedules { return false, 0; }
      var s := schedules[cid];
      if s.paid >= s.count || now < s.firstAt || s.interval == 0 { return false, 0; }
      var available := Min(SatAddU64((now - s.firstAt) / s.interval, 1), s.count);
      if available <= s.paid { return false, 0; }
      amount := SatMul(s.amount, available - s.paid);
      ok := pool.ReleaseLock(claims[cid].policy);
      if ok {
        schedules := schedules[cid := s.(paid := available)];
      }
    }
  }
}
