/** What the DAO records and is configured with: turnouts and the quorum they lead to, the time weight of tokens, and
    what each setter, veto and checkpoint changes. */
module DaoRecords {
  import opened Arithmetic
  import opened Sequences
  import opened Maps
  import opened Ledger
  import opened DaoQuorum
  import opened DaoDelegation
  import opened DaoBank
  import opened DaoState
  import opened DaoTally
  import opened DaoRuns
  import opened DaoEvolution
  import opened DaoOutcomes
  import opened DaoVoting
  import opened DaoLocking

  // ----- Turnout -----

  /** `bps` is the share of the supply that was cast, in basis points rounded down, at most 10000; it is 10000 as well
      where the product with 10000 leaves i128, and 0 without a supply. */
  ghost predicate IsTurnout(bps: int, cast: int, supply: int) {
    if supply <= 0 then bps == 0
    else if cast * 10_000 > I128_MAX || cast >= supply then bps == 10_000
    else 0 <= bps && bps * supply <= cast * 10_000 < (bps + 1) * supply
  }

  lemma TurnoutExactly(cast: int, supply: int)
    requires cast >= 0
    ensures IsTurnout(Turnout(cast, supply), cast, supply)
  {
    if supply > 0 && FitsI128(cast * BPS) {
      var q := TruncDiv(cast * BPS, supply);
      assert q * supply <= cast * BPS < q * supply + supply;
      QuotientAtLeast(cast * BPS, supply, BPS);
      if cast >= supply {
        MulMono(supply, cast, BPS);
      } else {
        MulMono(cast + 1, supply, BPS);
      }
    }
  }

  /** How many turnouts are kept: as many as configured, or five. */
  function WindowSize(s: Dao): nat {
    if s.settings.decay.window == 0 then 5 else s.settings.decay.window
  }

  /** The newest turnout is that of all recorded ballots of the proposal, abstentions included; the older ones move up
      and the oldest beyond the window are gone. */
  ghost predicate TurnoutRecorded(s: Dao, t: Dao, id: nat) {
    var recent, kept := t.history.recentBps, s.history.recentBps;
    && id in s.proposals && recent != []
    && IsTurnout(recent[|recent| - 1], Total(CastOnAll(s.votes, id)), s.proposals[id].totalSupply)
    && |recent| == Min(|kept| + 1, WindowSize(s))
    && recent[..|recent| - 1] == kept[|kept| + 1 - |recent|..]
    && t.history.totalRecorded == Min(s.history.totalRecorded + 1, U64_MAX)
  }

  lemma CastNonNegative(s: Dao, id: nat)
    requires Sound(s) && id in s.proposals
    ensures Ballots(s.proposals[id]) == Total(CastOnAll(s.votes, id)) >= 0
  {
    var p := s.proposals[id];
    BallotsAreCast(s, id);
    TalliesNonNegative(s, id);
    assert TallyOf(p, For) >= 0 && TallyOf(p, Against) >= 0 && TallyOf(p, Abstain) >= 0;
  }

  lemma CountRecords(s: Dao, id: nat)
    requires Sound(s) && id in s.proposals
    ensures TurnoutRecorded(s, Count(s, s.proposals[id]), id)
  {
    var p := s.proposals[id];
    CastNonNegative(s, id);
    TurnoutExactly(Ballots(p), p.totalSupply);
    RecordShifts(s.history, s.settings.decay, Ballots(p), p.totalSupply);
    CountIsRecord(s, p);
  }

  lemma CountIsRecord(s: Dao, p: Proposal)
    ensures Count(s, p).history == Record(s.history, s.settings.decay, Ballots(p), p.totalSupply)
  {
  }

  lemma RecordShifts(h: History, decay: DecayConfig, cast: int, supply: int)
    ensures var t, window := Record(h, decay, cast, supply), if decay.window == 0 then 5 else decay.window;
      var recent, kept := t.recentBps, h.recentBps;
      && |recent| == Min(|kept| + 1, window) && recent[|recent| - 1] == Turnout(cast, supply)
      && recent[..|recent| - 1] == kept[|kept| + 1 - |recent|..]
      && t.totalRecorded == Min(h.totalRecorded + 1, U64_MAX)
  {
  }

  lemma SameHistory(s: Dao, t: Dao, u: Dao, id: nat)
    requires TurnoutRecorded(s, t, id) && u.history == t.history
    ensures TurnoutRecorded(s, u, id)
  {
  }

  lemma SettlingCounts(s: Dao, id: nat, now: nat)
    ensures Finalize(s, id, now).Some? ==>
              id in s.proposals && Finalize(s, id, now).value.history == Count(s, s.proposals[id]).history
    ensures Reclaim(s, id, now).Some? ==>
              id in s.proposals && Reclaim(s, id, now).value.history == Count(s, s.proposals[id]).history
  {
  }

  /** Finalizing and reclaiming both record the turnout of what was cast. */
  lemma SettlingRecordsTurnout(s: Dao, id: nat, now: nat)
    requires Sound(s)
    ensures Finalize(s, id, now).Some? ==> TurnoutRecorded(s, Finalize(s, id, now).value, id)
    ensures Reclaim(s, id, now).Some? ==> TurnoutRecorded(s, Reclaim(s, id, now).value, id)
  {
    SettlingCounts(s, id, now);
    if Finalize(s, id, now).Some? {
      CountRecords(s, id);
      SameHistory(s, Count(s, s.proposals[id]), Finalize(s, id, now).value, id);
    }
    if Reclaim(s, id, now).Some? {
      CountRecords(s, id);
      SameHistory(s, Count(s, s.proposals[id]), Reclaim(s, id, now).value, id);
    }
  }

  // ----- The quorum in force -----

  /** The sum of the turnouts from `i` on. */
  function SumFrom(recent: seq<nat>, i: nat): int
    requires i <= |recent|
    decreases |recent| - i
  {
    if i == |recent| then 0 else recent[i] + SumFrom(recent, i + 1)
  }

  lemma {:induction false} SumFromSplits(recent: seq<nat>, i: nat, n: nat)
    requires i <= n <= |recent|
    ensures SumFrom(recent, i) == SumFrom(recent[..n], i) + SumFrom(recent, n)
    decreases n - i
  {
    if i < n {
      SumFromSplits(recent, i + 1, n);
    }
  }

  lemma {:induction false} SumsAgree(recent: seq<nat>)
    ensures SumOf(recent) == SumFrom(recent, 0)
  {
    if recent != [] {
      var n := |recent| - 1;
      SumsAgree(recent[..n]);
      SumFromSplits(recent, 0, n);
      assert SumFrom(recent, n) == recent[n] + SumFrom(recent, n + 1);
    }
  }

  /** The mean of the kept turnouts, rounded down. */
  ghost predicate IsAverage(recent: seq<nat>, average: int) {
    recent != [] && average * |recent| <= SumFrom(recent, 0) < (average + 1) * |recent|
  }

  lemma AverageExactly(h: History)
    ensures Average(h).None? <==> h.recentBps == []
    ensures h.recentBps != [] ==> IsAverage(h.recentBps, Average(h).value)
  {
    SumsAgree(h.recentBps);
    if h.recentBps != [] {
      var sum, n := SumOf(h.recentBps), |h.recentBps|;
      assert sum / n * n <= sum < sum / n * n + n;
    }
  }

  /** The quorum in force is the configured one unless decay is enabled and the average of the kept turnouts is below
      it. Then whole steps of the shortfall are taken off, down to the floor at most. It is
      reported along with the configured quorum and that average, as decayed exactly when it is lower. */
  lemma QuorumExactly(s: Dao)
    requires Sound(s)
    ensures !s.settings.decay.enabled || s.history.recentBps == [] ==> QuorumNow(s).quorumBps == s.settings.config.quorumBps
    ensures s.settings.decay.enabled && s.history.recentBps != [] ==>
              exists average: nat :: IsAverage(s.history.recentBps, average) &&
                QuorumNow(s).quorumBps ==
                  if average >= s.settings.config.quorumBps then s.settings.config.quorumBps
                  else Max(s.settings.decay.floorBps,
                           average + (s.settings.config.quorumBps - average) % s.settings.decay.stepBps)
    ensures var q, recent := QuorumNow(s), s.history.recentBps;
      && q.baseBps == s.settings.config.quorumBps && (q.decayed <==> q.quorumBps < q.baseBps)
      && if recent == [] then q.averageBps == 0 else IsAverage(recent, q.averageBps)
  {
    AverageExactly(s.history);
    if s.settings.decay.enabled && s.history.recentBps != [] {
      var average := Average(s.history).value;
      assert IsAverage(s.history.recentBps, average);
      if average < s.settings.config.quorumBps {
        DecayedClosedForm(s.settings.config.quorumBps, s.settings.decay, average);
      }
    }
  }

  // ----- Time weight -----

  /** The share, in basis points, at which tokens count that were held for `elapsed` seconds: from the minimum to all
      of them, in proportion to the ramp, rounded down. */
  ghost predicate IsFactor(w: TimeWeight, elapsed: int, factor: int)
    requires w.enabled
  {
    if elapsed >= w.ramp then factor == 10_000
    else
      w.minBps <= factor
      && (factor - w.minBps) * w.ramp <= (10_000 - w.minBps) * elapsed < (factor - w.minBps + 1) * w.ramp
  }

  lemma FullFactor(spread: nat, ramp: nat)
    requires ramp > 0
    ensures spread * ramp / ramp == spread
  {
    MulMono(0, ramp, spread);
    TruncDivHull(spread * ramp, ramp, spread, spread);
  }

  lemma PartFactor(spread: nat, elapsed: nat, ramp: nat, q: int)
    requires ramp > 0 && q == spread * elapsed / ramp
    ensures 0 <= q && q * ramp <= spread * elapsed < (q + 1) * ramp
  {
    MulMono(0, elapsed, spread);
    FloorOf(spread * elapsed, ramp);
  }

  lemma FloorOf(a: nat, b: nat)
    requires b > 0
    ensures 0 <= a / b && a / b * b <= a < (a / b + 1) * b
  {
  }

  lemma FactorExactly(w: TimeWeight, since: nat, now: nat)
    requires w.enabled
    ensures IsFactor(w, if now > since then now - since else 0, Factor(w, since, now))
  {
    var elapsed := if now > since then now - since else 0;
    if elapsed >= w.ramp {
      FullFactor(BPS - w.minBps, w.ramp);
    } else {
      PartFactor(BPS - w.minBps, elapsed, w.ramp, (BPS - w.minBps) * elapsed / w.ramp);
    }
  }

  /** Without time weighting tokens count in full. With it, those the holder's checkpoint covers count at the factor for
      the time since, the others at the minimum share; each part is rounded down. */
  lemma PowerExactly(s: Dao, holder: Address, amount: int, now: nat) returns (factor: int)
    requires CheckpointsSound(s.checkpoints) && amount * 10_000 <= I128_MAX
    ensures !s.settings.timeWeight.enabled || amount <= 0 ==> Power(s, holder, amount, now) == amount
    ensures s.settings.timeWeight.enabled && amount > 0 && holder !in s.checkpoints ==>
              Power(s, holder, amount, now) == amount * s.settings.timeWeight.minBps / 10_000
    ensures s.settings.timeWeight.enabled && amount > 0 && holder in s.checkpoints ==>
              var c := s.checkpoints[holder];
              var aged := if c.amount < amount then c.amount else amount;
              && IsFactor(s.settings.timeWeight, if now > c.since then now - c.since else 0, factor)
              && Power(s, holder, amount, now)
                 == aged * factor / 10_000 + (amount - aged) * s.settings.timeWeight.minBps / 10_000
  {
    factor := 0;
    var w := s.settings.timeWeight;
    if w.enabled && amount > 0 {
      ShareFits(amount, w.minBps);
      if holder in s.checkpoints {
        var c := s.checkpoints[holder];
        var aged := if c.amount < amount then c.amount else amount;
        factor := Factor(w, c.since, now);
        FactorExactly(w, c.since, now);
        FactorBounds(w, c.since, now);
        MulMono(aged, amount, BPS);
        ShareFits(aged, factor);
        ShareFits(amount - aged, w.minBps);
      }
    }
  }

  /** A checkpoint records the balance as it is; the time stays as long as the balance did not grow beyond the one
      recorded before, and starts over otherwise. Nothing else changes. */
  lemma CheckpointExact(s: Dao, holder: Address, now: nat)
    ensures var t := MakeCheckpoint(s, holder, now);
      && t == s.(checkpoints := s.checkpoints[holder := t.checkpoints[holder]])
      && t.checkpoints[holder].amount == Balance(s.bank.ledger, holder)
      && t.checkpoints[holder].since ==
         if holder in s.checkpoints && Balance(s.bank.ledger, holder) <= s.checkpoints[holder].amount
         then s.checkpoints[holder].since else now
  {
  }

  // ----- Other records -----

  /** Discussion ends exactly for a proposal under discussion once the configured period since its creation is over;
      nothing but its status changes. */
  lemma StartVotingExact(s: Dao, id: nat, now: nat)
    ensures StartVoting(s, id, now).Some? <==>
            && id in s.proposals && s.proposals[id].status == Discussion && s.settings.config.discussion > 0
            && now >= Min(s.proposals[id].createdAt + s.settings.config.discussion, U64_MAX)
    ensures StartVoting(s, id, now).Some? ==>
              StartVoting(s, id, now).value == s.(proposals := s.proposals[id := s.proposals[id].(status := Active)])
  {
  }

  /** A guardian vetoes any proposal not yet executed, once; only the mark changes. */
  lemma VetoExact(s: Dao, guardian: Address, id: nat)
    ensures Veto(s, guardian, id).Some? <==>
            guardian in s.settings.guardians && id in s.proposals && s.proposals[id].status != Executed && !s.proposals[id].vetoed
    ensures Veto(s, guardian, id).Some? ==>
              Veto(s, guardian, id).value == s.(proposals := s.proposals[id := s.proposals[id].(vetoed := true)])
  {
  }

  /** Pruning keeps the newest turnouts, at most as many as asked for and at most twenty. */
  lemma PruneExact(s: Dao, maxEntries: nat)
    ensures var t, n := PruneHistory(s, maxEntries), |s.history.recentBps|;
      && |t.history.recentBps| == Min(n, Min(maxEntries, 20))
      && t.history.recentBps == s.history.recentBps[n - |t.history.recentBps|..]
      && t == s.(history := s.history.(recentBps := t.history.recentBps))
  {
  }

  // ----- Settings -----

  /** What the setters accept. */
  predicate ConfigAccepted(c: Config) {
    3_600 <= c.votingPeriod <= 2_592_000 && 1_000 <= c.quorumBps <= 10_000
  }

  predicate DecayAccepted(t: Settings, d: DecayConfig) {
    d.enabled ==> && 1_000 <= d.floorBps <= 10_000 && d.floorBps < t.config.quorumBps && 1 <= d.window <= 20 && d.stepBps > 0
  }

  predicate MultipliersAccepted(m: Multipliers) {
    && 10_000 <= m.standardBps <= 100_000 && 10_000 <= m.upgradeBps <= 100_000
    && 10_000 <= m.selfTargetBps <= 100_000
  }

  /** Every setter accepts exactly these, replaces that one setting and keeps the others; a decay floor below 10% is
      raised to it. */
  lemma SettersExact(t: Settings, config: Config, threshold: int, d: DecayConfig, w: TimeWeightRaw, m: Multipliers)
    ensures SetConfig(t, config) == if ConfigAccepted(config) then Some(t.(config := config)) else None
    ensures SetThreshold(t, threshold) == if threshold > 0 then Some(t.(config := t.config.(threshold := threshold))) else None
    ensures SetDecay(t, d) == if DecayAccepted(t, d) then Some(t.(decay := d.(floorBps := Max(d.floorBps, 1_000)))) else None
    ensures SetTimeWeight(t, w).Some? <==> (w.enabled ==> w.ramp > 0 && w.minBps <= 10_000)
    ensures SetTimeWeight(t, w).Some? ==> SetTimeWeight(t, w).value == t.(timeWeight := w)
    ensures SetMultipliers(t, m) == if MultipliersAccepted(m) then Some(t.(multipliers := m)) else None
  {
  }
}
