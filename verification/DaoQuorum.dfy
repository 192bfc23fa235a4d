/** How governance counts: adaptive quorum, the pass decision, and time-weighted voting power. */
module DaoQuorum {
  import opened Arithmetic

  const MIN_QUORUM_BPS: nat := 1_000
  const MAX_QUORUM_BPS: nat := 10_000
  const DEFAULT_WINDOW: nat := 5
  const MAX_WINDOW: nat := 20
  const MAX_TURNOUT: nat := 10_000

  datatype DecayConfig = DecayConfig(enabled: bool, floorBps: nat, stepBps: nat, window: nat)

  datatype History = History(recentBps: seq<nat>, totalRecorded: nat)

  datatype Quorum = Quorum(quorumBps: nat, baseBps: nat, averageBps: nat, decayed: bool)

  // ----- Participation -----

  function SumOf(s: seq<nat>): nat {
    if s == [] then 0 else SumOf(s[..|s| - 1]) + s[|s| - 1]
  }

  function Average(h: History): Option<nat> {
    if h.recentBps == [] then None else Some(SumOf(h.recentBps) / |h.recentBps|)
  }

  method ComputeAverage(h: History) returns (average: Option<nat>)
    ensures average == Average(h)
  {
    var len := |h.recentBps|;
    if len == 0 { return None; }
    var sum := 0;
    for i := 0 to len
      invariant sum == SumOf(h.recentBps[..i])
    {
      assert h.recentBps[..i + 1][..i] == h.recentBps[..i];
      sum := sum + h.recentBps[i];
    }
    assert h.recentBps[..len] == h.recentBps;
    return Some(sum / len);
  }

  /** Turnout in basis points of the supply, clamped to [0, 10000]; an overflowing product counts as full. */
  function Turnout(totalVotes: int, totalSupply: int): nat {
    if totalSupply <= 0 then 0
    else if !FitsI128(totalVotes * BPS) then MAX_TURNOUT
    else Max(0, Min(TruncDiv(totalVotes * BPS, totalSupply), MAX_TURNOUT))
  }

  /** The newest `window` entries. */
  function Last(s: seq<nat>, window: nat): seq<nat> {
    if |s| > window then s[|s| - window..] else s
  }

  function WindowOf(decay: DecayConfig): nat {
    if decay.window == 0 then DEFAULT_WINDOW else decay.window
  }

  function Record(h: History, decay: DecayConfig, totalVotes: int, totalSupply: int): History {
    History(Last(h.recentBps + [Turnout(totalVotes, totalSupply)], WindowOf(decay)),
            SatAddU64(h.totalRecorded, 1))
  }

  method DropOldest(recent: seq<nat>, window: nat) returns (kept: seq<nat>)
    ensures kept == Last(recent, window)
  {
    kept := recent;
    ghost var dropped := 0;
    while |kept| > window
      invariant 0 <= dropped <= |recent| && kept == recent[dropped..]
      invariant dropped > 0 ==> |kept| >= window
      decreases |kept|
    {
      kept := kept[1..];
      dropped := dropped + 1;
    }
  }

  ghost predicate HistorySound(h: History) {
    forall i :: 0 <= i < |h.recentBps| ==> h.recentBps[i] <= MAX_TURNOUT
  }

  lemma {:induction false} SumBounded(s: seq<nat>, bound: nat)
    requires forall i :: 0 <= i < |s| ==> s[i] <= bound
    ensures SumOf(s) <= |s| * bound
  {
    if s != [] {
      SumBounded(s[..|s| - 1], bound);
      assert |s| * bound == (|s| - 1) * bound + bound;
    }
  }

  lemma AverageBounded(h: History)
    requires HistorySound(h) && h.recentBps != []
    ensures Average(h).value <= MAX_TURNOUT
  {
    SumBounded(h.recentBps, MAX_TURNOUT);
    DivMono(SumOf(h.recentBps), |h.recentBps| * MAX_TURNOUT, |h.recentBps|);
    assert |h.recentBps| * MAX_TURNOUT / |h.recentBps| == MAX_TURNOUT;
  }

  // ----- Adaptive quorum -----

  /** The requirement in force: relaxed by whole decay steps of the shortfall, never below the floor. */
  function EffectiveQuorum(baseBps: nat, decay: DecayConfig, average: Option<nat>): Quorum {
    if !decay.enabled || average.None? then Quorum(baseBps, baseBps, average.GetOr(0), false)
    else if average.value >= baseBps then Quorum(baseBps, baseBps, average.value, false)
    else
      var shortfall := baseBps - average.value;
      var steps := shortfall / Max(decay.stepBps, 1);
      var reduction := Min(steps * decay.stepBps, U32_MAX);
      var decayed := Max(Max(baseBps - reduction, 0), decay.floorBps);
      Quorum(decayed, baseBps, average.value, decayed < baseBps)
  }

  /** What the setters admit: quorum within [10%, 100%], the floor clamped up to 10%, and a positive step
      whenever decay is on. */
  ghost predicate QuorumSettings(baseBps: nat, decay: DecayConfig) {
    && MIN_QUORUM_BPS <= baseBps <= MAX_QUORUM_BPS
    && decay.floorBps >= MIN_QUORUM_BPS
    && (decay.enabled ==> decay.stepBps > 0)
  }

  /** Decay can never take the requirement below 10%. */
  lemma QuorumNeverBelowMinimum(baseBps: nat, decay: DecayConfig, average: Option<nat>)
    requires QuorumSettings(baseBps, decay)
    ensures EffectiveQuorum(baseBps, decay, average).quorumBps >= MIN_QUORUM_BPS
  {
  }

  /** In closed form the decayed requirement is the average turnout plus the part of the shortfall that is
      not a whole step, or the floor. */
  lemma DecayedClosedForm(baseBps: nat, decay: DecayConfig, average: nat)
    requires QuorumSettings(baseBps, decay) && decay.enabled && average < baseBps
    ensures EffectiveQuorum(baseBps, decay, Some(average)).quorumBps ==
            Max(decay.floorBps, average + (baseBps - average) % decay.stepBps)
  {
    var shortfall, step := baseBps - average, decay.stepBps;
    assert shortfall == shortfall / step * step + shortfall % step;
  }

  /** Whole steps of a smaller shortfall leave more behind. */
  lemma LeftoverMonotone(base: int, low: int, high: int, step: int)
    requires step > 0 && low <= high <= base
    ensures base - (base - low) / step * step <= base - (base - high) / step * step
  {
    DivMono(base - high, base - low, step);
    MulMono((base - high) / step, (base - low) / step, step);
  }

  lemma DivisionParts(a: int, b: int)
    requires b > 0
    ensures a % b == a - a / b * b
  {
  }

  /** Higher average turnout never lowers the requirement, as long as the floor is below the base. */
  lemma QuorumMonotone(baseBps: nat, decay: DecayConfig, low: nat, high: nat)
    requires QuorumSettings(baseBps, decay) && decay.floorBps <= baseBps && low <= high
    ensures EffectiveQuorum(baseBps, decay, Some(low)).quorumBps <= EffectiveQuorum(baseBps, decay, Some(high)).quorumBps
  {
    if decay.enabled && low < baseBps {
      DecayedClosedForm(baseBps, decay, low);
      DivisionParts(baseBps - low, decay.stepBps);
      if high < baseBps {
        DecayedClosedForm(baseBps, decay, high);
        DivisionParts(baseBps - high, decay.stepBps);
        LeftoverMonotone(baseBps, low, high, decay.stepBps);
      } else {
        LeftoverMonotone(baseBps, low, baseBps, decay.stepBps);
      }
    }
  }

  // ----- The decision -----

  function QuorumNeeded(totalSupply: int, quorumBps: nat): int {
    if FitsI128(totalSupply * quorumBps) then TruncDiv(totalSupply * quorumBps, BPS) else I128_MAX
  }

  /** Does a proposal with these tallies pass? Abstentions are not an argument. */
  function Passes(votesFor: int, votesAgainst: int, totalSupply: int, quorumBps: nat, majorityBps: nat): bool {
    var partisan := votesFor + votesAgainst;
    if partisan == 0 then false
    else if partisan < QuorumNeeded(totalSupply, quorumBps) then false
    else
      var forBps := if partisan > 0 && FitsI128(votesFor * BPS) then TruncDiv(votesFor * BPS, partisan) else 0;
      forBps >= majorityBps
  }

  /** The decision without its truncations: enough partisan votes, and a large enough share of them For. */
  lemma PassesExactly(votesFor: int, votesAgainst: int, totalSupply: int, quorumBps: nat, majorityBps: nat)
    requires votesFor >= 0 && votesAgainst >= 0
    requires FitsI128(totalSupply * quorumBps) && FitsI128(votesFor * BPS)
    ensures Passes(votesFor, votesAgainst, totalSupply, quorumBps, majorityBps) <==>
            var partisan := votesFor + votesAgainst;
            && partisan > 0
            && partisan >= TruncDiv(totalSupply * quorumBps, BPS)
            && BPS * votesFor >= majorityBps * partisan
  {
    var partisan := votesFor + votesAgainst;
    if partisan > 0 {
      QuotientAtLeast(votesFor * BPS, partisan, majorityBps);
    }
  }

  /** More For votes never undo a pass. */
  lemma MoreForStillPasses(votesFor: int, votesAgainst: int, extra: nat, totalSupply: int, quorumBps: nat, majorityBps: nat)
    requires votesFor >= 0 && votesAgainst >= 0
    requires FitsI128(totalSupply * quorumBps) && FitsI128((votesFor + extra) * BPS)
    requires Passes(votesFor, votesAgainst, totalSupply, quorumBps, majorityBps)
    ensures Passes(votesFor + extra, votesAgainst, totalSupply, quorumBps, majorityBps)
  {
    PassesExactly(votesFor, votesAgainst, totalSupply, quorumBps, majorityBps);
    PassesExactly(votesFor + extra, votesAgainst, totalSupply, quorumBps, majorityBps);
    var partisan := votesFor + votesAgainst;
    if majorityBps > BPS {
      MulMono(BPS + 1, majorityBps, partisan);
    }
    MulMono(majorityBps, BPS, extra);
    assert majorityBps * (partisan + extra) == majorityBps * partisan + majorityBps * extra;
  }

  // ----- Time-weighted power -----

  datatype TimeWeightRaw = TimeWeightRaw(enabled: bool, ramp: nat, minBps: nat)

  /** What `set_time_weight` admits: an enabled ramp is positive and its starting share at most 100%. */
  type TimeWeight = t: TimeWeightRaw | t.enabled ==> t.ramp > 0 && t.minBps <= BPS
    witness TimeWeightRaw(false, 0, 10_000)

  datatype Checkpoint = Checkpoint(amount: int, since: nat)

  /** A balance at or below the recorded amount keeps its start time; a larger one restarts the clock. */
  function NextCheckpoint(previous: Option<Checkpoint>, balance: int, now: nat): Checkpoint {
    if previous.Some? && balance <= previous.value.amount then Checkpoint(balance, previous.value.since)
    else Checkpoint(balance, now)
  }

  function Factor(cfg: TimeWeight, since: nat, now: nat): int
    requires cfg.enabled
  {
    cfg.minBps + (BPS - cfg.minBps) * Min(SatSubU64(now, since), cfg.ramp) / cfg.ramp
  }

  /** The voting weight of a balance: its checkpointed part ramps from the minimum share to full weight, the
      rest counts at the minimum share. */
  function Weigh(cfg: TimeWeight, checkpoint: Option<Checkpoint>, balance: int, now: nat): int {
    if !cfg.enabled || balance <= 0 then balance
    else
      var aged := if checkpoint.Some? then Min(checkpoint.value.amount, balance) else 0;
      var since := if checkpoint.Some? then checkpoint.value.since else now;
      TruncDiv(SatMul(aged, Factor(cfg, since, now)), BPS) + TruncDiv(SatMul(balance - aged, cfg.minBps), BPS)
  }

  /** A fraction e / r of a spread, with e <= r, is at most the spread. */
  lemma FractionBounds(spread: int, e: int, r: int)
    requires spread >= 0 && 0 <= e <= r && r > 0
    ensures 0 <= spread * e / r <= spread
  {
    MulMono(e, r, spread);
    MulMono(0, e, spread);
    TruncDivHull(spread * e, r, 0, spread);
  }

  lemma FactorBounds(cfg: TimeWeight, since: nat, now: nat)
    requires cfg.enabled
    ensures cfg.minBps <= Factor(cfg, since, now) <= BPS
  {
    FractionBounds(BPS - cfg.minBps, Min(SatSubU64(now, since), cfg.ramp), cfg.ramp);
  }

  lemma FactorMono(cfg: TimeWeight, since: nat, now: nat, later: nat)
    requires cfg.enabled && now <= later
    ensures Factor(cfg, since, now) <= Factor(cfg, since, later)
  {
    var spread := BPS - cfg.minBps;
    var e, f := Min(SatSubU64(now, since), cfg.ramp), Min(SatSubU64(later, since), cfg.ramp);
    MulMono(e, f, spread);
    DivMono(spread * e, spread * f, cfg.ramp);
  }

  lemma ShareBounds(part: int, bps: int)
    requires part >= 0 && 0 <= bps <= BPS
    ensures 0 <= TruncDiv(SatMul(part, bps), BPS) <= part
  {
    MulMono(bps, BPS, part);
    TruncDivHull(SatMul(part, bps), BPS, 0, part);
  }

  /** Weight never exceeds the balance and is never negative. */
  lemma WeightWithinBalance(cfg: TimeWeight, checkpoint: Option<Checkpoint>, balance: int, now: nat)
    requires balance >= 0 && (checkpoint.Some? ==> checkpoint.value.amount >= 0)
    ensures 0 <= Weigh(cfg, checkpoint, balance, now) <= balance
  {
    if cfg.enabled && balance > 0 {
      var aged := if checkpoint.Some? then Min(checkpoint.value.amount, balance) else 0;
      var since := if checkpoint.Some? then checkpoint.value.since else now;
      FactorBounds(cfg, since, now);
      ShareBounds(aged, Factor(cfg, since, now));
      ShareBounds(balance - aged, cfg.minBps);
    }
  }

  /** Holding longer never weighs less. */
  lemma WeightGrowsWithTime(cfg: TimeWeight, checkpoint: Option<Checkpoint>, balance: int, now: nat, later: nat)
    requires balance >= 0 && (checkpoint.Some? ==> checkpoint.value.amount >= 0) && now <= later
    ensures Weigh(cfg, checkpoint, balance, now) <= Weigh(cfg, checkpoint, balance, later)
  {
    if cfg.enabled && balance > 0 && checkpoint.Some? {
      var aged, since := Min(checkpoint.value.amount, balance), checkpoint.value.since;
      FactorMono(cfg, since, now, later);
      MulMono(Factor(cfg, since, now), Factor(cfg, since, later), aged);
      TruncDivMono(SatMul(aged, Factor(cfg, since, now)), SatMul(aged, Factor(cfg, since, later)), BPS);
    }
  }

  lemma RoundingSlack(a: int, b: int)
    requires 0 <= a <= b
    ensures 0 <= (b / BPS - a / BPS) * BPS <= b - a + BPS - 1
  {
  }

  lemma ShareFits(x: int, bps: int)
    requires x >= 0 && 0 <= bps <= BPS && FitsI128(x * BPS)
    ensures SatMul(x, bps) == x * bps >= 0
  {
    MulMono(bps, BPS, x);
    MulMono(0, bps, x);
  }

  /** A larger part at a fixed share: the difference in weight is the share of the difference, rounded. */
  lemma ShareStep(part: int, extra: nat, bps: int)
    requires part >= 0 && 0 <= bps <= BPS && FitsI128((part + extra) * BPS)
    ensures var before, after := TruncDiv(SatMul(part, bps), BPS), TruncDiv(SatMul(part + extra, bps), BPS);
      0 <= (after - before) * BPS <= extra * bps + BPS - 1
  {
    MulMono(part, part + extra, BPS);
    ShareFits(part, bps);
    ShareFits(part + extra, bps);
    assert (part + extra) * bps == part * bps + extra * bps;
    MulMono(0, bps, extra);
    RoundingSlack(part * bps, part * bps + extra * bps);
  }

  /** Tokens added on top of the checkpointed amount count only at the minimum share, rounded up. */
  lemma FreshTokensAtMinimum(cfg: TimeWeight, checkpoint: Checkpoint, balance: int, extra: nat, now: nat)
    requires cfg.enabled && 0 <= checkpoint.amount <= balance && 0 < balance
    requires FitsI128((balance + extra) * BPS)
    ensures var before, after := Weigh(cfg, Some(checkpoint), balance, now), Weigh(cfg, Some(checkpoint), balance + extra, now);
      0 <= (after - before) * BPS <= extra * cfg.minBps + BPS - 1
  {
    var rest := balance - checkpoint.amount;
    MulMono(rest + extra, balance + extra, BPS);
    MulMono(0, rest + extra, BPS);
    ShareStep(rest, extra, cfg.minBps);
  }

  // ----- Runs of checkpoints -----

  datatype Observation = Observation(balance: int, now: nat)

  function CheckpointRun(obs: seq<Observation>): Option<Checkpoint> {
    if obs == [] then None
    else
      var last := obs[|obs| - 1];
      Some(NextCheckpoint(CheckpointRun(obs[..|obs| - 1]), last.balance, last.now))
  }

  /** After any run of checkpoints the recorded amount was held throughout: there is a checkpoint at the
      start time from which on every observed balance was at least that amount. */
  lemma {:induction false} CheckpointHeldThroughout(obs: seq<Observation>) returns (start: nat)
    requires obs != []
    ensures CheckpointRun(obs).Some? && start < |obs|
    ensures obs[start].now == CheckpointRun(obs).value.since
    ensures forall i :: start <= i < |obs| ==> CheckpointRun(obs).value.amount <= obs[i].balance
    ensures CheckpointRun(obs).value.amount == obs[|obs| - 1].balance
  {
    var n := |obs| - 1;
    var previous := CheckpointRun(obs[..n]);
    if n > 0 && obs[n].balance <= previous.value.amount {
      start := CheckpointHeldThroughout(obs[..n]);
    } else {
      start := n;
    }
  }

  /** The recorded amount was held, by the clock: every balance observed at or after the start time reaches it. */
  ghost predicate HeldSince(obs: seq<Observation>, c: Checkpoint) {
    forall i :: 0 <= i < |obs| && obs[i].now >= c.since ==> obs[i].balance >= c.amount
  }

  ghost predicate InTimeOrder(obs: seq<Observation>) {
    forall i, j :: 0 <= i < j < |obs| ==> obs[i].now <= obs[j].now
  }

  /** By the clock rather than by order the claim holds exactly when no checkpoint of the very second of the start
      time observed less. */
  lemma HeldSinceExactly(obs: seq<Observation>)
    requires obs != [] && InTimeOrder(obs) && CheckpointRun(obs).Some?
    ensures var c := CheckpointRun(obs).value;
      HeldSince(obs, c) <==> forall i :: 0 <= i < |obs| && obs[i].now == c.since ==> obs[i].balance >= c.amount
  {
    var c := CheckpointRun(obs).value;
    var start := CheckpointHeldThroughout(obs);
    if forall i :: 0 <= i < |obs| && obs[i].now == c.since ==> obs[i].balance >= c.amount {
      forall i | 0 <= i < |obs| && obs[i].now >= c.since ensures obs[i].balance >= c.amount {
        assert i < start ==> obs[i].now <= obs[start].now == c.since;
      }
    }
  }

  /** So it holds whenever checkpoints are made in different seconds. */
  lemma HeldSinceBetweenLedgers(obs: seq<Observation>)
    requires obs != [] && forall i, j :: 0 <= i < j < |obs| ==> obs[i].now < obs[j].now
    ensures CheckpointRun(obs).Some? && HeldSince(obs, CheckpointRun(obs).value)
  {
    var start := CheckpointHeldThroughout(obs);
    HeldSinceExactly(obs);
  }

  /** Two checkpoints in one second can leave a recorded amount above a balance observed at its own start time. */
  lemma SameLedgerCheckpoints(t: nat)
    ensures var obs := [Observation(3, t), Observation(10, t)];
      InTimeOrder(obs) && CheckpointRun(obs) == Some(Checkpoint(10, t)) && !HeldSince(obs, Checkpoint(10, t))
  {
    var obs := [Observation(3, t), Observation(10, t)];
    assert obs[..1] == [Observation(3, t)];
    assert CheckpointRun(obs[..1]) == Some(Checkpoint(3, t));
    assert obs[0].balance < 10;
  }
}
