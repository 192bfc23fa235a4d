/** What holds of the oracle verifier in every reachable state. */
module OracleRuns {
  import opened Arithmetic
  import opened Sequences
  import opened Ledger
  import opened OracleRegistry
  import opened OracleState
  import opened Averages
  import Vaults = OracleVault

  function OracleFn(): DataPoint -> Address {
    (p: DataPoint) => p.oracle
  }

  function PointsOf(s: Store, dt: Symbol, key: Symbol): seq<DataPoint> {
    Get(s.points, (dt, key), [])
  }

  /** At most one point per oracle, no more points than an oracle list may hold, and each point carries the
      timestamp that oracle last reported for the stream. */
  ghost predicate StreamSound(s: Store, dt: Symbol, key: Symbol) {
    var points := PointsOf(s, dt, key);
    && Distinct(Map(points, OracleFn()))
    && |points| <= MAX_ORACLES_PER_KEY
    && forall p :: p in points ==>
         (dt, key, p.oracle) in s.lastReading && s.lastReading[(dt, key, p.oracle)] == p.timestamp
  }

  ghost predicate ReputationSound(rep: Reputation) {
    rep.score <= FULL_SCORE && rep.accurate <= rep.total
  }

  ghost predicate Sound(s: Store) {
    && Vaults.Conserved(s.vault)
    && Consistent(s.registry)
    && (forall dt, key :: StreamSound(s, dt, key))
    && (forall k :: k in s.reputation ==> ReputationSound(s.reputation[k]))
  }

  // ----- Reputation -----

  lemma ScoreBounded(good: nat, total: nat)
    requires 0 < total && good <= total
    ensures good * FULL_SCORE / total <= FULL_SCORE
  {
    var q := good * FULL_SCORE / total;
    assert q * total <= good * FULL_SCORE;
    MulMono(good, total, FULL_SCORE);
    CancelMul(q, FULL_SCORE, total);
  }

  lemma ScaledWeight(w: nat, score: nat)
    requires score <= FULL_SCORE
    ensures 0 <= w * score / FULL_SCORE <= w
    ensures score == FULL_SCORE ==> w * score / FULL_SCORE == w
  {
    MulMono(score, FULL_SCORE, w);
    MulMono(0, score, w);
    TruncDivHull(w * score, FULL_SCORE, 0, w);
  }

  /** Reputation never pushes an oracle's weight outside [1, registered weight]. */
  lemma EffectiveWeightBounded(s: Store, oracle: Address, dt: Symbol)
    requires Sound(s) && (dt, oracle) in s.registry.oracles
    ensures 1 <= EffectiveWeight(s, oracle, dt) <= s.registry.oracles[(dt, oracle)].weight <= MAX_WEIGHT
    ensures ReputationOf(s, oracle, dt).score == FULL_SCORE ==>
              EffectiveWeight(s, oracle, dt) == s.registry.oracles[(dt, oracle)].weight
  {
    var w, score := s.registry.oracles[(dt, oracle)].weight, ReputationOf(s, oracle, dt).score;
    assert (dt, oracle) in s.reputation ==> ReputationSound(s.reputation[(dt, oracle)]);
    ScaledWeight(w, score);
  }

  // ----- Readings -----

  /** With every other retained point from a distinct active oracle there is always room: the eviction
      loop drops nothing. */
  lemma RoomForOneMore(s: Store, dt: Symbol, key: Symbol, p: DataPoint, now: nat)
    requires Consistent(s.registry) && StreamSound(s, dt, key) && IsActive(s.registry, dt, p.oracle)
    ensures var retained := Filter(PointsOf(s, dt, key), RetainFn(s, dt, p.oracle, now));
      && |retained| < MAX_ORACLES_PER_KEY && Evict(retained) == retained
      && Distinct(Map(retained + [p], OracleFn()))
  {
    var retained := Filter(PointsOf(s, dt, key), RetainFn(s, dt, p.oracle, now));
    FilterDistinctBy(PointsOf(s, dt, key), RetainFn(s, dt, p.oracle, now), OracleFn());
    var names := Map(retained + [p], OracleFn());
    assert names == Map(retained, OracleFn()) + [p.oracle];
    assert ListExact(s.registry, dt);
    forall a | a in names ensures a in ListOf(s.registry, dt) {
      var i :| 0 <= i < |names| && names[i] == a;
      assert IsActive(s.registry, dt, a) by {
        if i < |retained| { assert retained[i] in retained; }
      }
    }
    DistinctFits(names, ListOf(s.registry, dt));
  }

  lemma StorePointSound(s: Store, dt: Symbol, key: Symbol, p: DataPoint, now: nat)
    requires Sound(s) && IsActive(s.registry, dt, p.oracle)
    ensures Sound(StorePoint(s, dt, key, p, now))
  {
    var t := StorePoint(s, dt, key, p, now);
    RoomForOneMore(s, dt, key, p, now);
    forall d, k ensures StreamSound(t, d, k) {
      assert StreamSound(s, d, k);
      if d == dt && k == key {
        assert PointsOf(t, d, k) == Filter(PointsOf(s, dt, key), RetainFn(s, dt, p.oracle, now)) + [p];
      } else {
        assert PointsOf(t, d, k) == PointsOf(s, d, k);
      }
    }
  }

  ghost predicate SameStreams(s: Store, t: Store) {
    s.points == t.points && s.lastReading == t.lastReading
  }

  lemma SameStreamsSound(s: Store, t: Store)
    requires Sound(s) && SameStreams(s, t)
    ensures forall dt, key :: StreamSound(t, dt, key)
  {
    forall dt, key ensures StreamSound(t, dt, key) {
      assert StreamSound(s, dt, key);
    }
  }

  lemma StaleSlashedSound(s: Store, k: Vaults.Key)
    requires Sound(s) && Vaults.StaleSlash(s.vault, k, s.settings.staleSlash, s.settings.treasury).Some?
    ensures Sound(s.(vault := Vaults.StaleSlash(s.vault, k, s.settings.staleSlash, s.settings.treasury).value))
  {
    var vault := Vaults.StaleSlash(s.vault, k, s.settings.staleSlash, s.settings.treasury).value;
    Vaults.StaleSlashConserves(s.vault, k, s.settings.staleSlash, s.settings.treasury);
    SameStreamsSound(s, s.(vault := vault));
  }

  lemma StaleReputationSound(s: Store, oracle: Address, dt: Symbol, counts: map<(Symbol, Address), nat>)
    requires Sound(s)
    ensures Sound(StaleReputation(s, oracle, dt).(staleCount := counts))
  {
    var k := (dt, oracle);
    assert k in s.reputation ==> ReputationSound(s.reputation[k]);
    SameStreamsSound(s, StaleReputation(s, oracle, dt).(staleCount := counts));
  }

  lemma HandleStaleSound(s: Store, oracle: Address, dt: Symbol)
    requires Sound(s) && HandleStale(s, oracle, dt).Some?
    ensures Sound(HandleStale(s, oracle, dt).value)
    ensures HandleStale(s, oracle, dt).value.registry == s.registry
  {
    var k, threshold := (dt, oracle), s.settings.staleThreshold;
    var count := Min(Get(s.staleCount, k, 0) + 1, U32_MAX);
    if threshold == 0 || count < threshold {
      SameStreamsSound(s, HandleStale(s, oracle, dt).value);
    } else {
      StaleSlashedSound(s, k);
      var slashed := Vaults.StaleSlash(s.vault, k, s.settings.staleSlash, s.settings.treasury).value;
      StaleReputationSound(s.(vault := slashed), oracle, dt, s.staleCount[k := 0]);
    }
  }

  lemma AcceptReadingSound(s: Store, dt: Symbol, key: Symbol, p: DataPoint, now: nat)
    requires Sound(s) && IsActive(s.registry, dt, p.oracle) && AcceptReading(s, dt, key, p, now).Some?
    ensures Sound(AcceptReading(s, dt, key, p, now).value)
    ensures AcceptReading(s, dt, key, p, now).value.registry == s.registry
  {
    if SatSubU64(now, p.timestamp) > EffectiveMaxAge(s, dt) {
      HandleStaleSound(s, p.oracle, dt);
    } else {
      StorePointSound(s, dt, key, p, now);
    }
  }

  lemma {:induction false} AcceptAllSound(s: Store, entry: Entry, dt: Symbol, items: seq<(Symbol, DataPoint)>, oracle: Address, now: nat)
    requires Sound(s) && IsActive(s.registry, dt, oracle) && AcceptAll(s, entry, dt, items, oracle, now).Some?
    ensures Sound(AcceptAll(s, entry, dt, items, oracle, now).value)
    decreases |items|
  {
    if items != [] {
      var (key, p) := items[0];
      AcceptReadingSound(s, dt, key, p.(oracle := oracle), now);
      AcceptAllSound(AcceptReading(s, dt, key, p.(oracle := oracle), now).value, entry, dt, items[1..], oracle, now);
    }
  }

  lemma SubmitSound(s: Store, dt: Symbol, key: Symbol, p: DataPoint, now: nat, consistent: bool)
    requires Sound(s) && SubmitData(s, dt, key, p, now, consistent).Some?
    ensures Sound(SubmitData(s, dt, key, p, now, consistent).value)
  {
    var limited := RateLimited(s, p.oracle, dt, now).value;
    SameStreamsSound(s, limited);
    AcceptReadingSound(limited, dt, key, p, now);
    var accepted := AcceptReading(limited, dt, key, p, now).value;
    SameStreamsSound(accepted, ResetStale(accepted, p.oracle, dt));
  }

  lemma SubmitBatchSound(s: Store, entry: Entry, dt: Symbol, items: seq<(Symbol, DataPoint)>, oracle: Address, now: nat)
    requires Sound(s) && SubmitBatch(s, entry, dt, items, oracle, now).Some?
    ensures Sound(SubmitBatch(s, entry, dt, items, oracle, now).value)
  {
    var limited := RateLimited(s, oracle, dt, now).value;
    SameStreamsSound(s, limited);
    AcceptAllSound(limited, entry, dt, items, oracle, now);
    var accepted := AcceptAll(limited, entry, dt, items, oracle, now).value;
    SameStreamsSound(accepted, ResetStale(accepted, oracle, dt));
  }

  lemma EncryptedSound(s: Store, dt: Symbol, oracle: Address, confidence: nat, timestamp: nat, now: nat)
    requires Sound(s) && SubmitEncrypted(s, dt, oracle, confidence, timestamp, now).Some?
    ensures Sound(SubmitEncrypted(s, dt, oracle, confidence, timestamp, now).value)
  {
    var limited := RateLimited(s, oracle, dt, now).value;
    SameStreamsSound(s, limited);
    if SatSubU64(now, timestamp) > EffectiveMaxAge(s, dt) {
      HandleStaleSound(limited, oracle, dt);
    } else {
      SameStreamsSound(limited, ResetStale(limited, oracle, dt));
    }
  }

  lemma InvalidateSound(s: Store, dt: Symbol, key: Symbol)
    requires Sound(s)
    ensures Sound(Invalidate(s, dt, key))
  {
    var t := Invalidate(s, dt, key);
    forall d, k ensures StreamSound(t, d, k) {
      assert StreamSound(s, d, k);
    }
  }

  // ----- Every step, every run -----

  lemma VaultStepSound(s: Store, op: Op)
    requires Sound(s) && FromOutside(op) && Try(s, op).Some?
    requires op.OpStake? || op.OpRequestWithdrawal? || op.OpCancelWithdrawal? || op.OpWithdrawStake? || op.OpSlash? || op.OpTransfer?
    ensures Vaults.Conserved(Step(s, op).vault)
  {
    match op
    case OpStake(o, dt, amount) => Vaults.DepositConserves(s.vault, (dt, o), amount);
    case OpRequestWithdrawal(o, dt, now) =>
      Vaults.RequestConserves(s.vault, (dt, o), SatAddU64(now, s.settings.challengePeriod));
    case OpCancelWithdrawal(o, dt) => Vaults.CancelConserves(s.vault, (dt, o));
    case OpWithdrawStake(o, dt, now) => Vaults.WithdrawConserves(s.vault, (dt, o), now);
    case OpSlash(o, dt, amount) => Vaults.SlashConserves(s.vault, (dt, o), amount, s.settings.treasury);
    case OpTransfer(from, to, amount) =>
      Vaults.ExternalTransferConserves(s.vault, Transfer(s.vault.ledger, from, to, amount).value);
  }

  lemma RegistryStepSound(s: Store, op: Op)
    requires Sound(s) && Try(s, op).Some?
    requires op.OpAddOracle? || op.OpUpdateWeight? || op.OpDeactivate? || op.OpSlash?
    ensures Consistent(Step(s, op).registry)
  {
    match op
    case OpAddOracle(o, dt, w) =>
      AddConsistent(s.registry, o, dt, w, Vaults.Staked(s.vault, (dt, o)), s.settings.minStake);
    case OpUpdateWeight(o, dt, w) => UpdateWeightConsistent(s.registry, o, dt, w);
    case OpDeactivate(o, dt) => DeactivateConsistent(s.registry, o, dt);
    case OpSlash(o, dt, _) =>
      if IsActive(s.registry, dt, o) { PruneConsistent(s.registry, o, dt); }
  }

  predicate IsSubmission(op: Op) {
    op.OpSubmit? || op.OpSubmitBatch? || op.OpSubmitEncrypted? || op.OpInvalidate?
  }

  lemma SubmissionSound(s: Store, op: Op)
    requires Sound(s) && IsSubmission(op) && Try(s, op).Some?
    ensures Sound(Try(s, op).value)
  {
    match op
    case OpSubmit(dt, key, p, now, consistent) => SubmitSound(s, dt, key, p, now, consistent);
    case OpSubmitBatch(entry, o, dt, items, now) => SubmitBatchSound(s, entry, dt, items, o, now);
    case OpSubmitEncrypted(dt, o, confidence, timestamp, now) => EncryptedSound(s, dt, o, confidence, timestamp, now);
    case OpInvalidate(dt, key) => InvalidateSound(s, dt, key);
  }

  lemma ReputationStepSound(s: Store, op: Op)
    requires Sound(s) && (op.OpUpdateReputation? || op.OpSetReputation? || op.OpConfigure?) && Try(s, op).Some?
    ensures Sound(Try(s, op).value)
  {
    if op.OpUpdateReputation? {
      var rep := ReputationOf(s, op.oracle, op.dt);
      assert (op.dt, op.oracle) in s.reputation ==> ReputationSound(s.reputation[(op.dt, op.oracle)]);
      ScoreBounded(rep.accurate + (if op.accurate then 1 else 0), rep.total + 1);
    }
    SameStreamsSound(s, Try(s, op).value);
  }

  lemma CustodyStepSound(s: Store, op: Op)
    requires Sound(s) && FromOutside(op) && Try(s, op).Some?
    requires !IsSubmission(op) && !op.OpUpdateReputation? && !op.OpSetReputation? && !op.OpConfigure?
    ensures Sound(Try(s, op).value)
  {
    if op.OpAddOracle? || op.OpUpdateWeight? || op.OpDeactivate? {
      RegistryStepSound(s, op);
    } else {
      VaultStepSound(s, op);
      if op.OpSlash? {
        RegistryStepSound(s, op);
      }
    }
    SameStreamsSound(s, Try(s, op).value);
  }

  lemma StepSound(s: Store, op: Op)
    requires Sound(s) && FromOutside(op)
    ensures Sound(Step(s, op))
  {
    if Try(s, op).Some? {
      if IsSubmission(op) {
        SubmissionSound(s, op);
      } else if op.OpUpdateReputation? || op.OpSetReputation? || op.OpConfigure? {
        ReputationStepSound(s, op);
      } else {
        CustodyStepSound(s, op);
      }
    }
  }

  lemma RunSnoc(s: Store, ops: seq<Op>, op: Op)
    ensures Run(s, ops + [op]) == Step(Run(s, ops), op)
  {
    assert (ops + [op])[..|ops|] == ops;
  }

  /** Stakes are conserved, the oracle list is exact, streams hold one current point per oracle and scores
      stay within 1000 in every reachable state. */
  lemma {:induction false} ReachableSound(settings: Settings, ledger: map<Address, int>, ops: seq<Op>)
    requires Balance(ledger, SELF) >= 0
    requires forall i :: 0 <= i < |ops| ==> FromOutside(ops[i])
    ensures Sound(Run(Deployed(settings, ledger), ops))
  {
    if ops != [] {
      ReachableSound(settings, ledger, ops[..|ops| - 1]);
      StepSound(Run(Deployed(settings, ledger), ops[..|ops| - 1]), ops[|ops| - 1]);
    }
  }

  // ----- What never goes back -----

  /** Reading timestamps never decrease, so every change to one is an increase; registrations are never
      forgotten. */
  ghost predicate Advances(s: Store, t: Store) {
    && (forall k :: k in s.lastReading ==> k in t.lastReading && s.lastReading[k] <= t.lastReading[k])
    && s.registry.oracles.Keys <= t.registry.oracles.Keys
  }

  lemma {:induction false} AcceptAllAdvances(s: Store, entry: Entry, dt: Symbol, items: seq<(Symbol, DataPoint)>, oracle: Address, now: nat)
    requires AcceptAll(s, entry, dt, items, oracle, now).Some?
    ensures Advances(s, AcceptAll(s, entry, dt, items, oracle, now).value)
    decreases |items|
  {
    if items != [] {
      var (key, p) := items[0];
      var next := AcceptReading(s, dt, key, p.(oracle := oracle), now).value;
      assert Advances(s, next);
      AcceptAllAdvances(next, entry, dt, items[1..], oracle, now);
    }
  }

  lemma SubmitAdvances(s: Store, dt: Symbol, key: Symbol, p: DataPoint, now: nat, consistent: bool)
    requires SubmitData(s, dt, key, p, now, consistent).Some?
    ensures Advances(s, SubmitData(s, dt, key, p, now, consistent).value)
  {
    var limited := RateLimited(s, p.oracle, dt, now).value;
    assert Advances(limited, AcceptReading(limited, dt, key, p, now).value);
  }

  lemma StepAdvances(s: Store, op: Op)
    ensures Advances(s, Step(s, op))
  {
    if Try(s, op).Some? {
      if op.OpSubmit? {
        SubmitAdvances(s, op.dt, op.key, op.p, op.now, op.consistent);
      } else if op.OpSubmitBatch? {
        AcceptAllAdvances(RateLimited(s, op.oracle, op.dt, op.now).value, op.entry, op.dt, op.items, op.oracle, op.now);
      } else {
        OthersKeepReadings(s, op);
        RegistryAdvances(s, op);
      }
    }
  }

  lemma EncryptedKeepsReadings(s: Store, dt: Symbol, oracle: Address, confidence: nat, timestamp: nat, now: nat)
    requires SubmitEncrypted(s, dt, oracle, confidence, timestamp, now).Some?
    ensures SubmitEncrypted(s, dt, oracle, confidence, timestamp, now).value.lastReading == s.lastReading
  {
  }

  lemma QuietKeepsReadings(s: Store, op: Op)
    requires !op.OpSubmit? && !op.OpSubmitBatch? && !op.OpSubmitEncrypted? && !IsRegistryOp(op) && Try(s, op).Some?
    ensures Try(s, op).value.lastReading == s.lastReading
  {
  }

  lemma RegistryOpKeepsReadings(s: Store, op: Op)
    requires IsRegistryOp(op) && Try(s, op).Some?
    ensures Try(s, op).value.lastReading == s.lastReading
  {
  }

  lemma OthersKeepReadings(s: Store, op: Op)
    requires Try(s, op).Some? && !op.OpSubmit? && !op.OpSubmitBatch?
    ensures Step(s, op).lastReading == s.lastReading
  {
    if op.OpSubmitEncrypted? {
      EncryptedKeepsReadings(s, op.dt, op.oracle, op.confidence, op.timestamp, op.now);
    } else if IsRegistryOp(op) {
      RegistryOpKeepsReadings(s, op);
    } else {
      QuietKeepsReadings(s, op);
    }
  }

  lemma RegistryAdvances(s: Store, op: Op)
    requires Try(s, op).Some? && !op.OpSubmit? && !op.OpSubmitBatch?
    ensures s.registry.oracles.Keys <= Step(s, op).registry.oracles.Keys
  {
    if !IsRegistryOp(op) {
      OthersKeepRegistry(s, op);
    }
  }

  lemma {:induction false} RunAdvances(s: Store, ops: seq<Op>)
    ensures Advances(s, Run(s, ops))
  {
    if ops != [] {
      RunAdvances(s, ops[..|ops| - 1]);
      StepAdvances(Run(s, ops[..|ops| - 1]), ops[|ops| - 1]);
    }
  }

  /** Once registered for a data type, an address can never be added to it again, whatever happens in
      between: deactivation leaves the entry that `add_oracle` refuses to overwrite. */
  lemma RegistrationIsFinal(s: Store, ops: seq<Op>, oracle: Address, dt: Symbol, weight: nat)
    requires (dt, oracle) in s.registry.oracles
    ensures AddOracle(Run(s, ops), oracle, dt, weight).None?
  {
    RunAdvances(s, ops);
  }

  // ----- Accepted readings -----

  /** An accepted fresh reading ends up as the newest point of its stream, next to exactly the other oracles'
      points that are still fresh and active. */
  lemma SubmitStores(s: Store, dt: Symbol, key: Symbol, p: DataPoint, now: nat, consistent: bool)
    requires Sound(s) && SubmitData(s, dt, key, p, now, consistent).Some?
    requires SatSubU64(now, p.timestamp) <= EffectiveMaxAge(s, dt)
    ensures var t, before := SubmitData(s, dt, key, p, now, consistent).value, PointsOf(s, dt, key);
      && PointsOf(t, dt, key) == Filter(before, RetainFn(s, dt, p.oracle, now)) + [p]
      && t.lastReading[(dt, key, p.oracle)] == p.timestamp
      && t.vault == s.vault && t.reputation == s.reputation
  {
    var limited := RateLimited(s, p.oracle, dt, now).value;
    assert StreamSound(s, dt, key);
    RoomForOneMore(s, dt, key, p, now);
    SameRetained(s, limited, dt, key, p.oracle, now);
  }

  lemma SameRetained(s: Store, t: Store, dt: Symbol, key: Symbol, oracle: Address, now: nat)
    requires t == s.(lastSubmission := t.lastSubmission)
    ensures Filter(PointsOf(t, dt, key), RetainFn(t, dt, oracle, now)) == Filter(PointsOf(s, dt, key), RetainFn(s, dt, oracle, now))
  {
    FilterAgree(PointsOf(s, dt, key), RetainFn(t, dt, oracle, now), RetainFn(s, dt, oracle, now));
  }

  lemma {:induction false} FilterAgree<T>(s: seq<T>, p: T -> bool, q: T -> bool)
    requires forall x :: x in s ==> p(x) == q(x)
    ensures Filter(s, p) == Filter(s, q)
  {
    if s != [] {
      FilterAgree(s[1..], p, q);
    }
  }

  /** The batch holds a reading of this stream and oracle at this time or before. */
  predicate Replays(items: seq<(Symbol, DataPoint)>, key: Symbol, timestamp: nat) {
    exists i :: 0 <= i < |items| && items[i].0 == key && items[i].1.timestamp <= timestamp
  }

  lemma {:induction false} BatchReplayRejected(s: Store, entry: Entry, dt: Symbol, items: seq<(Symbol, DataPoint)>,
      oracle: Address, now: nat,
      key: Symbol)
    requires (dt, key, oracle) in s.lastReading && Replays(items, key, s.lastReading[(dt, key, oracle)])
    ensures AcceptAll(s, entry, dt, items, oracle, now).None?
    decreases |items|
  {
    var (k, p) := items[0];
    var next := AcceptReading(s, dt, k, p.(oracle := oracle), now);
    var i :| 0 <= i < |items| && items[i].0 == key && items[i].1.timestamp <= s.lastReading[(dt, key, oracle)];
    if i > 0 && ItemAccepted(entry, p) && next.Some? {
      assert Advances(s, next.value);
      assert items[1..][i - 1] == items[i];
      BatchReplayRejected(next.value, entry, dt, items[1..], oracle, now, key);
    }
  }

  /** A reading can never be replayed: once one of this time was accepted, none as old or older is, and no batch
      that contains one. */
  lemma ReplayRejected(s: Store, ops: seq<Op>, dt: Symbol, key: Symbol, p: DataPoint, now: nat, consistent: bool,
      entry: Entry, items: seq<(Symbol, DataPoint)>)
    requires (dt, key, p.oracle) in s.lastReading && p.timestamp <= s.lastReading[(dt, key, p.oracle)]
    ensures SubmitData(Run(s, ops), dt, key, p, now, consistent).None?
    ensures Replays(items, key, p.timestamp) ==> SubmitBatch(Run(s, ops), entry, dt, items, p.oracle, now).None?
  {
    RunAdvances(s, ops);
    var t := Run(s, ops);
    if Replays(items, key, p.timestamp) && RateLimited(t, p.oracle, dt, now).Some? {
      var i :| 0 <= i < |items| && items[i].0 == key && items[i].1.timestamp <= p.timestamp;
      var limited := RateLimited(t, p.oracle, dt, now).value;
      assert items[i].1.timestamp <= limited.lastReading[(dt, key, p.oracle)];
      BatchReplayRejected(limited, entry, dt, items, p.oracle, now, key);
    }
  }

  // ----- One data type per address -----

  /** The removal of an entry that is already inactive, while the address is active for another data type. */
  ghost predicate FreesActive(s: Store, op: Op) {
    && op.OpDeactivate? && (op.dt, op.oracle) in s.registry.oracles && !IsActive(s.registry, op.dt, op.oracle)
    && exists e :: IsActive(s.registry, e, op.oracle)
  }

  lemma {:induction false} AcceptAllKeepsRegistry(s: Store, entry: Entry, dt: Symbol, items: seq<(Symbol,
      DataPoint)>, oracle: Address, now: nat)
    requires AcceptAll(s, entry, dt, items, oracle, now).Some?
    ensures AcceptAll(s, entry, dt, items, oracle, now).value.registry == s.registry
    decreases |items|
  {
    if items != [] {
      var (key, p) := items[0];
      AcceptAllKeepsRegistry(AcceptReading(s, dt, key, p.(oracle := oracle), now).value, entry, dt, items[1..], oracle, now);
    }
  }

  predicate IsRegistryOp(op: Op) {
    op.OpAddOracle? || op.OpUpdateWeight? || op.OpDeactivate? || op.OpSlash?
  }

  lemma SubmissionKeepsRegistry(s: Store, op: Op)
    requires IsSubmission(op) && Try(s, op).Some?
    ensures Try(s, op).value.registry == s.registry
  {
    if op.OpSubmitBatch? {
      AcceptAllKeepsRegistry(RateLimited(s, op.oracle, op.dt, op.now).value, op.entry, op.dt, op.items, op.oracle, op.now);
    } else if op.OpSubmit? {
      SubmitKeepsRegistry(s, op.dt, op.key, op.p, op.now, op.consistent);
    }
  }

  lemma SubmitKeepsRegistry(s: Store, dt: Symbol, key: Symbol, p: DataPoint, now: nat, consistent: bool)
    requires SubmitData(s, dt, key, p, now, consistent).Some?
    ensures SubmitData(s, dt, key, p, now, consistent).value.registry == s.registry
  {
  }

  lemma QuietKeepsRegistry(s: Store, op: Op)
    requires !IsRegistryOp(op) && !IsSubmission(op) && Try(s, op).Some?
    ensures Try(s, op).value.registry == s.registry
  {
  }

  lemma OthersKeepRegistry(s: Store, op: Op)
    requires !IsRegistryOp(op)
    ensures Step(s, op).registry == s.registry
  {
    if Try(s, op).Some? {
      if IsSubmission(op) {
        SubmissionKeepsRegistry(s, op);
      } else {
        QuietKeepsRegistry(s, op);
      }
    }
  }

  /** Fewer active oracles under the same marks. */
  lemma StaysUnique(r: Registry, t: Registry)
    requires GloballyUnique(r) && t.globalOracles == r.globalOracles
    requires forall dt, a :: IsActive(t, dt, a) ==> IsActive(r, dt, a)
    ensures GloballyUnique(t)
  {
  }

  lemma StepUnique(s: Store, op: Op)
    requires GloballyUnique(s.registry)
    ensures GloballyUnique(Step(s, op).registry) <==> !FreesActive(s, op)
  {
    if !IsRegistryOp(op) {
      OthersKeepRegistry(s, op);
    } else if Try(s, op).Some? {
      match op
      case OpAddOracle(o, dt, w) => AddKeepsUnique(s.registry, o, dt, w, Vaults.Staked(s.vault, (dt, o)), s.settings.minStake);
      case OpUpdateWeight(_, _, _) => StaysUnique(s.registry, Step(s, op).registry);
      case OpSlash(_, _, _) => StaysUnique(s.registry, Step(s, op).registry);
      case OpDeactivate(o, dt) => DeactivateKeepsUnique(s.registry, o, dt);
    }
  }

  ghost predicate AlwaysUnique(s: Store, ops: seq<Op>) {
    GloballyUnique(Run(s, ops).registry) && (ops != [] ==> AlwaysUnique(s, ops[..|ops| - 1]))
  }

  ghost predicate NeverFreesActive(s: Store, ops: seq<Op>) {
    ops != [] ==> NeverFreesActive(s, ops[..|ops| - 1]) && !FreesActive(Run(s, ops[..|ops| - 1]), ops[|ops| - 1])
  }

  /** From deployment an address stays active for one data type at most exactly in the runs without such a removal. */
  lemma {:induction false} UniqueExactly(settings: Settings, ledger: map<Address, int>, ops: seq<Op>)
    ensures AlwaysUnique(Deployed(settings, ledger), ops) <==> NeverFreesActive(Deployed(settings, ledger), ops)
  {
    if ops != [] {
      var init := ops[..|ops| - 1];
      UniqueExactly(settings, ledger, init);
      if AlwaysUnique(Deployed(settings, ledger), init) {
        StepUnique(Run(Deployed(settings, ledger), init), ops[|ops| - 1]);
      }
    }
  }
}
