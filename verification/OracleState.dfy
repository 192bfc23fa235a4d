/** The oracle verifier's storage and what each entry point does to it. A panicking call leaves no trace,
    so an operation is a function to an optional state: None is an abort. */
module OracleState {
  import opened Arithmetic
  import opened Sequences
  import opened Ledger
  import opened OutlierFilter
  import opened Averages
  import opened OracleRegistry
  import Vaults = OracleVault

  const FULL_SCORE: nat := 1_000

  datatype Method = WeightedMedian | WeightedAverage | Mean | TimeWeightedAverage

  datatype DataPoint = DataPoint(oracle: Address, value: int, confidence: nat, timestamp: nat)

  datatype Reputation = Reputation(total: nat, accurate: nat, score: nat)

  datatype Settings = Settings(
    maxAge: nat, typeMaxAge: map<Symbol, nat>, minConfidence: nat, minOracleCount: nat, inactivityLimit: nat,
    methods: map<Symbol, Method>, outliers: map<Symbol, OutlierConfig>,
    minStake: int, challengePeriod: nat, minInterval: nat, futureBuffer: nat, maxTimestampAge: nat,
    treasury: Option<Address>, staleThreshold: nat, staleSlash: int, stalePenalty: nat, typeMaxValue: map<Symbol, int>)

  datatype Store = Store(
    settings: Settings,
    registry: Registry,
    vault: Vaults.Vault,
    reputation: map<(Symbol, Address), Reputation>,
    points: map<(Symbol, Symbol), seq<DataPoint>>,
    lastReading: map<(Symbol, Symbol, Address), nat>,
    lastSubmission: map<(Symbol, Address), nat>,
    staleCount: map<(Symbol, Address), nat>)

  function Lift(s: Store, vault: Option<Vaults.Vault>): Option<Store> {
    if vault.None? then None else Some(s.(vault := vault.value))
  }

  function LiftRegistry(s: Store, registry: Option<Registry>): Option<Store> {
    if registry.None? then None else Some(s.(registry := registry.value))
  }

  // ----- Registration -----

  function AddOracle(s: Store, oracle: Address, dt: Symbol, weight: nat): Option<Store> {
    LiftRegistry(s, Add(s.registry, oracle, dt, weight, Vaults.Staked(s.vault, (dt, oracle)), s.settings.minStake))
  }

  // ----- Reputation and weight -----

  const DEFAULT_REPUTATION := Reputation(0, 0, 500)

  function ReputationOf(s: Store, oracle: Address, dt: Symbol): Reputation {
    Get(s.reputation, (dt, oracle), DEFAULT_REPUTATION)
  }

  function UpdateReputation(s: Store, oracle: Address, dt: Symbol, accurate: bool): Store {
    var rep := ReputationOf(s, oracle, dt);
    var total, good := rep.total + 1, rep.accurate + (if accurate then 1 else 0);
    s.(reputation := s.reputation[(dt, oracle) := Reputation(total, good, good * FULL_SCORE / total)])
  }

  function SetReputation(s: Store, oracle: Address, dt: Symbol, score: nat): Option<Store> {
    if score > FULL_SCORE then None
    else Some(s.(reputation := s.reputation[(dt, oracle) := ReputationOf(s, oracle, dt).(score := score)]))
  }

  /** Registered weight scaled by the reputation score, at least 1. */
  function EffectiveWeight(s: Store, oracle: Address, dt: Symbol): nat
    requires (dt, oracle) in s.registry.oracles
  {
    Max(s.registry.oracles[(dt, oracle)].weight * ReputationOf(s, oracle, dt).score / FULL_SCORE, 1)
  }

  // ----- Stake -----

  /** Stake is locked while its oracle is active. */
  function RequestWithdrawal(s: Store, oracle: Address, dt: Symbol, now: nat): Option<Store> {
    if IsActive(s.registry, dt, oracle) then None
    else Lift(s, Vaults.Request(s.vault, (dt, oracle), SatAddU64(now, s.settings.challengePeriod)))
  }

  function WithdrawStake(s: Store, oracle: Address, dt: Symbol, now: nat): Option<Store> {
    if IsActive(s.registry, dt, oracle) then None else Lift(s, Vaults.Withdraw(s.vault, (dt, oracle), now))
  }

  function SlashOracle(s: Store, oracle: Address, dt: Symbol, amount: int): Option<Store> {
    var after := Vaults.Slash(s.vault, (dt, oracle), amount, s.settings.treasury);
    if after.None? then None
    else
      var remaining := Vaults.Staked(after.value, (dt, oracle));
      Some(s.(vault := after.value,
              registry := DropUnderstaked(s.registry, oracle, dt, remaining, s.settings.minStake)))
  }

  function StaleReputation(s: Store, oracle: Address, dt: Symbol): Store {
    var rep := ReputationOf(s, oracle, dt);
    if s.settings.stalePenalty == 0 then s
    else s.(reputation := s.reputation[(dt, oracle) := rep.(score := SatSubU64(rep.score, s.settings.stalePenalty))])
  }

  /** Counts a stale submission and, at the threshold, slashes stake, drops reputation and starts over. */
  function HandleStale(s: Store, oracle: Address, dt: Symbol): Option<Store> {
    var k, threshold := (dt, oracle), s.settings.staleThreshold;
    var count := Min(Get(s.staleCount, k, 0) + 1, U32_MAX);
    if threshold == 0 || count < threshold then Some(s.(staleCount := s.staleCount[k := count]))
    else
      var slashed := Lift(s, Vaults.StaleSlash(s.vault, k, s.settings.staleSlash, s.settings.treasury));
      if slashed.None? then None
      else Some(StaleReputation(slashed.value, oracle, dt).(staleCount := s.staleCount[k := 0]))
  }

  // ----- Readings -----

  function EffectiveMaxAge(s: Store, dt: Symbol): nat {
    Get(s.settings.typeMaxAge, dt, s.settings.maxAge)
  }

  /** Which stored points a new write keeps: other oracles' fresh points whose oracle is still active. */
  function RetainFn(s: Store, dt: Symbol, oracle: Address, now: nat): DataPoint -> bool {
    (p: DataPoint) =>
      p.oracle != oracle && SatSubU64(now, p.timestamp) <= EffectiveMaxAge(s, dt) && IsActive(s.registry, dt, p.oracle)
  }

  /** Drops from the front until there is room for one more point. */
  function Evict(points: seq<DataPoint>): seq<DataPoint> {
    if |points| >= MAX_DATA_POINTS then points[|points| - MAX_DATA_POINTS + 1..] else points
  }

  function StorePoint(s: Store, dt: Symbol, key: Symbol, p: DataPoint, now: nat): Store {
    var retained := Filter(Get(s.points, (dt, key), []), RetainFn(s, dt, p.oracle, now));
    s.(points := s.points[(dt, key) := Evict(retained) + [p]],
       lastReading := s.lastReading[(dt, key, p.oracle) := p.timestamp])
  }

  predicate TimestampAccepted(s: Store, timestamp: nat, now: nat) {
    && timestamp <= SatAddU64(now, s.settings.futureBuffer)
    && timestamp >= SatSubU64(now, s.settings.maxTimestampAge)
  }

  /** One reading of an authorized oracle, past the rate limit: the monotonic guard, then the stale gate. */
  function AcceptReading(s: Store, dt: Symbol, key: Symbol, p: DataPoint, now: nat): Option<Store> {
    var last := (dt, key, p.oracle);
    if p.confidence == 0 || p.confidence > 100 || !TimestampAccepted(s, p.timestamp, now) then None
    else if last in s.lastReading && p.timestamp <= s.lastReading[last] then None
    else if SatSubU64(now, p.timestamp) > EffectiveMaxAge(s, dt) then HandleStale(s, p.oracle, dt)
    else Some(StorePoint(s, dt, key, p, now))
  }

  function RateLimited(s: Store, oracle: Address, dt: Symbol, now: nat): Option<Store> {
    var k := (dt, oracle);
    if k in s.lastSubmission && SatSubU64(now, s.lastSubmission[k]) < s.settings.minInterval then None
    else Some(s.(lastSubmission := s.lastSubmission[k := now]))
  }

  function ResetStale(s: Store, oracle: Address, dt: Symbol): Store {
    if (dt, oracle) in s.staleCount then s.(staleCount := s.staleCount[(dt, oracle) := 0]) else s
  }

  /** `submit_data`. Cross-validation against other feeds may still reject the write (`consistent`). */
  function SubmitData(s: Store, dt: Symbol, key: Symbol, p: DataPoint, now: nat, consistent: bool): Option<Store> {
    if Abs(p.value) > MAX_DATA_VALUE || Abs(p.value) > Get(s.settings.typeMaxValue, dt, MAX_DATA_VALUE) then None
    else if p.timestamp == 0 || !IsActive(s.registry, dt, p.oracle) then None
    else
      var limited := RateLimited(s, p.oracle, dt, now);
      var accepted := if limited.None? then None else AcceptReading(limited.value, dt, key, p, now);
      if accepted.None? then None
      else if SatSubU64(now, p.timestamp) > EffectiveMaxAge(s, dt) then accepted
      else if !consistent then None
      else Some(ResetStale(accepted.value, p.oracle, dt))
  }

  /** The two batch entry points check different things: `submit_data_batch` refuses a time of zero,
      `batch_submit_data` refuses values out of range. */
  datatype Entry = SubmitDataBatch | BatchSubmitData

  predicate ItemAccepted(entry: Entry, p: DataPoint) {
    match entry
    case SubmitDataBatch => p.timestamp != 0
    case BatchSubmitData => Abs(p.value) <= MAX_DATA_VALUE
  }

  /** All readings or none. */
  function AcceptAll(s: Store, entry: Entry, dt: Symbol, items: seq<(Symbol, DataPoint)>, oracle: Address, now: nat): Option<Store>
    decreases |items|
  {
    if items == [] then Some(s)
    else
      var (key, p) := items[0];
      var next := if !ItemAccepted(entry, p) then None else AcceptReading(s, dt, key, p.(oracle := oracle), now);
      if next.None? then None else AcceptAll(next.value, entry, dt, items[1..], oracle, now)
  }

  /** One rate-limit charge for the batch. Only `submit_data_batch` clears the count of stale submissions. */
  function SubmitBatch(s: Store, entry: Entry, dt: Symbol, items: seq<(Symbol, DataPoint)>, oracle: Address, now: nat): Option<Store> {
    if !IsActive(s.registry, dt, oracle) then None
    else
      var limited := RateLimited(s, oracle, dt, now);
      var accepted := if limited.None? then None else AcceptAll(limited.value, entry, dt, items, oracle, now);
      if accepted.None? then None
      else if entry == SubmitDataBatch then Some(ResetStale(accepted.value, oracle, dt))
      else accepted
  }

  const NINETY_DAYS: nat := 90 * 24 * 60 * 60

  /** `submit_encrypted_data`: the ciphertext is kept apart and decides nothing, but the submission is charged to the
      rate limit and, when stale, counted and penalized like any other. It has no check against replays. */
  function SubmitEncrypted(s: Store, dt: Symbol, oracle: Address, confidence: nat, timestamp: nat, now: nat): Option<Store> {
    if confidence == 0 || confidence > 100 || timestamp == 0 || timestamp > now then None
    else if timestamp < SatSubU64(now, NINETY_DAYS) || !IsActive(s.registry, dt, oracle) then None
    else
      var limited := RateLimited(s, oracle, dt, now);
      if limited.None? then None
      else if SatSubU64(now, timestamp) > EffectiveMaxAge(s, dt) then HandleStale(limited.value, oracle, dt)
      else Some(ResetStale(limited.value, oracle, dt))
  }

  function Invalidate(s: Store, dt: Symbol, key: Symbol): Store {
    s.(points := s.points - {(dt, key)})
  }

  // ----- Runs -----

  datatype Op =
    | OpAddOracle(oracle: Address, dt: Symbol, weight: nat)
    | OpUpdateWeight(oracle: Address, dt: Symbol, weight: nat)
    | OpDeactivate(oracle: Address, dt: Symbol)
    | OpUpdateReputation(oracle: Address, dt: Symbol, accurate: bool)
    | OpSetReputation(oracle: Address, dt: Symbol, score: nat)
    | OpStake(oracle: Address, dt: Symbol, amount: int)
    | OpRequestWithdrawal(oracle: Address, dt: Symbol, now: nat)
    | OpCancelWithdrawal(oracle: Address, dt: Symbol)
    | OpWithdrawStake(oracle: Address, dt: Symbol, now: nat)
    | OpSlash(oracle: Address, dt: Symbol, amount: int)
    | OpSubmit(dt: Symbol, key: Symbol, p: DataPoint, now: nat, consistent: bool)
    | OpSubmitBatch(entry: Entry, oracle: Address, dt: Symbol, items: seq<(Symbol, DataPoint)>, now: nat)
    | OpSubmitEncrypted(dt: Symbol, oracle: Address, confidence: nat, timestamp: nat, now: nat)
    | OpInvalidate(dt: Symbol, key: Symbol)
    | OpConfigure(settings: Settings)
    | OpTransfer(from: Address, to: Address, amount: int)

  /** The operation's effect, or None when it aborts. */
  function Try(s: Store, op: Op): Option<Store> {
    match op
    case OpAddOracle(o, dt, w) => AddOracle(s, o, dt, w)
    case OpUpdateWeight(o, dt, w) => LiftRegistry(s, UpdateWeight(s.registry, o, dt, w))
    case OpDeactivate(o, dt) => LiftRegistry(s, Deactivate(s.registry, o, dt))
    case OpUpdateReputation(o, dt, a) => Some(UpdateReputation(s, o, dt, a))
    case OpSetReputation(o, dt, score) => SetReputation(s, o, dt, score)
    case OpStake(o, dt, amount) => Lift(s, Vaults.Deposit(s.vault, (dt, o), amount))
    case OpRequestWithdrawal(o, dt, now) => RequestWithdrawal(s, o, dt, now)
    case OpCancelWithdrawal(o, dt) => Lift(s, Vaults.Cancel(s.vault, (dt, o)))
    case OpWithdrawStake(o, dt, now) => WithdrawStake(s, o, dt, now)
    case OpSlash(o, dt, amount) => SlashOracle(s, o, dt, amount)
    case OpSubmit(dt, key, p, now, ok) => SubmitData(s, dt, key, p, now, ok)
    case OpSubmitBatch(entry, o, dt, items, now) => SubmitBatch(s, entry, dt, items, o, now)
    case OpSubmitEncrypted(dt, o, confidence, timestamp, now) => SubmitEncrypted(s, dt, o, confidence, timestamp, now)
    case OpInvalidate(dt, key) => Some(Invalidate(s, dt, key))
    case OpConfigure(settings) => Some(s.(settings := settings))
    case OpTransfer(from, to, amount) =>
      var moved := Transfer(s.vault.ledger, from, to, amount);
      if moved.None? then None else Some(s.(vault := s.vault.(ledger := moved.value)))
  }

  function Step(s: Store, op: Op): Store {
    var next := Try(s, op);
    if next.None? then s else next.value
  }

  function Run(s: Store, ops: seq<Op>): Store {
    if ops == [] then s else Step(Run(s, ops[..|ops| - 1]), ops[|ops| - 1])
  }

  /** A freshly deployed contract on a ledger where it may already hold tokens. */
  function Deployed(settings: Settings, ledger: map<Address, int>): Store {
    Store(settings, Registry(map[], {}, map[]), Vaults.Vault(map[], map[], ledger, map[]),
          map[], map[], map[], map[], map[])
  }

  /** Nobody can sign for the contract's own account. */
  predicate FromOutside(op: Op) {
    match op
    case OpStake(o, _, _) => o != SELF
    case OpTransfer(from, _, _) => from != SELF
    case _ => true
  }
}
