/** The oracle verifier contract: its storage as fields, its entry points as methods, each proved to do
    what OracleState says. A method that returns false aborted and left the storage as it was. */
module OracleVerifier {
  import opened Arithmetic
  import opened Sequences
  import opened Ledger
  import opened OracleRegistry
  import opened OracleState
  import opened OutlierFilter
  import opened OutlierRejection
  import opened Averages
  import opened TimeWeighting
  import opened Consensus
  import Vaults = OracleVault
  import Median = WeightedMedian

  class Verifier {
    var settings: Settings
    var oracles: map<(Symbol, Address), OracleEntry>
    var globalOracles: set<Address>
    var oracleList: map<Symbol, seq<Address>>
    var reputation: map<(Symbol, Address), Reputation>
    var points: map<(Symbol, Symbol), seq<DataPoint>>
    var lastReading: map<(Symbol, Symbol, Address), nat>
    var lastSubmission: map<(Symbol, Address), nat>
    var staleCount: map<(Symbol, Address), nat>
    var stakes: map<(Symbol, Address), int>
    var withdrawals: map<(Symbol, Address), Vaults.WithdrawalRequest>
    var ledger: map<Address, int>
    ghost var log: map<(Symbol, Address), Vaults.StakeLog>

    ghost function VaultNow(): Vaults.Vault
      reads this
    {
      Vaults.Vault(stakes, withdrawals, ledger, log)
    }

    ghost function Snapshot(): Store
      reads this
    {
      Store(settings, Registry(oracles, globalOracles, oracleList), VaultNow(),
            reputation, points, lastReading, lastSubmission, staleCount)
    }

    /** The call did what the specification says: `after` when it succeeded, nothing when it aborted. */
    ghost predicate Did(before: Store, after: Option<Store>, ok: bool)
      reads this
    {
      (ok <==> after.Some?) && Snapshot() == if ok then after.value else before
    }

    ghost predicate VaultDid(before: Vaults.Vault, after: Option<Vaults.Vault>, ok: bool)
      reads this
    {
      (ok <==> after.Some?) && VaultNow() == if ok then after.value else before
    }

    constructor (settings: Settings, ledger: map<Address, int>)
      ensures Snapshot() == Deployed(settings, ledger)
    {
      this.settings, this.ledger := settings, ledger;
      oracles, globalOracles, oracleList := map[], {}, map[];
      reputation, points, lastReading, lastSubmission, staleCount := map[], map[], map[], map[], map[];
      stakes, withdrawals, log := map[], map[], map[];
    }

    // ----- Registration -----

    method AddOracle(oracle: Address, dt: Symbol, weight: nat) returns (ok: bool)
      modifies this
      ensures Did(old(Snapshot()), OracleState.AddOracle(old(Snapshot()), oracle, dt, weight), ok)
    {
      if weight == 0 || weight > MAX_REGISTERED_WEIGHT { return false; }
      if (dt, oracle) in oracles { return false; }
      if oracle in globalOracles { return false; }
      var list := Get(oracleList, dt, []);
      if |list| >= MAX_ORACLES_PER_KEY { return false; }
      if settings.minStake > 0 {
        var staked := Get(stakes, (dt, oracle), 0);
        if staked <= 0 || staked < settings.minStake { return false; }
      }
      globalOracles := globalOracles + {oracle};
      oracles := oracles[(dt, oracle) := OracleEntry(weight, true)];
      var present := false;
      for i := 0 to |list|
        modifies {}
        invariant present <==> oracle in list[..i]
      {
        if list[i] == oracle {
          present := true;
          break;
        }
      }
      if !present {
        oracleList := oracleList[dt := list + [oracle]];
      }
      return true;
    }

    method UpdateOracleWeight(oracle: Address, dt: Symbol, weight: nat) returns (ok: bool)
      modifies this
      ensures Did(old(Snapshot()), LiftRegistry(old(Snapshot()), UpdateWeight(old(Snapshot()).registry, oracle, dt, weight)), ok)
    {
      if weight == 0 || weight > MAX_REGISTERED_WEIGHT || (dt, oracle) !in oracles { return false; }
      oracles := oracles[(dt, oracle) := oracles[(dt, oracle)].(weight := weight)];
      return true;
    }

    static method Without(list: seq<Address>, oracle: Address) returns (pruned: seq<Address>)
      ensures pruned == Filter(list, OtherThan(oracle))
    {
      pruned := [];
      for i := 0 to |list|
        invariant pruned == Filter(list[..i], OtherThan(oracle))
      {
        FilterNext(list, i, OtherThan(oracle));
        if list[i] != oracle {
          pruned := pruned + [list[i]];
        }
      }
      assert list[..|list|] == list;
    }

    /** Rebuilds the oracle list without `oracle` and marks its entry inactive. */
    method PruneOracle(oracle: Address, dt: Symbol)
      requires (dt, oracle) in oracles
      modifies `oracles, `oracleList
      ensures Snapshot() == old(Snapshot()).(registry := Prune(old(Snapshot()).registry, oracle, dt))
    {
      oracles := oracles[(dt, oracle) := oracles[(dt, oracle)].(active := false)];
      var pruned := Without(Get(oracleList, dt, []), oracle);
      oracleList := oracleList[dt := pruned];
    }

    method DeactivateOracle(oracle: Address, dt: Symbol) returns (ok: bool)
      modifies this
      ensures Did(old(Snapshot()), LiftRegistry(old(Snapshot()), Deactivate(old(Snapshot()).registry, oracle, dt)), ok)
    {
      if (dt, oracle) !in oracles { return false; }
      PruneOracle(oracle, dt);
      globalOracles := globalOracles - {oracle};
      return true;
    }

    // ----- Reputation -----

    method UpdateReputation(oracle: Address, dt: Symbol, accurate: bool)
      modifies this
      ensures Snapshot() == OracleState.UpdateReputation(old(Snapshot()), oracle, dt, accurate)
    {
      var rep := Get(reputation, (dt, oracle), DEFAULT_REPUTATION);
      rep := rep.(total := rep.total + 1);
      if accurate {
        rep := rep.(accurate := rep.accurate + 1);
      }
      if rep.total > 0 {
        rep := rep.(score := rep.accurate * FULL_SCORE / rep.total);
      }
      reputation := reputation[(dt, oracle) := rep];
    }

    method SetReputation(oracle: Address, dt: Symbol, score: nat) returns (ok: bool)
      modifies this
      ensures Did(old(Snapshot()), OracleState.SetReputation(old(Snapshot()), oracle, dt, score), ok)
    {
      if score > FULL_SCORE { return false; }
      var rep := Get(reputation, (dt, oracle), DEFAULT_REPUTATION);
      reputation := reputation[(dt, oracle) := rep.(score := score)];
      return true;
    }

    // ----- Stake -----

    method DepositStake(oracle: Address, dt: Symbol, amount: int) returns (ok: bool)
      modifies `stakes, `ledger, `log
      ensures Did(old(Snapshot()), Lift(old(Snapshot()), Vaults.Deposit(old(VaultNow()), (dt, oracle), amount)), ok)
    {
      if amount <= 0 { return false; }
      var moved := Transfer(ledger, oracle, SELF, amount);
      if moved.None? { return false; }
      var k := (dt, oracle);
      var current := Get(stakes, k, 0);
      if !FitsI128(current + amount) { return false; }
      ledger := moved.value;
      stakes := stakes[k := current + amount];
      ghost var entry := Get(log, k, Vaults.NO_LOG);
      log := log[k := entry.(deposited := entry.deposited + amount)];
      return true;
    }

    method RequestStakeWithdrawal(oracle: Address, dt: Symbol, now: nat) returns (ok: bool)
      modifies `withdrawals, `log
      ensures Did(old(Snapshot()), RequestWithdrawal(old(Snapshot()), oracle, dt, now), ok)
    {
      var k := (dt, oracle);
      if k in oracles && oracles[k].active { return false; }
      var amount := Get(stakes, k, 0);
      if amount <= 0 || k in withdrawals { return false; }
      withdrawals := withdrawals[k := Vaults.WithdrawalRequest(amount, SatAddU64(now, settings.challengePeriod))];
      log := log[k := Get(log, k, Vaults.NO_LOG).(requested := amount, slashedSince := 0)];
      return true;
    }

    method CancelStakeWithdrawal(oracle: Address, dt: Symbol) returns (ok: bool)
      modifies `withdrawals
      ensures Did(old(Snapshot()), Lift(old(Snapshot()), Vaults.Cancel(old(VaultNow()), (dt, oracle))), ok)
    {
      if (dt, oracle) !in withdrawals { return false; }
      withdrawals := withdrawals - {(dt, oracle)};
      return true;
    }

    method WithdrawStake(oracle: Address, dt: Symbol, now: nat) returns (ok: bool)
      modifies `stakes, `withdrawals, `ledger, `log
      ensures Did(old(Snapshot()), OracleState.WithdrawStake(old(Snapshot()), oracle, dt, now), ok)
    {
      if (dt, oracle) in oracles && oracles[(dt, oracle)].active { return false; }
      ok := PayOut(oracle, dt, now);
    }

    method PayOut(oracle: Address, dt: Symbol, now: nat) returns (ok: bool)
      modifies `stakes, `withdrawals, `ledger, `log
      ensures VaultDid(old(VaultNow()), Vaults.Withdraw(old(VaultNow()), (dt, oracle), now), ok)
    {
      var k := (dt, oracle);
      if k !in withdrawals || now < withdrawals[k].unlockAt { return false; }
      var current := Get(stakes, k, 0);
      if current <= 0 { return false; }
      var toWithdraw := Min(current, withdrawals[k].amount);
      var moved := Transfer(ledger, SELF, oracle, toWithdraw);
      if moved.None? { return false; }
      var remaining := current - toWithdraw;
      if remaining == 0 {
        stakes := stakes - {k};
      } else {
        stakes := stakes[k := remaining];
      }
      withdrawals := withdrawals - {k};
      ledger := moved.value;
      ghost var entry := Get(log, k, Vaults.NO_LOG);
      log := log[k := entry.(withdrawn := entry.withdrawn + toWithdraw)];
      return true;
    }

    /** Moves up to `amount` of a stake to the treasury, or leaves it in the contract when there is none. */
    method TakeStake(oracle: Address, dt: Symbol, amount: int) returns (ok: bool)
      modifies `stakes, `ledger, `log
      ensures VaultDid(old(VaultNow()), Vaults.TakeStake(old(VaultNow()), (dt, oracle), amount, settings.treasury), ok)
    {
      var k := (dt, oracle);
      var current := Get(stakes, k, 0);
      var slashed := Min(amount, current);
      if settings.treasury.Some? {
        var moved := Transfer(ledger, SELF, settings.treasury.value, slashed);
        if moved.None? { return false; }
        ledger := moved.value;
      }
      stakes := stakes[k := current - slashed];
      ghost var entry := Get(log, k, Vaults.NO_LOG);
      log := log[k := entry.(slashed := entry.slashed + slashed)];
      return true;
    }

    method ReducePendingWithdrawal(oracle: Address, dt: Symbol, slashed: int)
      modifies `withdrawals, `log
      ensures VaultNow() == Vaults.ShrinkRequest(old(VaultNow()), (dt, oracle), slashed)
    {
      var k := (dt, oracle);
      if k in withdrawals {
        var request := withdrawals[k].(amount := withdrawals[k].amount - slashed);
        if request.amount <= 0 {
          withdrawals := withdrawals - {k};
        } else {
          withdrawals := withdrawals[k := request];
        }
      }
      ghost var entry := Get(log, k, Vaults.NO_LOG);
      log := log[k := entry.(slashedSince := entry.slashedSince + slashed)];
    }

    method SlashOracle(oracle: Address, dt: Symbol, amount: int) returns (ok: bool)
      modifies `stakes, `withdrawals, `ledger, `log, `oracles, `oracleList
      ensures Did(old(Snapshot()), OracleState.SlashOracle(old(Snapshot()), oracle, dt, amount), ok)
    {
      var k := (dt, oracle);
      if amount <= 0 { return false; }
      var current := Get(stakes, k, 0);
      if current <= 0 { return false; }
      ok := TakeStake(oracle, dt, amount);
      if !ok { return false; }
      ReducePendingWithdrawal(oracle, dt, Min(amount, current));
      var remaining := Get(stakes, k, 0);
      if settings.minStake > 0 && remaining < settings.minStake {
        if k in oracles && oracles[k].active {
          PruneOracle(oracle, dt);
        }
      }
    }

    /** The automatic penalty for repeated stale submissions. */
    method HandleStaleSubmission(oracle: Address, dt: Symbol) returns (ok: bool)
      modifies `staleCount, `stakes, `ledger, `log, `reputation
      ensures Did(old(Snapshot()), HandleStale(old(Snapshot()), oracle, dt), ok)
    {
      var k := (dt, oracle);
      var count := Min(Get(staleCount, k, 0) + 1, U32_MAX);
      if settings.staleThreshold == 0 || count < settings.staleThreshold {
        staleCount := staleCount[k := count];
        return true;
      }
      if settings.staleSlash > 0 && Get(stakes, k, 0) > 0 {
        ok := TakeStake(oracle, dt, settings.staleSlash);
        if !ok { return false; }
      }
      if settings.stalePenalty > 0 {
        var rep := Get(reputation, k, DEFAULT_REPUTATION);
        reputation := reputation[k := rep.(score := SatSubU64(rep.score, settings.stalePenalty))];
      }
      staleCount := staleCount[k := 0];
      return true;
    }

    // ----- Readings -----

    /** The stored points a new write keeps: other oracles' fresh points whose oracle is still active. */
    method RetainPoints(stored: seq<DataPoint>, dt: Symbol, oracle: Address, now: nat) returns (retained: seq<DataPoint>)
      ensures retained == Filter(stored, RetainFn(Snapshot(), dt, oracle, now))
    {
      var maxAge := Get(settings.typeMaxAge, dt, settings.maxAge);
      ghost var keep := RetainFn(Snapshot(), dt, oracle, now);
      retained := [];
      for i := 0 to |stored|
        invariant retained == Filter(stored[..i], keep)
      {
        var point := stored[i];
        FilterNext(stored, i, keep);
        if point.oracle == oracle || SatSubU64(now, point.timestamp) > maxAge {
          continue;
        }
        if (dt, point.oracle) in oracles && oracles[(dt, point.oracle)].active {
          retained := retained + [point];
        }
      }
      assert stored[..|stored|] == stored;
    }

    static method EvictOldest(points: seq<DataPoint>) returns (kept: seq<DataPoint>)
      ensures kept == Evict(points)
    {
      kept := points;
      ghost var dropped := 0;
      while |kept| >= MAX_DATA_POINTS
        invariant 0 <= dropped <= |points| && kept == points[dropped..]
        invariant dropped > 0 ==> |kept| >= MAX_DATA_POINTS - 1
        decreases |kept|
      {
        kept := kept[1..];
        dropped := dropped + 1;
      }
    }

    /** Replaces the oracle's previous point and keeps only fresh points of active oracles, evicting from
        the front while the list is full. */
    method StorePlainReading(dt: Symbol, key: Symbol, p: DataPoint, now: nat)
      modifies `points, `lastReading
      ensures Snapshot() == StorePoint(old(Snapshot()), dt, key, p, now)
    {
      var retained := RetainPoints(Get(points, (dt, key), []), dt, p.oracle, now);
      retained := EvictOldest(retained);
      points := points[(dt, key) := retained + [p]];
      lastReading := lastReading[(dt, key, p.oracle) := p.timestamp];
    }

    method AcceptOne(dt: Symbol, key: Symbol, p: DataPoint, now: nat) returns (ok: bool)
      modifies `reputation, `points, `lastReading, `staleCount, `stakes, `ledger, `log
      ensures Did(old(Snapshot()), AcceptReading(old(Snapshot()), dt, key, p, now), ok)
    {
      if p.confidence == 0 || p.confidence > 100 { return false; }
      if p.timestamp > SatAddU64(now, settings.futureBuffer) { return false; }
      if p.timestamp < SatSubU64(now, settings.maxTimestampAge) { return false; }
      if (dt, key, p.oracle) in lastReading && p.timestamp <= lastReading[(dt, key, p.oracle)] { return false; }
      var maxAge := Get(settings.typeMaxAge, dt, settings.maxAge);
      if SatSubU64(now, p.timestamp) > maxAge {
        ok := HandleStaleSubmission(p.oracle, dt);
        return;
      }
      StorePlainReading(dt, key, p, now);
      return true;
    }

    method EnforceRateLimit(oracle: Address, dt: Symbol, now: nat) returns (ok: bool)
      modifies `lastSubmission
      ensures Did(old(Snapshot()), RateLimited(old(Snapshot()), oracle, dt, now), ok)
    {
      var k := (dt, oracle);
      if k in lastSubmission && SatSubU64(now, lastSubmission[k]) < settings.minInterval { return false; }
      lastSubmission := lastSubmission[k := now];
      return true;
    }

    method ResetStaleCount(oracle: Address, dt: Symbol)
      modifies `staleCount
      ensures Snapshot() == ResetStale(old(Snapshot()), oracle, dt)
    {
      if (dt, oracle) in staleCount {
        staleCount := staleCount[(dt, oracle) := 0];
      }
    }

    method SubmitData(dt: Symbol, key: Symbol, p: DataPoint, now: nat, consistent: bool) returns (ok: bool)
      modifies this
      ensures Did(old(Snapshot()), OracleState.SubmitData(old(Snapshot()), dt, key, p, now, consistent), ok)
    {
      if Abs(p.value) > MAX_DATA_VALUE || Abs(p.value) > Get(settings.typeMaxValue, dt, MAX_DATA_VALUE) { return false; }
      if p.timestamp == 0 { return false; }
      if (dt, p.oracle) !in oracles || !oracles[(dt, p.oracle)].active { return false; }
      var isFresh := SatSubU64(now, p.timestamp) <= Get(settings.typeMaxAge, dt, settings.maxAge);
      if isFresh && !consistent { return false; }
      ghost var before := Snapshot();
      var submitted := lastSubmission;
      ok := EnforceRateLimit(p.oracle, dt, now);
      if !ok { return; }
      ok := AcceptOne(dt, key, p, now);
      if !ok {
        lastSubmission := submitted;
        assert Snapshot() == before;
        return;
      }
      if isFresh {
        ResetStaleCount(p.oracle, dt);
      }
    }

    /** The batch loop; when it stops early the caller undoes what it wrote. */
    method AcceptItems(entry: Entry, oracle: Address, dt: Symbol, items: seq<(Symbol, DataPoint)>, now: nat) returns (ok: bool)
      modifies `reputation, `points, `lastReading, `staleCount, `stakes, `ledger, `log
      ensures ok <==> AcceptAll(old(Snapshot()), entry, dt, items, oracle, now).Some?
      ensures ok ==> Snapshot() == AcceptAll(old(Snapshot()), entry, dt, items, oracle, now).value
    {
      ghost var goal := AcceptAll(Snapshot(), entry, dt, items, oracle, now);
      ok := true;
      for i := 0 to |items|
        invariant ok && goal == AcceptAll(Snapshot(), entry, dt, items[i..], oracle, now)
      {
        var (key, p) := items[i];
        assert items[i..][0] == items[i] && items[i..][1..] == items[i + 1..];
        if entry == Entry.SubmitDataBatch && p.timestamp == 0 { return false; }
        if entry == Entry.BatchSubmitData && (p.value > MAX_DATA_VALUE || p.value < -MAX_DATA_VALUE) { return false; }
        ok := AcceptOne(dt, key, p.(oracle := oracle), now);
        if !ok { return false; }
      }
    }

    /** What the host does with an aborted submission: everything it may have written is as before. */
    method Undo(s: Store, ghost log0: map<(Symbol, Address), Vaults.StakeLog>)
      modifies `reputation, `points, `lastReading, `lastSubmission, `staleCount, `stakes, `ledger, `log
      ensures reputation == s.reputation && points == s.points && lastReading == s.lastReading
      ensures lastSubmission == s.lastSubmission && staleCount == s.staleCount
      ensures stakes == s.vault.stakes && ledger == s.vault.ledger && log == log0
    {
      reputation, points, lastReading := s.reputation, s.points, s.lastReading;
      lastSubmission, staleCount := s.lastSubmission, s.staleCount;
      stakes, ledger, log := s.vault.stakes, s.vault.ledger, log0;
    }

    /** Charges the rate limit and takes all readings or none: an abort undoes what earlier readings wrote. */
    method AcceptBatch(entry: Entry, oracle: Address, dt: Symbol, items: seq<(Symbol, DataPoint)>, now: nat) returns (ok: bool)
      modifies `reputation, `points, `lastReading, `lastSubmission, `staleCount, `stakes, `ledger, `log
      ensures var limited := RateLimited(old(Snapshot()), oracle, dt, now);
        Did(old(Snapshot()), if limited.None? then None else AcceptAll(limited.value, entry, dt, items, oracle, now), ok)
    {
      var saved := Store(settings, Registry(oracles, globalOracles, oracleList),
                         Vaults.Vault(stakes, withdrawals, ledger, map[]),
                         reputation, points, lastReading, lastSubmission, staleCount);
      ghost var log0 := log;
      ok := EnforceRateLimit(oracle, dt, now);
      if !ok { return; }
      ok := AcceptItems(entry, oracle, dt, items, now);
      if !ok {
        Undo(saved, log0);
      }
    }

    method SubmitDataBatch(oracle: Address, dt: Symbol, items: seq<(Symbol, DataPoint)>, now: nat) returns (ok: bool)
      modifies `reputation, `points, `lastReading, `lastSubmission, `staleCount, `stakes, `ledger, `log
      ensures Did(old(Snapshot()), SubmitBatch(old(Snapshot()), Entry.SubmitDataBatch, dt, items, oracle, now), ok)
    {
      if (dt, oracle) !in oracles || !oracles[(dt, oracle)].active { return false; }
      ok := AcceptBatch(Entry.SubmitDataBatch, oracle, dt, items, now);
      if ok {
        ResetStaleCount(oracle, dt);
      }
    }

    method BatchSubmitData(oracle: Address, dt: Symbol, items: seq<(Symbol, DataPoint)>, now: nat) returns (ok: bool)
      modifies `reputation, `points, `lastReading, `lastSubmission, `staleCount, `stakes, `ledger, `log
      ensures Did(old(Snapshot()), SubmitBatch(old(Snapshot()), Entry.BatchSubmitData, dt, items, oracle, now), ok)
    {
      if (dt, oracle) !in oracles || !oracles[(dt, oracle)].active { return false; }
      ok := AcceptBatch(Entry.BatchSubmitData, oracle, dt, items, now);
    }

    /** What an encrypted submission does beside keeping its ciphertext. */
    method SubmitEncryptedData(dt: Symbol, oracle: Address, confidence: nat, timestamp: nat, now: nat) returns (ok: bool)
      modifies `reputation, `lastSubmission, `staleCount, `stakes, `ledger, `log
      ensures Did(old(Snapshot()), SubmitEncrypted(old(Snapshot()), dt, oracle, confidence, timestamp, now), ok)
    {
      if confidence == 0 || confidence > 100 || timestamp == 0 || timestamp > now { return false; }
      if timestamp < SatSubU64(now, NINETY_DAYS) { return false; }
      if (dt, oracle) !in oracles || !oracles[(dt, oracle)].active { return false; }
      var submitted := lastSubmission;
      ok := EnforceRateLimit(oracle, dt, now);
      if !ok { return; }
      if SatSubU64(now, timestamp) > Get(settings.typeMaxAge, dt, settings.maxAge) {
        ok := HandleStaleSubmission(oracle, dt);
        if !ok {
          lastSubmission := submitted;
        }
        return;
      }
      ResetStaleCount(oracle, dt);
    }

    method InvalidateData(dt: Symbol, key: Symbol)
      modifies `points
      ensures Snapshot() == Invalidate(old(Snapshot()), dt, key)
    {
      points := points - {(dt, key)};
    }

    // ----- Aggregation -----

    predicate IsOffline(dt: Symbol, oracle: Address, now: nat)
      reads this
    {
      && settings.inactivityLimit != 0
      && (dt, oracle) in lastSubmission
      && SatSubU64(now, lastSubmission[(dt, oracle)]) > settings.inactivityLimit
    }

    /** Whether a stored point counts, and with what weight. */
    method Weigh(p: DataPoint, dt: Symbol, now: nat, deciding: bool) returns (counts: bool, weight: nat)
      ensures counts <==> IsEligible(Snapshot(), dt, p, now)
      ensures counts ==> Median.Reading(p.value, weight) == WeighFn(Snapshot(), dt, deciding)(p)
    {
      if SatSubU64(now, p.timestamp) > Get(settings.typeMaxAge, dt, settings.maxAge) { return false, 0; }
      if p.confidence < settings.minConfidence || (dt, p.oracle) !in oracles { return false, 0; }
      var entry := oracles[(dt, p.oracle)];
      if !entry.active || IsOffline(dt, p.oracle, now) { return false, 0; }
      if !deciding { return true, entry.weight; }
      var rep := Get(reputation, (dt, p.oracle), DEFAULT_REPUTATION);
      return true, Max(entry.weight * rep.score / FULL_SCORE, 1);
    }

    /** Puts one more eligible reading into the buffers; `es` is what they hold so far. */
    static method Take(values: array<Median.Reading>, timestamps: array<nat>, n: nat, p: DataPoint, weight: nat,
        ghost es: seq<DataPoint>, ghost weigh: DataPoint -> Median.Reading)
      requires n == |es| && n < values.Length && n < timestamps.Length
      requires values[..n] == Map(es, weigh) && timestamps[..n] == Map(es, TimeFn())
      requires Median.Reading(p.value, weight) == weigh(p)
      modifies values, timestamps
      ensures values[..n + 1] == Map(es + [p], weigh) && timestamps[..n + 1] == Map(es + [p], TimeFn())
    {
      MapSnoc(es, p, weigh);
      MapSnoc(es, p, TimeFn());
      values[n] := Median.Reading(p.value, weight);
      timestamps[n] := p.timestamp;
    }

    /** Takes a stored point if it counts. */
    method Consider(values: array<Median.Reading>, timestamps: array<nat>, n: nat, p: DataPoint, dt: Symbol, now: nat,
        deciding: bool, ghost es: seq<DataPoint>, ghost eligible: DataPoint -> bool, ghost weigh: DataPoint -> Median.Reading)
      returns (m: nat)
      requires eligible == EligibleFn(Snapshot(), dt, now) && weigh == WeighFn(Snapshot(), dt, deciding)
      requires n == |es| && n < values.Length && n < timestamps.Length
      requires values[..n] == Map(es, weigh) && timestamps[..n] == Map(es, TimeFn())
      modifies values, timestamps
      ensures var taken := es + if eligible(p) then [p] else [];
        && m == |taken| <= values.Length && m <= timestamps.Length
        && values[..m] == Map(taken, weigh) && timestamps[..m] == Map(taken, TimeFn())
    {
      m := n;
      var counts, weight := Weigh(p, dt, now, deciding);
      if counts {
        Take(values, timestamps, n, p, weight, es, weigh);
        m := n + 1;
      } else {
        assert es + [] == es;
      }
    }

    /** Fills the buffers with the points that count. */
    method Gather(values: array<Median.Reading>, timestamps: array<nat>, capped: seq<DataPoint>, dt: Symbol, now: nat, deciding: bool)
      returns (n: nat)
      requires |capped| <= values.Length == timestamps.Length
      modifies values, timestamps
      ensures n <= values.Length
      ensures values[..n] == Map(Filter(capped, EligibleFn(Snapshot(), dt, now)), WeighFn(Snapshot(), dt, deciding))
      ensures timestamps[..n] == Map(Filter(capped, EligibleFn(Snapshot(), dt, now)), TimeFn())
    {
      n := 0;
      ghost var es := [];
      ghost var eligible, weigh := EligibleFn(Snapshot(), dt, now), WeighFn(Snapshot(), dt, deciding);
      for i := 0 to |capped|
        invariant eligible == EligibleFn(Snapshot(), dt, now) && weigh == WeighFn(Snapshot(), dt, deciding)
        invariant es == Filter(capped[..i], eligible) && n == |es| <= i
        invariant values[..n] == Map(es, weigh)
        invariant timestamps[..n] == Map(es, TimeFn())
      {
        FilterNext(capped, i, eligible);
        n := Consider(values, timestamps, n, capped[i], dt, now, deciding, es, eligible, weigh);
        es := es + if eligible(capped[i]) then [capped[i]] else [];
      }
      assert capped[..|capped|] == capped;
    }

    /** Collects the eligible readings into the stack buffers, weighing them by reputation-adjusted weight
        for a decision and by registered weight for a report. */
    method Collect(stored: seq<DataPoint>, dt: Symbol, now: nat, deciding: bool)
      returns (values: array<Median.Reading>, timestamps: array<nat>, n: nat)
      ensures fresh(values) && fresh(timestamps) && n <= MAX_DATA_POINTS == values.Length == timestamps.Length
      ensures values[..n] == Map(Eligible(Snapshot(), dt, stored, now), WeighFn(Snapshot(), dt, deciding))
      ensures timestamps[..n] == Map(Eligible(Snapshot(), dt, stored, now), TimeFn())
    {
      values := new Median.Reading[MAX_DATA_POINTS](_ => Median.Reading(0, 0));
      timestamps := new nat[MAX_DATA_POINTS](_ => 0);
      n := Gather(values, timestamps, stored[..Min(|stored|, MAX_DATA_POINTS)], dt, now, deciding);
    }

    method SumWeights(rs: seq<Median.Reading>) returns (total: nat)
      ensures total == Median.TotalWeight(rs)
    {
      total := 0;
      for i := 0 to |rs|
        invariant total == Median.TotalWeight(rs[..i])
      {
        Median.TotalWeightSnoc(rs, i);
        total := total + rs[i].weight;
      }
      assert rs[..|rs|] == rs;
    }

    /** None when the midpoint of the median overflows. */
    method Dispatch(how: Method, values: array<Median.Reading>, timestamps: seq<nat>, n: nat, totalWeight: nat, now: nat)
      returns (value: Option<int>)
      requires 0 < n <= values.Length && |timestamps| == n
      requires Median.Positive(values[..n]) && totalWeight == Median.TotalWeight(values[..n])
      modifies values
      ensures value.Some? <==> AggregateFits(how, old(values[..n]))
      ensures value.Some? ==> value.value == Aggregate(how, old(values[..n]), timestamps, now)
    {
      var live := values[..n];
      Median.SortedReadings(live);
      match how {
        case WeightedMedian =>
          value := Median.ComputeWeightedMedian(values, n, totalWeight);
          if value.Some? {
            Median.WeightedMedianUnique(live, value.value, MedianOf(live));
          }
        case WeightedAverage =>
          var average := ComputeWeightedAverage(live, totalWeight);
          value := Some(average);
        case Mean =>
          var average := ComputeMean(live);
          value := Some(average);
        case TimeWeightedAverage =>
          var average := ComputeTimeWeighted(live, timestamps, now);
          value := Some(average);
      }
    }

    /** Filters, checks that enough is left, and dispatches on the configured method. */
    method Conclude(values: array<Median.Reading>, timestamps: array<nat>, n: nat, dt: Symbol, now: nat)
      returns (r: Option<int>)
      requires n <= values.Length && n <= timestamps.Length && n <= MAX_DATA_POINTS
      requires Median.Positive(values[..n])
      modifies values, timestamps
      ensures r == Settle(old(Snapshot()), dt, old(values[..n]), old(timestamps[..n]), now)
    {
      ghost var rs, ts := values[..n], timestamps[..n];
      var cfg := Get(settings.outliers, dt, DEFAULT_OUTLIERS);
      var ok, kept := FilterOutliers(cfg, values, timestamps, n);
      if !ok { return None; }
      KeptPositive(rs, Outliers(cfg, rs));
      KeepSameLength(rs, ts, Outliers(cfg, rs));
      var totalWeight := SumWeights(values[..kept]);
      if kept > 0 { Median.SortedReadings(values[..kept]); }
      if kept < settings.minOracleCount || kept == 0 || totalWeight == 0 { return None; }
      r := Dispatch(Get(settings.methods, dt, WeightedMedian), values, timestamps[..kept], kept, totalWeight, now);
    }

    /** The value claims are decided by; None is an abort. */
    method GetMedianValue(dt: Symbol, key: Symbol, now: nat) returns (r: Option<int>)
      ensures r == Decide(Snapshot(), dt, Get(points, (dt, key), []), now)
    {
      var stored := Get(points, (dt, key), []);
      var values, timestamps, n := Collect(stored, dt, now, true);
      DecidingPositive(Snapshot(), dt, stored, now);
      r := Conclude(values, timestamps, n, dt, now);
    }

    /** The `median_value` of `get_aggregated`. */
    method GetAggregatedValue(dt: Symbol, key: Symbol, now: nat) returns (r: Option<int>)
      requires Consistent(Snapshot().registry)
      ensures r == Report(Snapshot(), dt, Get(points, (dt, key), []), now)
    {
      var stored := Get(points, (dt, key), []);
      var values, timestamps, n := Collect(stored, dt, now, false);
      ReportingPositive(Snapshot(), dt, stored, now);
      r := Conclude(values, timestamps, n, dt, now);
    }
  }
}
