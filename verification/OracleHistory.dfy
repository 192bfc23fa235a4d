/** What later calls remember of earlier ones: accuracy reports, withdrawn requests, invalidated readings. */
module OracleHistory {
  import opened Arithmetic
  import opened Sequences
  import opened Ledger
  import opened OracleRegistry
  import opened OracleState
  import opened OracleRuns
  import opened Consensus
  import Vaults = OracleVault

  // ----- Accuracy -----

  /** The accuracy reports on an oracle in a run, and how many of them were favourable. */
  function Reports(ops: seq<Op>, oracle: Address, dt: Symbol): seq<bool> {
    if ops == [] then []
    else
      var last := ops[|ops| - 1];
      Reports(ops[..|ops| - 1], oracle, dt)
      + if last.OpUpdateReputation? && last.oracle == oracle && last.dt == dt then [last.accurate] else []
  }

  function Favourable(reports: seq<bool>): nat {
    if reports == [] then 0 else Favourable(reports[..|reports| - 1]) + if reports[|reports| - 1] then 1 else 0
  }

  lemma FavourableSnoc(reports: seq<bool>, accurate: bool)
    ensures Favourable(reports + [accurate]) == Favourable(reports) + if accurate then 1 else 0
  {
    assert (reports + [accurate])[..|reports|] == reports;
  }

  /** The counts behind a score are the same. */
  ghost predicate SameCounts(s: Store, t: Store) {
    forall o, dt :: ReputationOf(t, o, dt).total == ReputationOf(s, o, dt).total
                    && ReputationOf(t, o, dt).accurate == ReputationOf(s, o, dt).accurate
  }

  lemma StaleKeepsCounts(s: Store, oracle: Address, dt: Symbol)
    requires HandleStale(s, oracle, dt).Some?
    ensures SameCounts(s, HandleStale(s, oracle, dt).value)
  {
  }

  lemma AcceptKeepsCounts(s: Store, dt: Symbol, key: Symbol, p: DataPoint, now: nat)
    requires AcceptReading(s, dt, key, p, now).Some?
    ensures SameCounts(s, AcceptReading(s, dt, key, p, now).value)
  {
    if SatSubU64(now, p.timestamp) > EffectiveMaxAge(s, dt) {
      StaleKeepsCounts(s, p.oracle, dt);
    }
  }

  lemma {:induction false} AcceptAllKeepsCounts(s: Store, entry: Entry, dt: Symbol, items: seq<(Symbol, DataPoint)>,
      oracle: Address, now: nat)
    requires AcceptAll(s, entry, dt, items, oracle, now).Some?
    ensures SameCounts(s, AcceptAll(s, entry, dt, items, oracle, now).value)
    decreases |items|
  {
    if items != [] {
      var (key, p) := items[0];
      var next := AcceptReading(s, dt, key, p.(oracle := oracle), now).value;
      AcceptKeepsCounts(s, dt, key, p.(oracle := oracle), now);
      AcceptAllKeepsCounts(next, entry, dt, items[1..], oracle, now);
    }
  }

  lemma SubmitKeepsCounts(s: Store, dt: Symbol, key: Symbol, p: DataPoint, now: nat, consistent: bool)
    requires SubmitData(s, dt, key, p, now, consistent).Some?
    ensures SameCounts(s, SubmitData(s, dt, key, p, now, consistent).value)
  {
    AcceptKeepsCounts(RateLimited(s, p.oracle, dt, now).value, dt, key, p, now);
  }

  lemma EncryptedKeepsCounts(s: Store, dt: Symbol, oracle: Address, confidence: nat, timestamp: nat, now: nat)
    requires SubmitEncrypted(s, dt, oracle, confidence, timestamp, now).Some?
    ensures SameCounts(s, SubmitEncrypted(s, dt, oracle, confidence, timestamp, now).value)
  {
    var limited := RateLimited(s, oracle, dt, now).value;
    if SatSubU64(now, timestamp) > EffectiveMaxAge(s, dt) {
      StaleKeepsCounts(limited, oracle, dt);
    }
  }

  lemma BatchKeepsCounts(s: Store, entry: Entry, dt: Symbol, items: seq<(Symbol, DataPoint)>, oracle: Address, now: nat)
    requires SubmitBatch(s, entry, dt, items, oracle, now).Some?
    ensures SameCounts(s, SubmitBatch(s, entry, dt, items, oracle, now).value)
  {
    var limited := RateLimited(s, oracle, dt, now).value;
    AcceptAllKeepsCounts(limited, entry, dt, items, oracle, now);
    CountsCarryOver(s, limited, AcceptAll(limited, entry, dt, items, oracle, now).value, SubmitBatch(s, entry, dt,
        items, oracle, now).value);
  }

  lemma CountsCarryOver(s: Store, t: Store, u: Store, v: Store)
    requires SameCounts(t, u) && s.reputation == t.reputation && u.reputation == v.reputation
    ensures SameCounts(s, v)
  {
    forall o, dt
      ensures ReputationOf(v, o, dt).total == ReputationOf(s, o, dt).total
          && ReputationOf(v, o, dt).accurate == ReputationOf(s, o, dt).accurate
    {
      assert ReputationOf(u, o, dt).total == ReputationOf(t, o, dt).total;
    }
  }

  lemma SubmissionsKeepCounts(s: Store, op: Op)
    requires op.OpSubmit? || op.OpSubmitBatch? || op.OpSubmitEncrypted?
    ensures SameCounts(s, Step(s, op))
  {
    if Try(s, op).Some? {
      if op.OpSubmit? {
        SubmitKeepsCounts(s, op.dt, op.key, op.p, op.now, op.consistent);
      } else if op.OpSubmitEncrypted? {
        EncryptedKeepsCounts(s, op.dt, op.oracle, op.confidence, op.timestamp, op.now);
      } else {
        BatchKeepsCounts(s, op.entry, op.dt, op.items, op.oracle, op.now);
      }
    }
  }

  lemma OthersKeepCounts(s: Store, op: Op)
    requires !op.OpUpdateReputation? && !op.OpSubmit? && !op.OpSubmitBatch? && !op.OpSubmitEncrypted?
    ensures SameCounts(s, Step(s, op))
  {
  }

  lemma ReportCounts(s: Store, oracle: Address, dt: Symbol, accurate: bool, n: nat, good: nat)
    requires ReputationOf(s, oracle, dt).total == n && ReputationOf(s, oracle, dt).accurate == good
    ensures var better := good + if accurate then 1 else 0;
      ReputationOf(OracleState.UpdateReputation(s, oracle, dt, accurate), oracle, dt)
      == Reputation(n + 1, better, FULL_SCORE * better / (n + 1))
  {
    var better := good + if accurate then 1 else 0;
    assert better * FULL_SCORE == FULL_SCORE * better;
  }

  predicate IsReport(op: Op, oracle: Address, dt: Symbol) {
    op.OpUpdateReputation? && op.oracle == oracle && op.dt == dt
  }

  lemma StepCounts(s: Store, op: Op, oracle: Address, dt: Symbol)
    requires !IsReport(op, oracle, dt)
    ensures ReputationOf(Step(s, op), oracle, dt).total == ReputationOf(s, oracle, dt).total
    ensures ReputationOf(Step(s, op), oracle, dt).accurate == ReputationOf(s, oracle, dt).accurate
  {
    if op.OpSubmit? || op.OpSubmitBatch? || op.OpSubmitEncrypted? {
      SubmissionsKeepCounts(s, op);
    } else if !op.OpUpdateReputation? {
      OthersKeepCounts(s, op);
    }
  }

  /** In every run the counts are exactly the accuracy reports so far: neither the admin's overrides nor penalties
      for stale submissions enter them. */
  lemma {:induction false} CountsAreReports(settings: Settings, ledger: map<Address, int>, ops: seq<Op>, oracle: Address, dt: Symbol)
    ensures var rep, reports := ReputationOf(Run(Deployed(settings, ledger), ops), oracle, dt), Reports(ops, oracle, dt);
      rep.total == |reports| && rep.accurate == Favourable(reports)
  {
    if ops != [] {
      var init, op := ops[..|ops| - 1], ops[|ops| - 1];
      var s, before := Run(Deployed(settings, ledger), init), Reports(init, oracle, dt);
      CountsAreReports(settings, ledger, init, oracle, dt);
      if IsReport(op, oracle, dt) {
        FavourableSnoc(before, op.accurate);
        ReportCounts(s, oracle, dt, op.accurate, |before|, Favourable(before));
      } else {
        assert Reports(ops, oracle, dt) == before;
        StepCounts(s, op, oracle, dt);
      }
    }
  }

  /** So after a report the score is the share of favourable reports in thousandths, whatever override or penalty
      had been in force: both last until the next report only. */
  lemma ScoreAfterReport(settings: Settings, ledger: map<Address, int>, ops: seq<Op>, oracle: Address, dt: Symbol, accurate: bool)
    ensures var s, reports := Run(Deployed(settings, ledger), ops), Reports(ops, oracle, dt) + [accurate];
      ReputationOf(Step(s, OpUpdateReputation(oracle, dt, accurate)), oracle, dt)
      == Reputation(|reports|, Favourable(reports), FULL_SCORE * Favourable(reports) / |reports|)
  {
    var s, before := Run(Deployed(settings, ledger), ops), Reports(ops, oracle, dt);
    CountsAreReports(settings, ledger, ops, oracle, dt);
    FavourableSnoc(before, accurate);
    ReportCounts(s, oracle, dt, accurate, |before|, Favourable(before));
  }

  // ----- Withdrawal requests -----

  /** Taking a request back restores stakes, requests and balances, and a new one waits the whole period again. */
  lemma CancelUndoesRequest(s: Store, oracle: Address, dt: Symbol, now: nat, later: nat)
    requires RequestWithdrawal(s, oracle, dt, now).Some?
    ensures Try(RequestWithdrawal(s, oracle, dt, now).value, OpCancelWithdrawal(oracle, dt)).Some?
    ensures var t := Try(RequestWithdrawal(s, oracle, dt, now).value, OpCancelWithdrawal(oracle, dt)).value;
      && t == s.(vault := s.vault.(log := t.vault.log))
      && RequestWithdrawal(t, oracle, dt, later).Some?
      && forall at: nat :: at < SatAddU64(later, s.settings.challengePeriod) ==>
           WithdrawStake(RequestWithdrawal(t, oracle, dt, later).value, oracle, dt, at).None?
  {
    var requested := RequestWithdrawal(s, oracle, dt, now).value;
    assert requested.vault.withdrawals - {(dt, oracle)} == s.vault.withdrawals;
  }

  // ----- Invalidated readings -----

  /** Invalidating a stream leaves nothing to decide by, but it forgets no times: in every later run a reading as old
      as one accepted before stays refused. */
  lemma InvalidatedButNotForgotten(s: Store, dt: Symbol, key: Symbol, now: nat, ops: seq<Op>, p: DataPoint, consistent: bool)
    ensures Decide(Invalidate(s, dt, key), dt, PointsOf(Invalidate(s, dt, key), dt, key), now) == None
    ensures (dt, key, p.oracle) in s.lastReading && p.timestamp <= s.lastReading[(dt, key, p.oracle)] ==>
              SubmitData(Run(Invalidate(s, dt, key), ops), dt, key, p, now, consistent).None?
  {
    var t := Invalidate(s, dt, key);
    assert Eligible(t, dt, PointsOf(t, dt, key), now) == [];
    if (dt, key, p.oracle) in s.lastReading && p.timestamp <= s.lastReading[(dt, key, p.oracle)] {
      ReplayRejected(t, ops, dt, key, p, now, consistent, SubmitDataBatch, []);
    }
  }
}
