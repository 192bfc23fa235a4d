/** Exactly when the oracle verifier accepts a registration, a reading or a request about a stake, in terms of what is
    stored, and all that the call changes. */
module OracleAdmission {
  import opened Arithmetic
  import opened Sequences
  import opened Ledger
  import opened OracleRegistry
  import opened OracleState
  import opened OracleRuns
  import opened Eligibility
  import Vaults = OracleVault

  // ----- Registration -----

  /** An oracle is registered exactly with a weight of 1 to 100000, when neither this data type nor any other knows it,
      fewer than ten serve the data type, and a required minimum is staked. */
  lemma AddExact(s: Store, oracle: Address, dt: Symbol, weight: nat)
    requires Consistent(s.registry)
    ensures AddOracle(s, oracle, dt, weight).Some? <==>
            && 1 <= weight <= 100_000 && (dt, oracle) !in s.registry.oracles && oracle !in s.registry.globalOracles
            && |ListOf(s.registry, dt)| < 10
            && (s.settings.minStake > 0 ==> Vaults.Staked(s.vault, (dt, oracle)) >= s.settings.minStake)
    ensures AddOracle(s, oracle, dt, weight).Some? ==>
              var t := AddOracle(s, oracle, dt, weight).value;
              && t == s.(registry := t.registry)
              && t.registry.oracles == s.registry.oracles[(dt, oracle) := OracleEntry(weight, true)]
              && t.registry.globalOracles == s.registry.globalOracles + {oracle}
              && ListOf(t.registry, dt) == ListOf(s.registry, dt) + [oracle]
              && (forall d :: d != dt ==> ListOf(t.registry, d) == ListOf(s.registry, d))
  {
    assert ListExact(s.registry, dt);
    assert oracle in ListOf(s.registry, dt) <==> IsActive(s.registry, dt, oracle);
  }

  /** A new weight is accepted for any registered oracle, in the same range, and changes nothing else. Removal marks a
      registered oracle inactive, frees its address and takes it off the list. */
  lemma RegistryExact(r: Registry, oracle: Address, dt: Symbol, weight: nat)
    ensures UpdateWeight(r, oracle, dt, weight).Some? <==> 1 <= weight <= 100_000 && (dt, oracle) in r.oracles
    ensures UpdateWeight(r, oracle, dt, weight).Some? ==>
              UpdateWeight(r, oracle, dt, weight).value
              == r.(oracles := r.oracles[(dt, oracle) := OracleEntry(weight, r.oracles[(dt, oracle)].active)])
    ensures Deactivate(r, oracle, dt).Some? <==> (dt, oracle) in r.oracles
    ensures Deactivate(r, oracle, dt).Some? ==>
              var t := Deactivate(r, oracle, dt).value;
              && t.oracles == r.oracles[(dt, oracle) := OracleEntry(r.oracles[(dt, oracle)].weight, false)]
              && t.globalOracles == r.globalOracles - {oracle}
              && (forall a :: a in ListOf(t, dt) <==> a in ListOf(r, dt) && a != oracle)
              && (forall d :: d != dt ==> ListOf(t, d) == ListOf(r, d))
  {
  }

  // ----- Stakes -----

  /** A stake is requested back only when its oracle does not serve, to be paid after the challenge period; it is paid
      only then as well. */
  lemma StakeRequestsExact(s: Store, oracle: Address, dt: Symbol, now: nat)
    ensures RequestWithdrawal(s, oracle, dt, now).Some? <==>
            NotServing(s, dt, oracle) && Vaults.Staked(s.vault, (dt, oracle)) > 0 && (dt, oracle) !in s.vault.withdrawals
    ensures RequestWithdrawal(s, oracle, dt, now).Some? ==>
              var t := RequestWithdrawal(s, oracle, dt, now).value;
              && t == s.(vault := t.vault)
              && t.vault.withdrawals == s.vault.withdrawals[(dt, oracle) := Vaults.WithdrawalRequest(
                   Vaults.Staked(s.vault, (dt, oracle)), Min(now + s.settings.challengePeriod, U64_MAX))]
              && t.vault.stakes == s.vault.stakes && t.vault.ledger == s.vault.ledger
    ensures WithdrawStake(s, oracle, dt, now).Some? <==>
            NotServing(s, dt, oracle) && Vaults.Withdraw(s.vault, (dt, oracle), now).Some?
    ensures WithdrawStake(s, oracle, dt, now).Some? ==>
              WithdrawStake(s, oracle, dt, now).value == s.(vault := Vaults.Withdraw(s.vault, (dt, oracle), now).value)
  {
    Vaults.RequestExact(s.vault, (dt, oracle), Min(now + s.settings.challengePeriod, U64_MAX));
  }

  /** A slash by the admin also takes an oracle out of service whose stake fell below a required minimum; its address
      stays taken. */
  lemma SlashOracleExact(s: Store, oracle: Address, dt: Symbol, amount: int)
    requires Vaults.Conserved(s.vault)
    ensures SlashOracle(s, oracle, dt, amount).Some? <==> amount > 0 && Vaults.Staked(s.vault, (dt, oracle)) > 0
    ensures SlashOracle(s, oracle, dt, amount).Some? ==>
              var t := SlashOracle(s, oracle, dt, amount).value;
              && t == s.(vault := t.vault, registry := t.registry)
              && Vaults.Slash(s.vault, (dt, oracle), amount, s.settings.treasury) == Some(t.vault)
              && t.registry.globalOracles == s.registry.globalOracles
              && (s.settings.minStake > 0 && Vaults.Staked(t.vault, (dt, oracle)) < s.settings.minStake ==> NotServing(t, dt, oracle))
              && (s.settings.minStake <= 0 || Vaults.Staked(t.vault, (dt, oracle)) >= s.settings.minStake ==> t.registry == s.registry)
              && (forall d: Symbol, a: Address :: (d, a) != (dt, oracle) ==> (NotServing(t, d, a) <==> NotServing(s, d, a)))
  {
    Vaults.SlashExact(s.vault, (dt, oracle), amount, s.settings.treasury);
  }

  // ----- Stale submissions -----

  /** Every stale submission is counted. From the configured threshold on the penalty falls due: stake and score shrink
      by the configured amounts as far as they reach, and the count starts over. */
  lemma StaleExact(s: Store, oracle: Address, dt: Symbol)
    requires Vaults.Conserved(s.vault)
    ensures HandleStale(s, oracle, dt).Some?
    ensures var t, k := HandleStale(s, oracle, dt).value, (dt, oracle);
      var count := Min((if k in s.staleCount then s.staleCount[k] else 0) + 1, 0xFFFF_FFFF);
      if s.settings.staleThreshold == 0 || count < s.settings.staleThreshold then t == s.(staleCount := s.staleCount[k := count])
      else
        && t == s.(vault := t.vault, reputation := t.reputation, staleCount := s.staleCount[k := 0])
        && Vaults.StaleSlash(s.vault, k, s.settings.staleSlash, s.settings.treasury) == Some(t.vault)
        && (forall j :: j != k ==> (j in t.reputation <==> j in s.reputation) && (j in s.reputation ==> t.reputation[j] == s.reputation[j]))
        && ScoreOf(t, k) == Max(ScoreOf(s, k) - s.settings.stalePenalty, 0)
        && (s.settings.stalePenalty == 0 ==> t.reputation == s.reputation)
  {
    Vaults.StaleSlashExact(s.vault, (dt, oracle), s.settings.staleSlash, s.settings.treasury);
  }

  /** The score of an oracle, 500 for one never scored. */
  function ScoreOf(s: Store, k: Vaults.Key): int {
    if k in s.reputation then s.reputation[k].score else 500
  }

  /** An override is accepted up to 1000 and replaces the score alone. */
  lemma SetReputationExact(s: Store, oracle: Address, dt: Symbol, score: nat)
    ensures SetReputation(s, oracle, dt, score).Some? <==> score <= 1_000
    ensures SetReputation(s, oracle, dt, score).Some? ==>
              var t, k := SetReputation(s, oracle, dt, score).value, (dt, oracle);
              && t == s.(reputation := s.reputation[k := t.reputation[k]]) && ScoreOf(t, k) == score
              && t.reputation[k].total == (if k in s.reputation then s.reputation[k].total else 0)
              && t.reputation[k].accurate == (if k in s.reputation then s.reputation[k].accurate else 0)
  {
  }

  // ----- Readings -----

  /** The oracle last submitted for the data type at least the minimum interval ago. */
  predicate RateOk(s: Store, oracle: Address, dt: Symbol, now: nat) {
    (dt, oracle) in s.lastSubmission ==> Max(now - s.lastSubmission[(dt, oracle)], 0) >= s.settings.minInterval
  }

  /** A confidence of 1 to 100, a time within the allowed distance of now on either side, and later than what this
      oracle last reported for the stream. */
  predicate ReadingOk(s: Store, dt: Symbol, key: Symbol, p: DataPoint, now: nat) {
    && 1 <= p.confidence <= 100
    && p.timestamp <= Min(now + s.settings.futureBuffer, U64_MAX) && p.timestamp >= now - s.settings.maxTimestampAge
    && ((dt, key, p.oracle) in s.lastReading ==> p.timestamp > s.lastReading[(dt, key, p.oracle)])
  }

  /** The readings that stay when `oracle` reports: those of other oracles still serving that are not too old. */
  function StaysFn(s: Store, dt: Symbol, oracle: Address, now: nat): DataPoint -> bool {
    (q: DataPoint) => q.oracle != oracle && !TooOld(s, dt, q, now) && !NotServing(s, dt, q.oracle)
  }

  /** A stored reading is the newest of its stream, behind those that stay, and its time is remembered. */
  ghost predicate StoredWith(s: Store, t: Store, dt: Symbol, key: Symbol, p: DataPoint, now: nat) {
    && t == s.(points := t.points, lastReading := s.lastReading[(dt, key, p.oracle) := p.timestamp])
    && PointsOf(t, dt, key) == Filter(PointsOf(s, dt, key), StaysFn(s, dt, p.oracle, now)) + [p]
    && t.points == s.points[(dt, key) := PointsOf(t, dt, key)]
  }

  lemma StoreExact(s: Store, dt: Symbol, key: Symbol, p: DataPoint, now: nat)
    requires Sound(s) && !NotServing(s, dt, p.oracle)
    ensures StoredWith(s, StorePoint(s, dt, key, p, now), dt, key, p, now)
  {
    assert StreamSound(s, dt, key);
    RoomForOneMore(s, dt, key, p, now);
    FilterAgree(PointsOf(s, dt, key), RetainFn(s, dt, p.oracle, now), StaysFn(s, dt, p.oracle, now));
  }

  /** A reading past the rate limit is accepted exactly when it is in order; a stale one is only counted, any other is
      stored. */
  lemma AcceptExact(s: Store, dt: Symbol, key: Symbol, p: DataPoint, now: nat)
    requires Vaults.Conserved(s.vault)
    ensures AcceptReading(s, dt, key, p, now).Some? <==> ReadingOk(s, dt, key, p, now)
    ensures ReadingOk(s, dt, key, p, now) && TooOld(s, dt, p, now) ==>
              AcceptReading(s, dt, key, p, now) == HandleStale(s, p.oracle, dt)
    ensures ReadingOk(s, dt, key, p, now) && !TooOld(s, dt, p, now) ==>
              AcceptReading(s, dt, key, p, now) == Some(StorePoint(s, dt, key, p, now))
  {
    StaleExact(s, p.oracle, dt);
  }

  /** After any accepted submission the count of stale ones starts over, if it had begun. */
  function CountCleared(s: Store, oracle: Address, dt: Symbol): map<(Symbol, Address), nat> {
    if (dt, oracle) in s.staleCount then s.staleCount[(dt, oracle) := 0] else s.staleCount
  }

  /** The value is within 10^27 and within the limit of its data type. */
  predicate ValueOk(s: Store, dt: Symbol, value: int) {
    && -1_000_000_000_000_000_000_000_000_000 <= value <= 1_000_000_000_000_000_000_000_000_000
    && (dt in s.settings.typeMaxValue ==> -s.settings.typeMaxValue[dt] <= value <= s.settings.typeMaxValue[dt])
  }

  function Charged(s: Store, oracle: Address, dt: Symbol, now: nat): Store {
    s.(lastSubmission := s.lastSubmission[(dt, oracle) := now])
  }

  /** A single submission is accepted exactly when its value is in range, its time is not zero, its oracle serves and is
      within the rate limit, the reading is in order and, unless it is stale, agrees with other feeds. It is charged to
      the rate limit. A stale one is then only counted; any other is stored and clears that count. */
  lemma SubmitExact(s: Store, dt: Symbol, key: Symbol, p: DataPoint, now: nat, consistent: bool)
    requires Sound(s)
    ensures SubmitData(s, dt, key, p, now, consistent).Some? <==>
            && ValueOk(s, dt, p.value) && p.timestamp > 0 && !NotServing(s, dt, p.oracle) && RateOk(s, p.oracle, dt, now)
            && ReadingOk(s, dt, key, p, now) && (TooOld(s, dt, p, now) || consistent)
    ensures SubmitData(s, dt, key, p, now, consistent).Some? && TooOld(s, dt, p, now) ==>
              SubmitData(s, dt, key, p, now, consistent) == HandleStale(Charged(s, p.oracle, dt, now), p.oracle, dt)
    ensures SubmitData(s, dt, key, p, now, consistent).Some? && !TooOld(s, dt, p, now) ==>
              var t := SubmitData(s, dt, key, p, now, consistent).value;
              && t.staleCount == CountCleared(s, p.oracle, dt)
              && StoredWith(Charged(s, p.oracle, dt, now), t.(staleCount := s.staleCount), dt, key, p, now)
  {
    var charged := Charged(s, p.oracle, dt, now);
    assert RateOk(s, p.oracle, dt, now) <==> RateLimited(s, p.oracle, dt, now) == Some(charged);
    AcceptExact(charged, dt, key, p, now);
    SameStreamsSound(s, charged);
    if !NotServing(s, dt, p.oracle) {
      StoreExact(charged, dt, key, p, now);
    }
  }

  /** An encrypted submission is accepted exactly with a confidence of 1 to 100 and a time that is not zero, not in the
      future and at most 90 days old, from an oracle that serves and is within the rate limit. A stale one is counted,
      any other clears that count; no reading is stored and none is refused as a replay. */
  lemma EncryptedExact(s: Store, dt: Symbol, oracle: Address, confidence: nat, timestamp: nat, now: nat)
    requires Sound(s)
    ensures SubmitEncrypted(s, dt, oracle, confidence, timestamp, now).Some? <==>
            && 1 <= confidence <= 100 && 0 < timestamp <= now && timestamp >= now - 7_776_000
            && !NotServing(s, dt, oracle) && RateOk(s, oracle, dt, now)
    ensures SubmitEncrypted(s, dt, oracle, confidence, timestamp, now).Some? ==>
              SubmitEncrypted(s, dt, oracle, confidence, timestamp, now) ==
              if TooOld(s, dt, DataPoint(oracle, 0, confidence, timestamp), now) then HandleStale(Charged(s, oracle, dt, now), oracle, dt)
              else Some(Charged(s, oracle, dt, now).(staleCount := CountCleared(s, oracle, dt)))
  {
    var charged := Charged(s, oracle, dt, now);
    assert RateOk(s, oracle, dt, now) <==> RateLimited(s, oracle, dt, now) == Some(charged);
    StaleExact(charged, oracle, dt);
  }

  // ----- Batches -----

  type Items = seq<(Symbol, DataPoint)>

  /** `submit_data_batch` wants a time, `batch_submit_data` a value within 10^27. */
  predicate ItemOk(entry: Entry, p: DataPoint) {
    match entry
    case SubmitDataBatch => p.timestamp > 0
    case BatchSubmitData => -1_000_000_000_000_000_000_000_000_000 <= p.value <= 1_000_000_000_000_000_000_000_000_000
  }

  function ItemAt(items: Items, oracle: Address, i: nat): DataPoint
    requires i < |items|
  {
    items[i].1.(oracle := oracle)
  }

  /** Item `i` is in order, and later than all items before it that the batch stores in the same stream. */
  ghost predicate ItemFits(s: Store, entry: Entry, dt: Symbol, items: Items, oracle: Address, now: nat, i: nat)
    requires i < |items|
  {
    && ItemOk(entry, items[i].1) && ReadingOk(s, dt, items[i].0, ItemAt(items, oracle, i), now)
    && forall j :: 0 <= j < i && items[j].0 == items[i].0 && !TooOld(s, dt, ItemAt(items, oracle, j), now) ==>
         items[j].1.timestamp < items[i].1.timestamp
  }

  ghost predicate AllFit(s: Store, entry: Entry, dt: Symbol, items: Items, oracle: Address, now: nat) {
    forall i :: 0 <= i < |items| ==> ItemFits(s, entry, dt, items, oracle, now, i)
  }

  lemma StaleKeepsConserved(s: Store, oracle: Address, dt: Symbol)
    requires Vaults.Conserved(s.vault)
    ensures HandleStale(s, oracle, dt).Some?
    ensures var t := HandleStale(s, oracle, dt).value;
      Vaults.Conserved(t.vault) && t.settings == s.settings && t.lastReading == s.lastReading
  {
    StaleExact(s, oracle, dt);
    Vaults.StaleSlashExact(s.vault, (dt, oracle), s.settings.staleSlash, s.settings.treasury);
    Vaults.StaleSlashConserves(s.vault, (dt, oracle), s.settings.staleSlash, s.settings.treasury);
  }

  /** After an accepted reading the next ones have to be later, if it was stored in their stream. */
  lemma ReadingAfter(s: Store, dt: Symbol, key: Symbol, p: DataPoint, now: nat, k: Symbol, q: DataPoint)
    requires Vaults.Conserved(s.vault) && ReadingOk(s, dt, key, p, now) && q.oracle == p.oracle
    ensures AcceptReading(s, dt, key, p, now).Some?
    ensures var t := AcceptReading(s, dt, key, p, now).value;
      && t.settings == s.settings && Vaults.Conserved(t.vault)
      && (ReadingOk(t, dt, k, q, now) <==>
            ReadingOk(s, dt, k, q, now) && (k == key && !TooOld(s, dt, p, now) ==> p.timestamp < q.timestamp))
  {
    AcceptExact(s, dt, key, p, now);
    if TooOld(s, dt, p, now) {
      StaleKeepsConserved(s, p.oracle, dt);
    }
  }

  lemma RestFits(s: Store, t: Store, entry: Entry, dt: Symbol, items: Items, oracle: Address, now: nat, i: nat)
    requires Vaults.Conserved(s.vault) && i + 1 < |items| && ReadingOk(s, dt, items[0].0, ItemAt(items, oracle, 0), now)
    requires AcceptReading(s, dt, items[0].0, ItemAt(items, oracle, 0), now) == Some(t)
    ensures ItemFits(t, entry, dt, items[1..], oracle, now, i) <==> ItemFits(s, entry, dt, items, oracle, now, i + 1)
  {
    var rest := items[1..];
    ReadingAfter(s, dt, items[0].0, ItemAt(items, oracle, 0), now, items[i + 1].0, ItemAt(items, oracle, i + 1));
    assert forall j :: 0 <= j < |rest| ==> rest[j] == items[j + 1] && ItemAt(rest, oracle, j) == ItemAt(items, oracle, j + 1);
    if ItemFits(t, entry, dt, rest, oracle, now, i) {
      forall j | 0 <= j < i + 1 && items[j].0 == items[i + 1].0 && !TooOld(s, dt, ItemAt(items, oracle, j), now)
        ensures items[j].1.timestamp < items[i + 1].1.timestamp
      {
        if j > 0 {
          assert rest[j - 1].1.timestamp < rest[i].1.timestamp by {
            assert ItemAt(rest, oracle, j - 1) == ItemAt(items, oracle, j);
          }
        }
      }
    }
    if ItemFits(s, entry, dt, items, oracle, now, i + 1) {
      forall j | 0 <= j < i && rest[j].0 == rest[i].0 && !TooOld(t, dt, ItemAt(rest, oracle, j), now)
        ensures rest[j].1.timestamp < rest[i].1.timestamp
      {
        assert items[j + 1].1.timestamp < items[i + 1].1.timestamp by {
          assert ItemAt(rest, oracle, j) == ItemAt(items, oracle, j + 1);
        }
      }
    }
  }

  lemma {:induction false} AcceptAllExact(s: Store, entry: Entry, dt: Symbol, items: Items, oracle: Address, now: nat)
    requires Vaults.Conserved(s.vault)
    ensures AcceptAll(s, entry, dt, items, oracle, now).Some? <==> AllFit(s, entry, dt, items, oracle, now)
    decreases |items|
  {
    if items != [] {
      var p := ItemAt(items, oracle, 0);
      AcceptExact(s, dt, items[0].0, p, now);
      if ItemOk(entry, items[0].1) && ReadingOk(s, dt, items[0].0, p, now) {
        var t := AcceptReading(s, dt, items[0].0, p, now).value;
        ReadingAfter(s, dt, items[0].0, p, now, items[0].0, p);
        AcceptAllExact(t, entry, dt, items[1..], oracle, now);
        RestAllFit(s, t, entry, dt, items, oracle, now);
      } else {
        assert !ItemFits(s, entry, dt, items, oracle, now, 0);
      }
    }
  }

  lemma RestAllFit(s: Store, t: Store, entry: Entry, dt: Symbol, items: Items, oracle: Address, now: nat)
    requires Vaults.Conserved(s.vault) && items != [] && ItemOk(entry, items[0].1)
    requires ReadingOk(s, dt, items[0].0, ItemAt(items, oracle, 0), now)
    requires AcceptReading(s, dt, items[0].0, ItemAt(items, oracle, 0), now) == Some(t)
    ensures AllFit(t, entry, dt, items[1..], oracle, now) <==> AllFit(s, entry, dt, items, oracle, now)
  {
    forall i | 0 <= i < |items| - 1
      ensures ItemFits(t, entry, dt, items[1..], oracle, now, i) <==> ItemFits(s, entry, dt, items, oracle, now, i + 1)
    {
      RestFits(s, t, entry, dt, items, oracle, now, i);
    }
    if AllFit(t, entry, dt, items[1..], oracle, now) {
      forall i | 0 <= i < |items| ensures ItemFits(s, entry, dt, items, oracle, now, i) {
        if i > 0 {
          assert ItemFits(t, entry, dt, items[1..], oracle, now, i - 1);
        }
      }
    }
  }

  /** A batch goes through, all of it or nothing, exactly when its oracle serves and is within the rate limit and every
      item is in order, later than what the oracle last reported for its stream and than all that the batch stores there
      before it. It is charged once, and only `submit_data_batch` clears the count of stale submissions. */
  lemma BatchExact(s: Store, entry: Entry, dt: Symbol, items: Items, oracle: Address, now: nat)
    requires Sound(s)
    ensures SubmitBatch(s, entry, dt, items, oracle, now).Some? <==>
            && !NotServing(s, dt, oracle) && RateOk(s, oracle, dt, now)
            && AllFit(s, entry, dt, items, oracle, now)
    ensures SubmitBatch(s, entry, dt, items, oracle, now).Some? ==>
              var t := SubmitBatch(s, entry, dt, items, oracle, now).value;
              && t.lastSubmission == s.lastSubmission[(dt, oracle) := now]
              && (entry == SubmitDataBatch && (dt, oracle) in t.staleCount ==> t.staleCount[(dt, oracle)] == 0)
  {
    var charged := Charged(s, oracle, dt, now);
    assert RateOk(s, oracle, dt, now) <==> RateLimited(s, oracle, dt, now) == Some(charged);
    AcceptAllExact(charged, entry, dt, items, oracle, now);
    assert forall i :: 0 <= i < |items| ==>
      (ItemFits(charged, entry, dt, items, oracle, now, i) <==> ItemFits(s, entry, dt, items, oracle, now, i));
    if SubmitBatch(s, entry, dt, items, oracle, now).Some? {
      KeepsCharge(charged, entry, dt, items, oracle, now);
    }
  }

  lemma {:induction false} KeepsCharge(s: Store, entry: Entry, dt: Symbol, items: Items, oracle: Address, now: nat)
    requires AcceptAll(s, entry, dt, items, oracle, now).Some?
    ensures AcceptAll(s, entry, dt, items, oracle, now).value.lastSubmission == s.lastSubmission
    decreases |items|
  {
    if items != [] {
      KeepsCharge(AcceptReading(s, dt, items[0].0, ItemAt(items, oracle, 0), now).value, entry, dt, items[1..], oracle, now);
    }
  }
}
