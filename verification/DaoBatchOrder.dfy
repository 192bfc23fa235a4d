/** When the order of a batch of settlements matters: exactly when the recorded turnout of one proposal can
    move the quorum that decides the next. */
module DaoBatchOrder {
  import opened Arithmetic
  import opened Sequences
  import opened Ledger
  import opened DaoQuorum
  import opened DaoDelegation
  import opened DaoBank
  import opened DaoState
  import opened DaoTally
  import opened DaoRuns
  import opened DaoEvolution
  import opened DaoOutcomes

  // ----- The condition -----

  /** A low turnout moves the quorum: up to a floor above the base, or down by at least one whole step. */
  predicate DecayBites(t: Settings) {
    && t.decay.enabled
    && (t.decay.floorBps > t.config.quorumBps
        || (t.decay.floorBps < t.config.quorumBps && t.decay.stepBps <= t.config.quorumBps))
  }

  /** Nothing passes when more than all of the votes are required. */
  predicate OrderMatters(t: Settings) {
    DecayBites(t) && t.config.majorityBps <= BPS
  }

  /** Both abort, or both end in the same state but for the order of the recorded turnouts. */
  ghost predicate SameOutcome(a: Option<Dao>, b: Option<Dao>) {
    (a.None? && b.None?) || (a.Some? && b.Some? && b.value == a.value.(history := b.value.history))
  }

  // ----- Without the history -----

  const NO_HISTORY: History := History([], 0)

  function Forget(s: Dao): Dao {
    s.(history := NO_HISTORY)
  }

  function ForgetAll(s: Option<Dao>): Option<Dao> {
    if s.None? then None else Some(Forget(s.value))
  }

  /** Finalizing as if no turnout had ever been recorded. */
  function Blind(s: Dao, id: nat, now: nat): Option<Dao> {
    ForgetAll(Finalize(Forget(s), id, now))
  }

  function BlindAll(s: Dao, ids: seq<nat>, now: nat): Option<Dao>
    decreases |ids|
  {
    if ids == [] then Some(Forget(s))
    else
      var next := Blind(s, ids[0], now);
      if next.None? then None else BlindAll(next.value, ids[1..], now)
  }

  lemma FloorIsBase(base: nat, decay: DecayConfig, average: nat)
    requires decay.floorBps == base && decay.stepBps > 0 && average < base
    ensures EffectiveQuorum(base, decay, Some(average)).quorumBps == base
  {
    if decay.enabled {
      MulMono(0, (base - average) / decay.stepBps, decay.stepBps);
    }
  }

  lemma StepTooLong(base: nat, decay: DecayConfig, average: nat)
    requires decay.floorBps < base < decay.stepBps && average < base
    ensures EffectiveQuorum(base, decay, Some(average)).quorumBps == base
  {
    NoWholeStep(base - average, decay.stepBps);
  }

  lemma SteadyQuorum(base: nat, decay: DecayConfig, average: Option<nat>)
    requires QuorumSettings(base, decay)
    requires decay.enabled ==> decay.floorBps == base || (decay.floorBps < base && decay.stepBps > base)
    ensures EffectiveQuorum(base, decay, average).quorumBps == base
  {
    if decay.enabled && average.Some? && average.value < base {
      if decay.stepBps > base && decay.floorBps < base {
        StepTooLong(base, decay, average.value);
      } else {
        FloorIsBase(base, decay, average.value);
      }
    }
  }

  lemma NoWholeStep(shortfall: nat, step: nat)
    requires shortfall < step
    ensures shortfall / step == 0
  {
  }

  lemma ShareAtMostAll(votesFor: int, votesAgainst: int, supply: int, quorumBps: nat, majorityBps: nat)
    requires votesFor >= 0 && votesAgainst >= 0 && majorityBps > BPS
    ensures !Passes(votesFor, votesAgainst, supply, quorumBps, majorityBps)
  {
    var partisan := votesFor + votesAgainst;
    if partisan > 0 {
      MulMono(votesFor, partisan, BPS);
      TruncDivHull(votesFor * BPS, partisan, 0, BPS);
    }
  }

  lemma DecisionForgets(s: Dao, p: Proposal)
    requires QuorumSound(s) && !OrderMatters(s.settings) && p.votesFor >= 0 && p.votesAgainst >= 0
    ensures Decide(s, p) == Decide(Forget(s), p)
  {
    if DecayBites(s.settings) {
      ShareAtMostAll(p.votesFor, p.votesAgainst, p.totalSupply, QuorumNow(s).quorumBps, s.settings.config.majorityBps);
      ShareAtMostAll(p.votesFor, p.votesAgainst, p.totalSupply, QuorumNow(Forget(s)).quorumBps, s.settings.config.majorityBps);
    } else {
      SteadyQuorum(s.settings.config.quorumBps, s.settings.decay, Average(s.history));
      SteadyQuorum(s.settings.config.quorumBps, s.settings.decay, None);
    }
  }

  lemma ForgetSound(s: Dao)
    requires Sound(s)
    ensures Sound(Forget(s))
  {
  }

  lemma BlindSound(s: Dao, id: nat, now: nat)
    requires Sound(s) && Blind(s, id, now).Some?
    ensures Sound(Blind(s, id, now).value) && Blind(s, id, now).value.settings == s.settings
  {
    ForgetSound(s);
    FinalizeSound(Forget(s), id, now);
    FinalizeExact(Forget(s), id, now);
    ForgetSound(Finalize(Forget(s), id, now).value);
  }

  lemma FinalizeForgets(s: Dao, id: nat, now: nat)
    requires Sound(s) && !OrderMatters(s.settings)
    ensures ForgetAll(Finalize(s, id, now)) == Blind(s, id, now)
  {
    if id in s.proposals {
      RecordedCounts(s, id);
      DecisionForgets(s, s.proposals[id]);
      SameDecisionForgets(s, id, now);
    }
  }

  lemma SameDecisionForgets(s: Dao, id: nat, now: nat)
    requires id in s.proposals && Decide(s, s.proposals[id]) == Decide(Forget(s), s.proposals[id])
    ensures ForgetAll(Finalize(s, id, now)) == Blind(s, id, now)
  {
  }

  lemma {:induction false} BatchForgets(s: Dao, ids: seq<nat>, now: nat)
    requires Sound(s) && !OrderMatters(s.settings)
    ensures ForgetAll(FinalizeAll(s, ids, now)) == BlindAll(s, ids, now)
    decreases |ids|
  {
    if ids != [] {
      FinalizeForgets(s, ids[0], now);
      if Finalize(s, ids[0], now).Some? {
        var t := Finalize(s, ids[0], now).value;
        FinalizeSound(s, ids[0], now);
        FinalizeExact(s, ids[0], now);
        BatchForgets(t, ids[1..], now);
        BlindForgotten(t, ids[1..], now);
      }
    }
  }

  lemma {:induction false} BlindForgotten(s: Dao, ids: seq<nat>, now: nat)
    ensures BlindAll(Forget(s), ids, now) == BlindAll(s, ids, now)
  {
    assert Forget(Forget(s)) == Forget(s);
  }

  // ----- Settlements commute -----

  /** Two deposits returned in either order. */
  lemma ReleasesCommute(b: Bank, i: nat, p: Address, x: int, j: nat, q: Address, y: int)
    requires i != j && i in b.escrow && j in b.escrow
    requires Release(b, i, p, x).Some? && Release(Release(b, i, p, x).value, j, q, y).Some?
    requires Release(b, j, q, y).Some? && Release(Release(b, j, q, y).value, i, p, x).Some?
    requires p != SELF && q != SELF
    ensures Release(Release(b, i, p, x).value, j, q, y) == Release(Release(b, j, q, y).value, i, p, x)
  {
    var l, r := Release(Release(b, i, p, x).value, j, q, y).value, Release(Release(b, j, q, y).value, i, p, x).value;
    assert l.ledger == r.ledger;
    assert l.escrow == r.escrow;
  }

  /** What finalizing does to a proposal when no turnout was recorded. */
  function Decided(s: Dao, id: nat, now: nat): Proposal
    requires id in s.proposals
  {
    var p := s.proposals[id];
    if Decide(Forget(s), p) then p.(status := Passed, executionTime := now + s.settings.config.timelock) else p.(status := Failed)
  }

  function Paid(s: Dao, id: nat): Option<Bank>
    requires id in s.proposals
  {
    var p := s.proposals[id];
    if Decide(Forget(s), p) then Some(s.bank) else Release(s.bank, id, p.proposer, p.deposit)
  }

  predicate Settles(s: Dao, id: nat) {
    id in s.proposals && Paid(s, id).Some?
  }

  /** The state after finalizing. */
  function After(s: Dao, id: nat, now: nat): Dao
    requires Settles(s, id)
  {
    s.(proposals := s.proposals[id := Decided(s, id, now)],
       hashes := s.hashes - {s.proposals[id].action},
       bank := Paid(s, id).value,
       history := NO_HISTORY)
  }

  lemma BlindIs(s: Dao, id: nat, now: nat)
    requires Blind(s, id, now).Some?
    ensures Settles(s, id) && Blind(s, id, now).value == After(s, id, now)
  {
  }

  predicate Ready(s: Dao, id: nat, now: nat) {
    Finalizable(s, id, now) && (Decide(Forget(s), s.proposals[id]) ==> FitsU64(now + s.settings.config.timelock))
  }

  lemma BlindExact(s: Dao, id: nat, now: nat)
    requires Sound(s)
    ensures Blind(s, id, now).Some? <==> Ready(s, id, now)
  {
    ForgetSound(s);
    FinalizeExact(Forget(s), id, now);
  }

  /** Another proposal is as it was. */
  lemma AfterKeeps(s: Dao, i: nat, j: nat, now: nat)
    requires Settles(s, i) && i != j
    ensures var t := After(s, i, now);
      && (j in t.proposals <==> j in s.proposals)
      && (j in s.proposals ==>
            && t.proposals[j] == s.proposals[j] && Decided(t, j, now) == Decided(s, j, now)
            && Decide(Forget(t), t.proposals[j]) == Decide(Forget(s), s.proposals[j]))
      && (Ready(t, j, now) <==> Ready(s, j, now))
  {
  }

  lemma BlindCommutes(s: Dao, i: nat, j: nat, now: nat)
    requires Sound(s)
    requires Blind(s, i, now).Some? && Blind(Blind(s, i, now).value, j, now).Some?
    ensures Blind(s, j, now).Some? && Blind(Blind(s, j, now).value, i, now).Some?
    ensures Blind(Blind(s, i, now).value, j, now) == Blind(Blind(s, j, now).value, i, now)
  {
    if i != j {
      BlindIs(s, i, now);
      SecondReady(s, i, j, now);
      BlindIs(s, j, now);
      SecondReady(s, j, i, now);
      var a, b := Blind(s, i, now).value, Blind(s, j, now).value;
      BlindIs(a, j, now);
      BlindIs(b, i, now);
      AfterCommutes(s, i, j, now);
    }
  }

  lemma SecondReady(s: Dao, i: nat, j: nat, now: nat)
    requires Sound(s) && i != j && Blind(s, i, now).Some?
    ensures Blind(Blind(s, i, now).value, j, now).Some? <==> Blind(s, j, now).Some?
  {
    BlindSound(s, i, now);
    BlindIs(s, i, now);
    BlindExact(s, j, now);
    BlindExact(Blind(s, i, now).value, j, now);
    AfterKeeps(s, i, j, now);
  }

  lemma AfterCommutes(s: Dao, i: nat, j: nat, now: nat)
    requires i != j && EscrowSound(s.proposals, s.bank.escrow) && IdsSound(s.proposals, s.nextId)
    requires Settles(s, i) && Settles(After(s, i, now), j) && Settles(s, j) && Settles(After(s, j, now), i)
    ensures After(After(s, i, now), j, now) == After(After(s, j, now), i, now)
  {
    var a, b := After(s, i, now), After(s, j, now);
    AfterKeeps(s, i, j, now);
    AfterKeeps(s, j, i, now);
    BanksAgree(s, a, b, i, j);
    assert a.proposals[j := Decided(a, j, now)] == b.proposals[i := Decided(b, i, now)];
    assert a.hashes - {a.proposals[j].action} == b.hashes - {b.proposals[i].action};
  }

  lemma BanksAgree(s: Dao, a: Dao, b: Dao, i: nat, j: nat)
    requires i != j && i in s.proposals && j in s.proposals && i in a.proposals && j in a.proposals && i in b.proposals && j in b.proposals
    requires a.proposals[j] == s.proposals[j] && b.proposals[i] == s.proposals[i]
    requires Decide(Forget(a), a.proposals[j]) == Decide(Forget(s), s.proposals[j])
    requires Decide(Forget(b), b.proposals[i]) == Decide(Forget(s), s.proposals[i])
    requires Paid(s, i) == Some(a.bank) && Paid(s, j) == Some(b.bank) && Paid(a, j).Some? && Paid(b, i).Some?
    requires s.proposals[i].proposer != SELF && s.proposals[j].proposer != SELF && i in s.bank.escrow && j in s.bank.escrow
    ensures Paid(a, j) == Paid(b, i)
  {
    var p, q := s.proposals[i], s.proposals[j];
    if !Decide(Forget(s), p) && !Decide(Forget(s), q) {
      ReleasesCommute(s.bank, i, p.proposer, p.deposit, j, q.proposer, q.deposit);
    }
  }

  // ----- Permutations -----

  lemma BlindPair(s: Dao, i: nat, j: nat, rest: seq<nat>, now: nat)
    ensures BlindAll(s, [i, j] + rest, now) ==
            (var a := Blind(s, i, now);
             if a.None? then None
             else
               var b := Blind(a.value, j, now);
               if b.None? then None else BlindAll(b.value, rest, now))
  {
    assert ([i, j] + rest)[1..] == [j] + rest;
    assert ([j] + rest)[1..] == rest;
  }

  lemma SwapTwo(s: Dao, i: nat, j: nat, rest: seq<nat>, now: nat)
    requires Sound(s)
    ensures BlindAll(s, [i, j] + rest, now) == BlindAll(s, [j, i] + rest, now)
  {
    BlindPair(s, i, j, rest, now);
    BlindPair(s, j, i, rest, now);
    if Blind(s, i, now).Some? && Blind(Blind(s, i, now).value, j, now).Some? {
      BlindCommutes(s, i, j, now);
    } else if Blind(s, j, now).Some? && Blind(Blind(s, j, now).value, i, now).Some? {
      BlindCommutes(s, j, i, now);
    }
  }

  lemma {:induction false} ToFront(s: Dao, before: seq<nat>, id: nat, after: seq<nat>, now: nat)
    requires Sound(s)
    ensures BlindAll(s, before + [id] + after, now) == BlindAll(s, [id] + before + after, now)
    decreases |before|
  {
    if before != [] {
      var first, more := before[0], before[1..];
      assert (before + [id] + after)[1..] == more + [id] + after;
      assert ([first, id] + (more + after))[1..] == [id] + more + after;
      assert [id, first] + (more + after) == [id] + before + after;
      if Blind(s, first, now).Some? {
        BlindSound(s, first, now);
        ToFront(Blind(s, first, now).value, more, id, after, now);
      }
      SwapTwo(s, first, id, more + after, now);
    } else {
      assert before + [id] + after == [id] + before + after;
    }
  }

  lemma {:induction false} BlindPermutes(s: Dao, ids: seq<nat>, jds: seq<nat>, now: nat)
    requires Sound(s) && multiset(ids) == multiset(jds)
    ensures BlindAll(s, ids, now) == BlindAll(s, jds, now)
    decreases |ids|
  {
    assert |ids| == |multiset(ids)| == |multiset(jds)| == |jds|;
    if ids != [] {
      var k := MatchHead(ids, jds);
      ToFront(s, jds[..k], ids[0], jds[k + 1..], now);
      assert jds == jds[..k] + [ids[0]] + jds[k + 1..];
      assert ([ids[0]] + jds[..k] + jds[k + 1..])[1..] == Without(jds, k);
      if Blind(s, ids[0], now).Some? {
        BlindSound(s, ids[0], now);
        BlindPermutes(Blind(s, ids[0], now).value, ids[1..], Without(jds, k), now);
      }
    }
  }

  /** If decay cannot bite, any order of a batch comes to the same. */
  lemma SteadyBatch(s: Dao, ids: seq<nat>, jds: seq<nat>, now: nat)
    requires Sound(s) && !OrderMatters(s.settings) && multiset(ids) == multiset(jds)
    ensures SameOutcome(FinalizeAll(s, ids, now), FinalizeAll(s, jds, now))
  {
    BatchForgets(s, ids, now);
    BatchForgets(s, jds, now);
    BlindPermutes(s, ids, jds, now);
  }

  // ----- Settings that can be reached -----

  /** What the setters admit. */
  predicate Settable(t: Settings) {
    && SetConfig(t, t.config) == Some(t)
    && t.decay.floorBps >= MIN_QUORUM_BPS
    && (t.decay.enabled ==> t.decay.floorBps < MAX_QUORUM_BPS && 0 < t.decay.window <= MAX_WINDOW && t.decay.stepBps > 0)
    && MultiplierOk(t.multipliers.standardBps) && MultiplierOk(t.multipliers.upgradeBps) && MultiplierOk(t.multipliers.selfTargetBps)
  }

  lemma {:induction false} BatchSettings(s: Dao, ids: seq<nat>, now: nat)
    requires Sound(s) && FinalizeAll(s, ids, now).Some?
    ensures FinalizeAll(s, ids, now).value.settings == s.settings
    decreases |ids|
  {
    if ids != [] {
      FinalizeExact(s, ids[0], now);
      FinalizeSound(s, ids[0], now);
      BatchSettings(Finalize(s, ids[0], now).value, ids[1..], now);
    }
  }

  lemma VotingSettings(s: Dao, op: Op)
    requires Sound(s) && FromOutside(op) && (op.OpVote? || op.OpVoteBatch?)
    ensures Step(s, op).settings == s.settings
  {
    if Try(s, op).Some? {
      StepVotesOnly(s, op);
    }
  }

  lemma SettingSettable(s: Dao, op: Op)
    requires IsSetting(op) && Settable(s.settings)
    ensures Settable(Step(s, op).settings)
  {
  }

  lemma OtherSettings(s: Dao, op: Op)
    requires !IsSetting(op) && !op.OpVote? && !op.OpVoteBatch? && !op.OpFinalizeBatch?
    ensures Step(s, op).settings == s.settings
  {
  }

  lemma StepSettable(s: Dao, op: Op)
    requires Sound(s) && FromOutside(op) && Settable(s.settings)
    ensures Settable(Step(s, op).settings)
  {
    if op.OpVote? || op.OpVoteBatch? {
      VotingSettings(s, op);
    } else if op.OpFinalizeBatch? {
      if Try(s, op).Some? {
        BatchSettings(s, op.ids, op.now);
      }
    } else if IsSetting(op) {
      SettingSettable(s, op);
    } else {
      OtherSettings(s, op);
    }
  }

  /** No run leaves them. */
  lemma {:induction false} ReachableSettable(config: Config, ledger: map<Address, int>, ops: seq<Op>)
    requires Deployable(config, ledger) && forall i :: 0 <= i < |ops| ==> FromOutside(ops[i])
    ensures Settable(Run(Deployed(config, ledger), ops).settings)
  {
    if ops != [] {
      ReachableSettable(config, ledger, ops[..|ops| - 1]);
      ReachableSound(config, ledger, ops[..|ops| - 1]);
      StepSettable(Run(Deployed(config, ledger), ops[..|ops| - 1]), ops[|ops| - 1]);
    }
  }

  // ----- A run in which the order matters -----

  const OPENING: Config := Config(0, 10_000, MAX_QUORUM_BPS, 0, MIN_VOTING_PERIOD, 0, 0, 0)
  const QUIET: Draft := Draft(Standard, Action(9, 0, []), 1, MIN_IMPACT_LEN)
  const BUSY: Draft := Draft(Standard, Action(9, 1, []), 1, MIN_IMPACT_LEN)

  /** One holder of `tokens`, out of a supply of 10000. */
  function Opened(tokens: nat): Dao {
    Deployed(OPENING, map[8 := tokens])
  }

  /** Two free proposals, and a ballot For on the second. */
  function Opening(): seq<Op> {
    [OpCreate(7, QUIET, 0), OpCreate(7, BUSY, 0), OpVote(8, 1, For, 0)]
  }

  /** Afterwards the admin configures `t`. */
  function Retune(t: Settings): seq<Op> {
    [OpSetDecay(t.decay), OpSetTimeWeight(t.timeWeight), OpSetMultipliers(t.multipliers), OpSetGuardians(t.guardians),
     OpSetConfig(t.config)]
  }

  function Voted(id: nat, votes: nat): Proposal {
    Proposal(7, Action(9, id, []), 0, Active, votes, 0, 0, 0, MIN_VOTING_PERIOD, 0,
             MIN_VOTING_PERIOD + FINALIZE_DELAY + EXECUTION_WINDOW, 10_000, false)
  }

  lemma RunSnoc(s: Dao, ops: seq<Op>, op: Op)
    ensures Run(s, ops + [op]) == Step(Run(s, ops), op)
  {
    assert (ops + [op])[..|ops|] == ops;
  }

  /** Two proposals as the opening leaves them, nothing settled yet. */
  ghost predicate TwoOpen(s: Dao, votes: nat) {
    && 0 in s.proposals && 1 in s.proposals && s.proposals[0] == Voted(0, 0) && s.proposals[1] == Voted(1, votes)
    && s.history == NO_HISTORY
  }

  lemma TwoCreated(tokens: nat)
    ensures var s := Step(Step(Opened(tokens), OpCreate(7, QUIET, 0)), OpCreate(7, BUSY, 0));
      && TwoOpen(s, 0) && s.settings == Opened(tokens).settings && s.votes == map[] && s.swept == {}
      && s.delegations == Delegations(map[], map[]) && Balance(s.bank.ledger, 8) == tokens && s.checkpoints == map[]
  {
    var s := Step(Opened(tokens), OpCreate(7, QUIET, 0));
    assert Create(Opened(tokens), 7, QUIET, 0).Some?;
    assert s.proposals[0] == Voted(0, 0);
    assert Create(s, 7, BUSY, 0).Some?;
  }

  lemma VotedOn(s: Dao, tokens: nat)
    requires TwoOpen(s, 0) && s.settings == Opened(tokens).settings && s.votes == map[] && s.swept == {}
    requires s.delegations == Delegations(map[], map[]) && Balance(s.bank.ledger, 8) == tokens && s.checkpoints == map[]
    requires 0 < tokens <= 10_000
    ensures TwoOpen(Step(s, OpVote(8, 1, For, 0)), tokens)
    ensures Step(s, OpVote(8, 1, For, 0)).settings == s.settings
  {
    assert Pledge(s, 8) == tokens && Power(s, 8, tokens, 0) == tokens;
    assert DelegatorsOf(s.delegations, 8) == [];
    assert CastOn(s, 8, 1, For, tokens, 0).Some?;
  }

  lemma AfterCreating(tokens: nat)
    ensures Run(Opened(tokens), [OpCreate(7, QUIET, 0), OpCreate(7, BUSY, 0)])
            == Step(Step(Opened(tokens), OpCreate(7, QUIET, 0)), OpCreate(7, BUSY, 0))
  {
    var d, first := Opened(tokens), OpCreate(7, QUIET, 0);
    assert [first] == [] + [first] && [first, OpCreate(7, BUSY, 0)] == [first] + [OpCreate(7, BUSY, 0)];
    RunSnoc(d, [], first);
    RunSnoc(d, [first], OpCreate(7, BUSY, 0));
  }

  lemma AfterOpening(tokens: nat)
    requires 0 < tokens <= 10_000
    ensures var s := Run(Opened(tokens), Opening()); TwoOpen(s, tokens) && s.settings == Opened(tokens).settings
  {
    var created := [OpCreate(7, QUIET, 0), OpCreate(7, BUSY, 0)];
    assert Opening() == created + [OpVote(8, 1, For, 0)];
    RunSnoc(Opened(tokens), created, OpVote(8, 1, For, 0));
    AfterCreating(tokens);
    TwoCreated(tokens);
    VotedOn(Run(Opened(tokens), created), tokens);
  }

  lemma DecaySet(s: Dao, t: Settings)
    requires Settable(t) && s.settings.config.quorumBps == MAX_QUORUM_BPS
    ensures Step(s, OpSetDecay(t.decay)) == s.(settings := s.settings.(decay := t.decay))
  {
  }

  lemma RestSet(s: Dao, t: Settings)
    requires Settable(t)
    ensures Step(s, OpSetTimeWeight(t.timeWeight)) == s.(settings := s.settings.(timeWeight := t.timeWeight))
    ensures Step(s, OpSetMultipliers(t.multipliers)) == s.(settings := s.settings.(multipliers := t.multipliers))
    ensures Step(s, OpSetConfig(t.config)) == s.(settings := s.settings.(config := t.config))
  {
  }

  lemma Retuned(s: Dao, t: Settings)
    requires Settable(t) && s.settings.config.quorumBps == MAX_QUORUM_BPS
    ensures Step(Step(Step(Step(Step(s, OpSetDecay(t.decay)), OpSetTimeWeight(t.timeWeight)), OpSetMultipliers(t.multipliers)),
                      OpSetGuardians(t.guardians)), OpSetConfig(t.config)) == s.(settings := t)
  {
    var a := Step(s, OpSetDecay(t.decay));
    DecaySet(s, t);
    var b := Step(a, OpSetTimeWeight(t.timeWeight));
    RestSet(a, t);
    var c := Step(b, OpSetMultipliers(t.multipliers));
    RestSet(b, t);
    RestSet(Step(c, OpSetGuardians(t.guardians)), t);
  }

  function Play(t: Settings): seq<Op> {
    Opening() + Retune(t)
  }

  lemma AfterPlay(t: Settings, tokens: nat)
    requires Settable(t) && 0 < tokens <= 10_000
    ensures var s := Run(Opened(tokens), Play(t)); TwoOpen(s, tokens) && s.settings == t
  {
    var d, o := Opened(tokens), Opening();
    AfterOpening(tokens);
    var ops1 := o + [OpSetDecay(t.decay)];
    var ops2 := ops1 + [OpSetTimeWeight(t.timeWeight)];
    var ops3 := ops2 + [OpSetMultipliers(t.multipliers)];
    var ops4 := ops3 + [OpSetGuardians(t.guardians)];
    RunSnoc(d, o, OpSetDecay(t.decay));
    RunSnoc(d, ops1, OpSetTimeWeight(t.timeWeight));
    RunSnoc(d, ops2, OpSetMultipliers(t.multipliers));
    RunSnoc(d, ops3, OpSetGuardians(t.guardians));
    RunSnoc(d, ops4, OpSetConfig(t.config));
    assert Play(t) == ops4 + [OpSetConfig(t.config)];
    Retuned(Run(d, o), t);
  }

  // ----- What the two orders come to -----

  /** The quorum once a turnout of zero was recorded. */
  function QuorumAfterQuiet(t: Settings): nat {
    EffectiveQuorum(t.config.quorumBps, t.decay, Some(0)).quorumBps
  }

  lemma QuietMovesQuorum(t: Settings)
    requires Settable(t) && DecayBites(t)
    ensures QuorumAfterQuiet(t) != t.config.quorumBps && QuorumAfterQuiet(t) <= MAX_QUORUM_BPS
  {
    var base, step := t.config.quorumBps, t.decay.stepBps;
    if step <= base {
      WholeStep(base, step);
    } else {
      NoWholeStep(base, step);
    }
  }

  lemma WholeStep(shortfall: nat, step: nat)
    requires 0 < step <= shortfall
    ensures step <= shortfall / step * step <= shortfall
  {
    MulMono(1, shortfall / step, step);
  }

  lemma AfterQuietRecorded(s: Dao, votes: nat)
    requires TwoOpen(s, votes) && Settable(s.settings)
    ensures QuorumNow(s).quorumBps == s.settings.config.quorumBps
    ensures QuorumNow(Count(s, s.proposals[0])).quorumBps == QuorumAfterQuiet(s.settings)
  {
    var h := Count(s, s.proposals[0]).history;
    assert Turnout(0, 10_000) == 0;
    assert h.recentBps == [0];
    assert SumOf([0]) == 0 by {
      assert [0][..0] == [];
    }
    assert Average(h) == Some(0);
  }

  lemma BusyPasses(votes: nat, quorumBps: nat, majorityBps: nat)
    requires 0 < votes <= 10_000 && quorumBps <= MAX_QUORUM_BPS && majorityBps <= BPS
    ensures Passes(votes, 0, 10_000, quorumBps, majorityBps) <==> votes >= quorumBps
  {
    PassesExactly(votes, 0, 10_000, quorumBps, majorityBps);
    TruncDivHull(10_000 * quorumBps, BPS, quorumBps, quorumBps);
    MulMono(majorityBps, BPS, votes);
  }

  /** The ballots reach the lower of the two quorums and not the other. */
  function Enough(t: Settings): nat {
    Min(t.config.quorumBps, QuorumAfterQuiet(t))
  }

  /** Order 0 then 1 decides the second proposal at the moved quorum, order 1 then 0 at the base. */
  lemma Decisions(s: Dao)
    requires Settable(s.settings) && OrderMatters(s.settings) && TwoOpen(s, Enough(s.settings))
    ensures var base, moved := s.settings.config.quorumBps, QuorumAfterQuiet(s.settings);
      && (Decide(s, s.proposals[1]) <==> base < moved)
      && (Decide(Count(s, s.proposals[0]), s.proposals[1]) <==> moved < base)
  {
    QuietMovesQuorum(s.settings);
    AfterQuietRecorded(s, Enough(s.settings));
    QuorumNeverBelowMinimum(s.settings.config.quorumBps, s.settings.decay, Some(0));
    BusyPasses(Enough(s.settings), s.settings.config.quorumBps, s.settings.config.majorityBps);
    BusyPasses(Enough(s.settings), QuorumAfterQuiet(s.settings), s.settings.config.majorityBps);
  }

  lemma QuietFails(s: Dao, votes: nat, p: Proposal)
    requires p == Voted(0, 0)
    ensures !Decide(s, p)
  {
  }

  lemma BothDue(s: Dao, votes: nat)
    requires TwoOpen(s, votes) && votes <= 10_000
    ensures Finalizable(s, 0, 10_000) && Finalizable(s, 1, 10_000)
  {
  }

  lemma OneByOne(s: Dao, i: nat, j: nat, now: nat)
    ensures FinalizeAll(s, [i, j], now) ==
            (var a := Finalize(s, i, now); if a.None? then None else Finalize(a.value, j, now))
  {
    var ids := [i, j];
    assert ids[1..] == [j];
    if Finalize(s, i, now).Some? {
      var t := Finalize(s, i, now).value;
      assert [j][1..] == [];
      assert FinalizeAll(t, [j], now) == Finalize(t, j, now);
    }
  }

  /** The quiet proposal first: the second is decided at the moved quorum. */
  lemma QuietFirst(s: Dao, votes: nat)
    requires Sound(s) && TwoOpen(s, votes) && votes <= 10_000
    ensures var r, passes := FinalizeAll(s, [0, 1], 10_000), Decide(Count(s, s.proposals[0]), s.proposals[1]);
      && (r.Some? <==> (passes ==> FitsU64(10_000 + s.settings.config.timelock)))
      && (r.Some? ==> InStatus(r.value, 1, if passes then Passed else Failed))
  {
    OneByOne(s, 0, 1, 10_000);
    BothDue(s, votes);
    QuietFails(s, votes, s.proposals[0]);
    FinalizeExact(s, 0, 10_000);
    var t := Finalize(s, 0, 10_000).value;
    FinalizeSound(s, 0, 10_000);
    FinalizeLeavesOthers(s, 0, 10_000);
    assert Decide(t, t.proposals[1]) == Decide(Count(s, s.proposals[0]), s.proposals[1]);
    SettlesOne(t, 1, 10_000);
  }

  lemma SettlesOne(s: Dao, id: nat, now: nat)
    requires Sound(s) && Finalizable(s, id, now)
    ensures var r, passes := Finalize(s, id, now), Decide(s, s.proposals[id]);
      && (r.Some? <==> (passes ==> FitsU64(now + s.settings.config.timelock)))
      && (r.Some? ==> InStatus(r.value, id, if passes then Passed else Failed))
  {
    FinalizeExact(s, id, now);
  }

  /** The quiet proposal last. */
  lemma BusyFirst(s: Dao, votes: nat)
    requires Sound(s) && TwoOpen(s, votes) && votes <= 10_000
    ensures var r, passes := FinalizeAll(s, [1, 0], 10_000), Decide(s, s.proposals[1]);
      && (r.Some? <==> (passes ==> FitsU64(10_000 + s.settings.config.timelock)))
      && (r.Some? ==> InStatus(r.value, 1, if passes then Passed else Failed))
  {
    OneByOne(s, 1, 0, 10_000);
    BothDue(s, votes);
    FinalizeExact(s, 1, 10_000);
    if Finalize(s, 1, 10_000).Some? {
      var t := Finalize(s, 1, 10_000).value;
      FinalizeSound(s, 1, 10_000);
      FinalizeLeavesOthers(s, 1, 10_000);
      QuietFails(t, votes, t.proposals[0]);
      FinalizeExact(t, 0, 10_000);
    }
  }

  lemma PlayReaches(t: Settings)
    requires Settable(t) && OrderMatters(t)
    ensures var s := Run(Opened(Enough(t)), Play(t)); Sound(s) && s.settings == t && TwoOpen(s, Enough(t))
  {
    QuietMovesQuorum(t);
    QuorumNeverBelowMinimum(t.config.quorumBps, t.decay, Some(0));
    AfterPlay(t, Enough(t));
    PlayFromOutside(t);
    ReachableSound(OPENING, map[8 := Enough(t)], Play(t));
  }

  /** Whenever decay can bite, this run from deployment reaches a state with just these settings in which the two
      orders of a batch of two come to different outcomes. */
  lemma OrderMattersInARun(t: Settings)
    requires Settable(t) && OrderMatters(t)
    ensures forall i :: 0 <= i < |Play(t)| ==> FromOutside(Play(t)[i])
    ensures var s := Run(Opened(Enough(t)), Play(t));
      s.settings == t && !SameOutcome(FinalizeAll(s, [0, 1], 10_000), FinalizeAll(s, [1, 0], 10_000))
  {
    PlayFromOutside(t);
    PlayReaches(t);
    TwoOutcomes(Run(Opened(Enough(t)), Play(t)));
  }

  lemma TwoOutcomes(s: Dao)
    requires Sound(s) && Settable(s.settings) && OrderMatters(s.settings) && TwoOpen(s, Enough(s.settings))
    ensures !SameOutcome(FinalizeAll(s, [0, 1], 10_000), FinalizeAll(s, [1, 0], 10_000))
  {
    QuietMovesQuorum(s.settings);
    Decisions(s);
    QuietFirst(s, Enough(s.settings));
    BusyFirst(s, Enough(s.settings));
  }

  lemma PlayFromOutside(t: Settings)
    ensures forall i :: 0 <= i < |Play(t)| ==> FromOutside(Play(t)[i])
  {
  }

  /** Under these settings no reordering of any batch matters, in any state. */
  ghost predicate OrderFree(t: Settings) {
    forall s: Dao, ids: seq<nat>, jds: seq<nat>, now: nat ::
      Sound(s) && s.settings == t && multiset(ids) == multiset(jds) ==>
        SameOutcome(FinalizeAll(s, ids, now), FinalizeAll(s, jds, now))
  }

  lemma SteadyIsOrderFree(t: Settings)
    requires !OrderMatters(t)
    ensures OrderFree(t)
  {
    forall s: Dao, ids: seq<nat>, jds: seq<nat>, now: nat | Sound(s) && s.settings == t && multiset(ids) == multiset(jds)
      ensures SameOutcome(FinalizeAll(s, ids, now), FinalizeAll(s, jds, now))
    {
      SteadyBatch(s, ids, jds, now);
    }
  }

  lemma NotOrderFree(t: Settings, s: Dao, ids: seq<nat>, jds: seq<nat>, now: nat)
    requires Sound(s) && s.settings == t && multiset(ids) == multiset(jds)
    requires !SameOutcome(FinalizeAll(s, ids, now), FinalizeAll(s, jds, now))
    ensures !OrderFree(t)
  {
  }

  lemma MattersNotFree(s: Dao)
    requires Sound(s) && Settable(s.settings) && OrderMatters(s.settings) && TwoOpen(s, Enough(s.settings))
    ensures !OrderFree(s.settings)
  {
    TwoOutcomes(s);
    assert multiset([0, 1]) == multiset([1, 0]);
    NotOrderFree(s.settings, s, [0, 1], [1, 0], 10_000);
  }

  /** The order of a batch never matters if and only if decay cannot bite. */
  lemma OrderFreeExactly(t: Settings)
    requires Settable(t)
    ensures OrderFree(t) <==> !OrderMatters(t)
  {
    if OrderMatters(t) {
      PlayReaches(t);
      MattersNotFree(Run(Opened(Enough(t)), Play(t)));
    } else {
      SteadyIsOrderFree(t);
    }
  }

  /** For instance a quorum of 50% that decays by whole percents down to 10%. */
  function HalfDecaying(): Settings {
    Settings(OPENING.(quorumBps := 5_000, majorityBps := 5_100), DecayConfig(true, 1_000, 100, 5), NO_TIME_WEIGHT, NO_ESCALATION, {})
  }

  /** With one ballot of 10% of the supply the second proposal passes after the quiet one, and fails before it. */
  lemma BatchOrderMatters()
    ensures var s := Run(Opened(1_000), Play(HalfDecaying()));
      && s.settings == HalfDecaying()
      && FinalizeAll(s, [0, 1], 10_000).Some? && InStatus(FinalizeAll(s, [0, 1], 10_000).value, 1, Passed)
      && FinalizeAll(s, [1, 0], 10_000).Some? && InStatus(FinalizeAll(s, [1, 0], 10_000).value, 1, Failed)
  {
    var t := HalfDecaying();
    assert QuorumAfterQuiet(t) == 1_000 && Enough(t) == 1_000;
    AfterPlay(t, 1_000);
    PlayFromOutside(t);
    ReachableSound(OPENING, map[8 := 1_000], Play(t));
    TwoStatuses(Run(Opened(1_000), Play(t)));
  }

  lemma TwoStatuses(s: Dao)
    requires Sound(s) && s.settings == HalfDecaying() && TwoOpen(s, 1_000)
    ensures FinalizeAll(s, [0, 1], 10_000).Some? && InStatus(FinalizeAll(s, [0, 1], 10_000).value, 1, Passed)
    ensures FinalizeAll(s, [1, 0], 10_000).Some? && InStatus(FinalizeAll(s, [1, 0], 10_000).value, 1, Failed)
  {
    assert QuorumAfterQuiet(HalfDecaying()) == 1_000;
    Decisions(s);
    QuietFirst(s, 1_000);
    BusyFirst(s, 1_000);
  }
}
