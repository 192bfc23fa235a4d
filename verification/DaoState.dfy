/** The governance DAO's storage and what each entry point does to it: None is an abort, which leaves no
    trace. The governance token is fixed. */
module DaoState {
  import opened Arithmetic
  import opened Sequences
  import opened Ledger
  import opened DaoQuorum
  import opened DaoDelegation
  import opened DaoBank

  const MIN_VOTING_PERIOD: nat := 3_600
  const MAX_VOTING_PERIOD: nat := 30 * 24 * 3_600
  const FINALIZE_DELAY: nat := 300
  const RECLAIM_TIMEOUT: nat := 14 * 24 * 3_600
  const EXECUTION_WINDOW: nat := 7 * 24 * 3_600
  const MAX_TITLE_LEN: nat := 256
  const MIN_IMPACT_LEN: nat := 5
  const MAX_IMPACT_LEN: nat := 4_096
  const MAX_BATCH_FINALIZE: nat := 20
  const MIN_MULTIPLIER_BPS: nat := 10_000
  const MAX_MULTIPLIER_BPS: nat := 100_000

  datatype Kind = Standard | Upgrade
  datatype Choice = For | Against | Abstain
  datatype Status = Discussion | Active | Passed | Failed | Executed | Cancelled | Expired

  /** What a proposal would call. The arguments are small values, which the content hash identifies. */
  datatype Action = Action(target: Address, entry: Symbol, args: seq<int>)

  datatype Draft = Draft(kind: Kind, action: Action, titleLen: nat, impactLen: nat)

  datatype Proposal = Proposal(
    proposer: Address, action: Action, deposit: nat, status: Status,
    votesFor: int, votesAgainst: int, votesAbstain: int,
    createdAt: nat, voteEnd: nat, executionTime: nat, deadline: nat, totalSupply: int, vetoed: bool)

  datatype VoteRecord = VoteRecord(choice: Choice, weight: int)

  datatype Config = Config(
    threshold: int, totalSupply: int, quorumBps: nat, majorityBps: nat,
    votingPeriod: nat, timelock: nat, discussion: nat, weightCap: int)

  datatype Multipliers = Multipliers(standardBps: nat, upgradeBps: nat, selfTargetBps: nat)

  datatype Settings = Settings(
    config: Config, decay: DecayConfig, timeWeight: TimeWeight, multipliers: Multipliers, guardians: set<Address>)

  datatype Dao = Dao(
    settings: Settings,
    proposals: map<nat, Proposal>,
    nextId: nat,
    hashes: map<Action, nat>,
    votes: map<Ballot, VoteRecord>,
    swept: set<Ballot>,
    delegations: Delegations,
    bank: Bank,
    history: History,
    checkpoints: map<Address, Checkpoint>)

  predicate InStatus(s: Dao, id: nat, status: Status) {
    id in s.proposals && s.proposals[id].status == status
  }

  predicate IsOpen(s: Dao, id: nat) {
    id in s.proposals && (s.proposals[id].status == Discussion || s.proposals[id].status == Active)
  }

  // ----- Proposals -----

  /** The deposit for a proposal: the configured threshold scaled up by impact. */
  function Threshold(settings: Settings, kind: Kind, target: Address): int {
    var m := settings.multipliers;
    var bps := if kind == Upgrade then m.upgradeBps
               else if target == SELF then m.selfTargetBps
               else m.standardBps;
    TruncDiv(SatMul(settings.config.threshold, bps), MIN_MULTIPLIER_BPS)
  }

  predicate WellFormed(d: Draft) {
    && (d.kind == Standard ==> 0 < d.titleLen <= MAX_TITLE_LEN && d.impactLen >= MIN_IMPACT_LEN)
    && 0 < d.impactLen <= MAX_IMPACT_LEN
  }

  function NewProposal(config: Config, proposer: Address, action: Action, deposit: nat, now: nat): Proposal {
    var opens := if config.discussion > 0 then SatAddU64(now, config.discussion) else now;
    var voteEnd := SatAddU64(opens, config.votingPeriod);
    Proposal(proposer, action, deposit, if config.discussion > 0 then Discussion else Active, 0, 0, 0,
             now, voteEnd, 0, SatAddU64(SatAddU64(voteEnd, FINALIZE_DELAY), EXECUTION_WINDOW), config.totalSupply, false)
  }

  /** `create_proposal` and `propose_upgrade`. */
  function Create(s: Dao, proposer: Address, d: Draft, now: nat): Option<Dao> {
    var id, deposit := s.nextId, Threshold(s.settings, d.kind, d.action.target);
    if !WellFormed(d) || (d.action in s.hashes && IsOpen(s, s.hashes[d.action])) then None
    else if Balance(s.bank.ledger, proposer) < deposit || id >= U64_MAX then None
    else
      var bank := TakeDeposit(s.bank, id, proposer, deposit);
      if bank.None? then None
      else Some(s.(
        proposals := s.proposals[id := NewProposal(s.settings.config, proposer, d.action, deposit, now)],
        nextId := id + 1,
        hashes := s.hashes[d.action := id],
        bank := bank.value))
  }

  function StartVoting(s: Dao, id: nat, now: nat): Option<Dao> {
    var config := s.settings.config;
    if !InStatus(s, id, Discussion) || config.discussion == 0 then None
    else if now < SatAddU64(s.proposals[id].createdAt, config.discussion) then None
    else Some(s.(proposals := s.proposals[id := s.proposals[id].(status := Active)]))
  }

  // ----- Voting -----

  /** The balance a voter puts in: all of it, up to the cap. */
  function Pledge(s: Dao, voter: Address): int {
    var balance, cap := Balance(s.bank.ledger, voter), s.settings.config.weightCap;
    if cap > 0 then Min(balance, cap) else balance
  }

  function Power(s: Dao, holder: Address, amount: int, now: nat): int {
    var checkpoint := if holder in s.checkpoints then Some(s.checkpoints[holder]) else None;
    Weigh(s.settings.timeWeight, checkpoint, amount, now)
  }

  datatype Sweep = Sweep(total: int, swept: set<Ballot>)

  /** Adds up the live balances of delegators not yet counted on this proposal, and marks them counted. */
  function Collect(s: Dao, id: nat, delegators: seq<Address>, now: nat): Sweep
    decreases |delegators|
  {
    if delegators == [] then Sweep(0, s.swept)
    else
      var before, d := Collect(s, id, delegators[..|delegators| - 1], now), delegators[|delegators| - 1];
      var balance := Balance(s.bank.ledger, d);
      if balance <= 0 || (id, d) in before.swept then before
      else Sweep(SatAdd(before.total, Power(s, d, balance, now)), before.swept + {(id, d)})
  }

  function AddVotes(p: Proposal, choice: Choice, weight: int): Proposal {
    match choice
    case For => p.(votesFor := p.votesFor + weight)
    case Against => p.(votesAgainst := p.votesAgainst + weight)
    case Abstain => p.(votesAbstain := p.votesAbstain + weight)
  }

  function TallyOf(p: Proposal, choice: Choice): int {
    match choice
    case For => p.votesFor
    case Against => p.votesAgainst
    case Abstain => p.votesAbstain
  }

  predicate MayVote(s: Dao, voter: Address, id: nat, now: nat) {
    && InStatus(s, id, Active)
    && now <= s.proposals[id].voteEnd
    && (id, voter) !in s.votes
    && (id, voter) !in s.swept
  }

  /** Tallies one ballot of weight `own` plus whatever is delegated to the voter. */
  function CastOn(s: Dao, voter: Address, id: nat, choice: Choice, own: int, now: nat): Option<Dao> {
    if id !in s.proposals then None
    else
      var sweep := Collect(s, id, DelegatorsOf(s.delegations, voter), now);
      var weight := SatAdd(own, sweep.total);
      if weight <= 0 || !FitsI128(TallyOf(s.proposals[id], choice) + weight) then None
      else Some(s.(
        proposals := s.proposals[id := AddVotes(s.proposals[id], choice, weight)],
        votes := s.votes[(id, voter) := VoteRecord(choice, weight)],
        swept := sweep.swept))
  }

  function Vote(s: Dao, voter: Address, id: nat, choice: Choice, now: nat): Option<Dao> {
    if !MayVote(s, voter, id, now) || voter in s.delegations.delegateOf || Balance(s.bank.ledger, voter) <= 0 then None
    else
      var cast := CastOn(s, voter, id, choice, Power(s, voter, Pledge(s, voter), now), now);
      var bank := Lock(s.bank, (id, voter), Pledge(s, voter));
      if cast.None? || bank.None? then None else Some(cast.value.(bank := bank.value))
  }

  function CastAll(s: Dao, voter: Address, ids: seq<nat>, choice: Choice, own: int, now: nat): Option<Dao>
    decreases |ids|
  {
    if ids == [] then Some(s)
    else
      var next := CastOn(s, voter, ids[0], choice, own, now);
      if next.None? then None else CastAll(next.value, voter, ids[1..], choice, own, now)
  }

  function ShareAll(b: Bank, voter: Address, ids: seq<nat>): Bank
    decreases |ids|
  {
    if ids == [] then b else ShareLock(ShareAll(b, voter, ids[..|ids| - 1]), (ids[|ids| - 1], voter))
  }

  predicate MayVoteAll(s: Dao, voter: Address, ids: seq<nat>, now: nat) {
    forall i :: 0 <= i < |ids| ==> MayVote(s, voter, ids[i], now)
  }

  predicate AllDistinct(ids: seq<nat>) {
    forall i, j :: 0 <= i < j < |ids| ==> ids[i] != ids[j]
  }

  /** One pledge for the whole batch, attributed to its first proposal; the same weight on each. */
  function VoteBatch(s: Dao, voter: Address, ids: seq<nat>, choice: Choice, now: nat): Option<Dao> {
    if ids == [] || !AllDistinct(ids) || voter in s.delegations.delegateOf || !MayVoteAll(s, voter, ids, now) then None
    else if Balance(s.bank.ledger, voter) <= 0 then None
    else
      var own, bank := Power(s, voter, Pledge(s, voter), now), Lock(s.bank, (ids[0], voter), Pledge(s, voter));
      if bank.None? then None
      else
        var cast := CastAll(s.(bank := bank.value), voter, ids, choice, own, now);
        if cast.None? then None else Some(cast.value.(bank := ShareAll(bank.value, voter, ids[1..])))
  }

  /** A vote that shares another proposal's lock has nothing of its own to return. */
  function Withdraw(s: Dao, voter: Address, id: nat): Option<Dao> {
    if id !in s.proposals || s.proposals[id].status == Active then None
    else if LockOf(s.bank, (id, voter)) <= 0 then if (id, voter) in s.votes then Some(s) else None
    else
      var bank := Unlock(s.bank, (id, voter));
      if bank.None? then None else Some(s.(bank := bank.value))
  }

  // ----- Settling -----

  function QuorumNow(s: Dao): Quorum {
    EffectiveQuorum(s.settings.config.quorumBps, s.settings.decay, Average(s.history))
  }

  function Partisan(p: Proposal): int {
    p.votesFor + p.votesAgainst
  }

  function Ballots(p: Proposal): int {
    Partisan(p) + p.votesAbstain
  }

  predicate CountsFit(p: Proposal) {
    FitsI128(Partisan(p)) && FitsI128(Ballots(p))
  }

  function Decide(s: Dao, p: Proposal): bool {
    Passes(p.votesFor, p.votesAgainst, p.totalSupply, QuorumNow(s).quorumBps, s.settings.config.majorityBps)
  }

  predicate FinalizeDue(p: Proposal, now: nat) {
    FitsU64(p.voteEnd + FINALIZE_DELAY) && now > p.voteEnd + FINALIZE_DELAY
  }

  /** Settles a proposal: its turnout is recorded, `refund` of its deposit returned, its content hash freed. */
  function Close(s: Dao, id: nat, q: Proposal, refund: Option<int>): Option<Dao> {
    var bank := if refund.None? then Some(s.bank) else Release(s.bank, id, q.proposer, refund.value);
    if bank.None? then None
    else Some(s.(
      proposals := s.proposals[id := q],
      hashes := s.hashes - {q.action},
      bank := bank.value))
  }

  function Count(s: Dao, p: Proposal): Dao {
    s.(history := Record(s.history, s.settings.decay, Ballots(p), p.totalSupply))
  }

  function Finalize(s: Dao, id: nat, now: nat): Option<Dao> {
    if !InStatus(s, id, Active) || !FinalizeDue(s.proposals[id], now) || !CountsFit(s.proposals[id]) then None
    else
      var p := s.proposals[id];
      if !Decide(s, p) then Close(Count(s, p), id, p.(status := Failed), Some(p.deposit))
      else if !FitsU64(now + s.settings.config.timelock) then None
      else Close(Count(s, p), id, p.(status := Passed, executionTime := now + s.settings.config.timelock), None)
  }

  function FinalizeAll(s: Dao, ids: seq<nat>, now: nat): Option<Dao>
    decreases |ids|
  {
    if ids == [] then Some(s)
    else
      var next := Finalize(s, ids[0], now);
      if next.None? then None else FinalizeAll(next.value, ids[1..], now)
  }

  function FinalizeBatch(s: Dao, ids: seq<nat>, now: nat): Option<Dao> {
    if ids == [] || |ids| > MAX_BATCH_FINALIZE then None else FinalizeAll(s, ids, now)
  }

  function Reclaim(s: Dao, id: nat, now: nat): Option<Dao> {
    if !InStatus(s, id, Active) || now <= SatAddU64(s.proposals[id].voteEnd, RECLAIM_TIMEOUT) then None
    else if !CountsFit(s.proposals[id]) then None
    else
      var p := s.proposals[id];
      Close(Count(s, p), id, p.(status := Failed), Some(p.deposit))
  }

  predicate ExecutionDue(s: Dao, id: nat, now: nat) {
    InStatus(s, id, Passed) && !s.proposals[id].vetoed && now >= s.proposals[id].executionTime
  }

  /** `completion` is what the target returned: basis points, or None for anything that is not a u32. */
  function Execute(s: Dao, id: nat, now: nat, completion: Option<nat>): Option<Dao> {
    if !ExecutionDue(s, id, now) then None
    else
      var p, bps := s.proposals[id], completion.GetOr(BPS);
      if now > p.deadline then Close(s, id, p.(status := Expired), None)
      else if bps > BPS then None
      else
        var refund := RefundOf(p.deposit, bps);
        var bank := if refund > 0 then Release(s.bank, id, p.proposer, refund) else Some(s.bank);
        if bank.None? then None
        else Some(s.(proposals := s.proposals[id := p.(status := Executed)], bank := bank.value))
  }

  function Cancel(s: Dao, id: nat): Option<Dao> {
    if !IsOpen(s, id) then None
    else Close(s, id, s.proposals[id].(status := Cancelled), Some(s.proposals[id].deposit))
  }

  function Veto(s: Dao, guardian: Address, id: nat): Option<Dao> {
    if guardian !in s.settings.guardians || id !in s.proposals then None
    else if s.proposals[id].status == Executed || s.proposals[id].vetoed then None
    else Some(s.(proposals := s.proposals[id := s.proposals[id].(vetoed := true)]))
  }

  // ----- Delegation, checkpoints, settings -----

  function LiftDelegations(s: Dao, g: Option<Delegations>): Option<Dao> {
    if g.None? then None else Some(s.(delegations := g.value))
  }

  function LiftSettings(s: Dao, settings: Option<Settings>): Option<Dao> {
    if settings.None? then None else Some(s.(settings := settings.value))
  }

  function MakeCheckpoint(s: Dao, holder: Address, now: nat): Dao {
    var previous := if holder in s.checkpoints then Some(s.checkpoints[holder]) else None;
    s.(checkpoints := s.checkpoints[holder := NextCheckpoint(previous, Balance(s.bank.ledger, holder), now)])
  }

  function PruneHistory(s: Dao, maxEntries: nat): Dao {
    s.(history := s.history.(recentBps := Last(s.history.recentBps, Min(maxEntries, MAX_WINDOW))))
  }

  function SetConfig(t: Settings, config: Config): Option<Settings> {
    if !(MIN_VOTING_PERIOD <= config.votingPeriod <= MAX_VOTING_PERIOD) then None
    else if !(MIN_QUORUM_BPS <= config.quorumBps <= MAX_QUORUM_BPS) then None
    else Some(t.(config := config))
  }

  function SetThreshold(t: Settings, threshold: int): Option<Settings> {
    if threshold <= 0 then None else Some(t.(config := t.config.(threshold := threshold)))
  }

  function SetDecay(t: Settings, d: DecayConfig): Option<Settings> {
    if d.enabled && (d.floorBps >= t.config.quorumBps || d.floorBps < MIN_QUORUM_BPS || d.floorBps > MAX_QUORUM_BPS) then None
    else if d.enabled && (d.window == 0 || d.window > MAX_WINDOW || d.stepBps == 0) then None
    else Some(t.(decay := d.(floorBps := Max(d.floorBps, MIN_QUORUM_BPS))))
  }

  function SetTimeWeight(t: Settings, w: TimeWeightRaw): Option<Settings> {
    if w.enabled && (w.ramp == 0 || w.minBps > BPS) then None else Some(t.(timeWeight := w))
  }

  predicate MultiplierOk(bps: nat) {
    MIN_MULTIPLIER_BPS <= bps <= MAX_MULTIPLIER_BPS
  }

  function SetMultipliers(t: Settings, m: Multipliers): Option<Settings> {
    if !MultiplierOk(m.standardBps) || !MultiplierOk(m.upgradeBps) || !MultiplierOk(m.selfTargetBps) then None
    else Some(t.(multipliers := m))
  }

  // ----- Runs -----

  datatype Op =
    | OpCreate(proposer: Address, draft: Draft, now: nat)
    | OpStartVoting(id: nat, now: nat)
    | OpVote(voter: Address, id: nat, choice: Choice, now: nat)
    | OpVoteBatch(voter: Address, ids: seq<nat>, choice: Choice, now: nat)
    | OpWithdraw(voter: Address, id: nat)
    | OpFinalize(id: nat, now: nat)
    | OpFinalizeBatch(ids: seq<nat>, now: nat)
    | OpReclaim(id: nat, now: nat)
    | OpExecute(id: nat, now: nat, completion: Option<nat>)
    | OpCancel(id: nat)
    | OpVeto(guardian: Address, id: nat)
    | OpDelegate(delegator: Address, delegate: Address)
    | OpRevoke(delegator: Address)
    | OpCheckpoint(holder: Address, now: nat)
    | OpPrune(maxEntries: nat)
    | OpSetConfig(config: Config)
    | OpSetThreshold(threshold: int)
    | OpSetDecay(decay: DecayConfig)
    | OpSetTimeWeight(timeWeight: TimeWeightRaw)
    | OpSetMultipliers(multipliers: Multipliers)
    | OpSetGuardians(guardians: set<Address>)
    | OpTransfer(from: Address, to: Address, amount: int)

  function Try(s: Dao, op: Op): Option<Dao> {
    match op
    case OpCreate(proposer, draft, now) => Create(s, proposer, draft, now)
    case OpStartVoting(id, now) => StartVoting(s, id, now)
    case OpVote(voter, id, choice, now) => Vote(s, voter, id, choice, now)
    case OpVoteBatch(voter, ids, choice, now) => VoteBatch(s, voter, ids, choice, now)
    case OpWithdraw(voter, id) => Withdraw(s, voter, id)
    case OpFinalize(id, now) => Finalize(s, id, now)
    case OpFinalizeBatch(ids, now) => FinalizeBatch(s, ids, now)
    case OpReclaim(id, now) => Reclaim(s, id, now)
    case OpExecute(id, now, completion) => Execute(s, id, now, completion)
    case OpCancel(id) => Cancel(s, id)
    case OpVeto(guardian, id) => Veto(s, guardian, id)
    case OpDelegate(d, e) => LiftDelegations(s, Delegate(s.delegations, d, e))
    case OpRevoke(d) => LiftDelegations(s, Revoke(s.delegations, d))
    case OpCheckpoint(holder, now) => Some(MakeCheckpoint(s, holder, now))
    case OpPrune(maxEntries) => Some(PruneHistory(s, maxEntries))
    case OpSetConfig(config) => LiftSettings(s, SetConfig(s.settings, config))
    case OpSetThreshold(threshold) => LiftSettings(s, SetThreshold(s.settings, threshold))
    case OpSetDecay(decay) => LiftSettings(s, SetDecay(s.settings, decay))
    case OpSetTimeWeight(w) => LiftSettings(s, SetTimeWeight(s.settings, w))
    case OpSetMultipliers(m) => LiftSettings(s, SetMultipliers(s.settings, m))
    case OpSetGuardians(guardians) => Some(s.(settings := s.settings.(guardians := guardians)))
    case OpTransfer(from, to, amount) =>
      var bank := Outside(s.bank, from, to, amount);
      if bank.None? then None else Some(s.(bank := bank.value))
  }

  function Step(s: Dao, op: Op): Dao {
    Try(s, op).GetOr(s)
  }

  function Run(s: Dao, ops: seq<Op>): Dao {
    if ops == [] then s else Step(Run(s, ops[..|ops| - 1]), ops[|ops| - 1])
  }

  const NO_DECAY := DecayConfig(false, MIN_QUORUM_BPS, 0, 0)
  const NO_TIME_WEIGHT: TimeWeight := TimeWeightRaw(false, 0, 10_000)
  const NO_ESCALATION := Multipliers(10_000, 10_000, 10_000)

  /** A freshly initialized DAO on a ledger where it may already hold tokens. */
  function Deployed(config: Config, ledger: map<Address, int>): Dao {
    Dao(Settings(config, NO_DECAY, NO_TIME_WEIGHT, NO_ESCALATION, {}), map[], 0, map[], map[], {},
        Delegations(map[], map[]), Bank(ledger, map[], map[], Balance(ledger, SELF)), History([], 0), map[])
  }

  /** What `initialize` accepts on a ledger without debts. */
  ghost predicate Deployable(config: Config, ledger: map<Address, int>) {
    && SetConfig(Deployed(config, ledger).settings, config).Some?
    && (forall a :: Balance(ledger, a) >= 0)
  }

  /** Nobody can sign for the contract's own account. */
  predicate FromOutside(op: Op) {
    match op
    case OpCreate(proposer, _, _) => proposer != SELF
    case OpVote(voter, _, _, _) => voter != SELF
    case OpVoteBatch(voter, _, _, _) => voter != SELF
    case OpWithdraw(voter, _) => voter != SELF
    case OpDelegate(d, _) => d != SELF
    case OpTransfer(from, _, _) => from != SELF
    case _ => true
  }
}
