/** What holds of the governance DAO in every reachable state. */
module DaoRuns {
  import opened Arithmetic
  import opened Sequences
  import opened Maps
  import opened Ledger
  import opened DaoQuorum
  import opened DaoDelegation
  import opened DaoBank
  import opened DaoState
  import opened DaoTally

  /** How much of a deposit the contract holds, by status: all of it while the proposal is undecided, passed
      or expired; nothing once it failed or was cancelled; the unearned part once it was executed. */
  ghost predicate EscrowFits(p: Proposal, held: int) {
    match p.status
    case Discussion => held == p.deposit
    case Active => held == p.deposit
    case Passed => held == p.deposit
    case Expired => held == p.deposit
    case Failed => held == 0
    case Cancelled => held == 0
    case Executed => 0 <= held <= p.deposit
  }

  ghost predicate EscrowSound(proposals: map<nat, Proposal>, escrow: map<nat, int>) {
    && proposals.Keys == escrow.Keys
    && forall id :: id in proposals ==> EscrowFits(proposals[id], escrow[id])
  }

  /** Ids are handed out in order, nobody proposes in the contract's own name, and the time to execute ends a
      fixed window after the vote. */
  ghost predicate IdsSound(proposals: map<nat, Proposal>, nextId: nat) {
    forall id :: id in proposals ==>
      && id < nextId <= U64_MAX && proposals[id].proposer != SELF
      && proposals[id].deadline == SatAddU64(SatAddU64(proposals[id].voteEnd, FINALIZE_DELAY), EXECUTION_WINDOW)
  }

  /** Ballots belong to known proposals and weigh something; a lock always belongs to a ballot. */
  ghost predicate BallotsSound(proposals: map<nat, Proposal>, votes: map<Ballot, VoteRecord>, locked: map<Ballot, int>) {
    && (forall k :: k in votes ==> k.0 in proposals && k.1 != SELF && votes[k].weight > 0)
    && locked.Keys <= votes.Keys
  }

  /** The content-hash index only ever names a proposal that is open and has that content. */
  ghost predicate HashesSound(proposals: map<nat, Proposal>, hashes: map<Action, nat>) {
    forall a :: a in hashes ==>
      hashes[a] in proposals && proposals[hashes[a]].action == a &&
      (proposals[hashes[a]].status == Discussion || proposals[hashes[a]].status == Active)
  }

  ghost predicate Solvent(ledger: map<Address, int>) {
    forall a :: Balance(ledger, a) >= 0
  }

  ghost predicate CheckpointsSound(checkpoints: map<Address, Checkpoint>) {
    forall a :: a in checkpoints ==> checkpoints[a].amount >= 0
  }

  ghost predicate QuorumSound(s: Dao) {
    QuorumSettings(s.settings.config.quorumBps, s.settings.decay) && HistorySound(s.history)
  }

  ghost predicate DelegationSound(g: Delegations) {
    Forest(g) && SELF !in g.delegateOf
  }

  ghost predicate Sound(s: Dao) {
    && Conserved(s.bank)
    && Solvent(s.bank.ledger)
    && EscrowSound(s.proposals, s.bank.escrow)
    && IdsSound(s.proposals, s.nextId)
    && BallotsSound(s.proposals, s.votes, s.bank.locked)
    && TallySound(s.proposals, s.votes)
    && HashesSound(s.proposals, s.hashes)
    && DelegationSound(s.delegations)
    && CheckpointsSound(s.checkpoints)
    && QuorumSound(s)
  }

  lemma TransferSolvent(ledger: map<Address, int>, from: Address, to: Address, amount: int)
    requires Solvent(ledger) && Transfer(ledger, from, to, amount).Some?
    ensures Solvent(Transfer(ledger, from, to, amount).value)
  {
    var after := Transfer(ledger, from, to, amount).value;
    forall a ensures Balance(after, a) >= 0 {
      assert Balance(ledger, a) >= 0;
    }
  }

  // ----- Proposals -----

  lemma CreateSound(s: Dao, proposer: Address, d: Draft, now: nat)
    requires Sound(s) && proposer != SELF && Create(s, proposer, d, now).Some?
    ensures Sound(Create(s, proposer, d, now).value)
  {
    var id, deposit := s.nextId, Threshold(s.settings, d.kind, d.action.target);
    assert id !in s.proposals;
    DepositConserves(s.bank, id, proposer, deposit);
    TransferSolvent(s.bank.ledger, proposer, SELF, deposit);
    TallyStarts(s.proposals, s.votes, id, NewProposal(s.settings.config, proposer, d.action, deposit, now));
  }

  /** Replacing a proposal by a later stage of itself, with the escrow adjusted to match. */
  lemma ProposalReplaced(s: Dao, id: nat, q: Proposal, held: int)
    requires EscrowSound(s.proposals, s.bank.escrow) && IdsSound(s.proposals, s.nextId) && TallySound(s.proposals, s.votes)
    requires BallotsSound(s.proposals, s.votes, s.bank.locked)
    requires id in s.proposals && SameTallies(s.proposals[id], q) && q.proposer == s.proposals[id].proposer
    requires q.voteEnd == s.proposals[id].voteEnd && q.deadline == s.proposals[id].deadline
    requires EscrowFits(q, held)
    ensures EscrowSound(s.proposals[id := q], s.bank.escrow[id := held])
    ensures IdsSound(s.proposals[id := q], s.nextId) && TallySound(s.proposals[id := q], s.votes)
    ensures BallotsSound(s.proposals[id := q], s.votes, s.bank.locked)
  {
    TallyUntouched(s.proposals, s.votes, id, q);
  }

  /** A proposal that closes gives up the entry for its content. */
  lemma HashesClosed(proposals: map<nat, Proposal>, hashes: map<Action, nat>, id: nat, q: Proposal)
    requires HashesSound(proposals, hashes) && id in proposals && q.action == proposals[id].action
    ensures HashesSound(proposals[id := q], hashes - {q.action})
  {
  }

  lemma HashesKept(proposals: map<nat, Proposal>, hashes: map<Action, nat>, id: nat, q: Proposal)
    requires HashesSound(proposals, hashes) && id in proposals && q.action == proposals[id].action
    requires q.status == Discussion || q.status == Active || (proposals[id].status != Discussion && proposals[id].status != Active)
    ensures HashesSound(proposals[id := q], hashes)
  {
  }

  lemma CloseSound(s: Dao, id: nat, q: Proposal, refund: Option<int>)
    requires Sound(s) && id in s.proposals && Close(s, id, q, refund).Some?
    requires var p := s.proposals[id];
      && q == p.(status := q.status, executionTime := q.executionTime)
      && (p.status == Discussion || p.status == Active || p.status == Passed)
    requires if refund.None? then q.status == Passed || q.status == Expired
             else refund.value == q.deposit && (q.status == Failed || q.status == Cancelled)
    ensures Sound(Close(s, id, q, refund).value)
  {
    HashesClosed(s.proposals, s.hashes, id, q);
    if refund.None? {
      ProposalReplaced(s, id, q, s.bank.escrow[id]);
      assert s.bank.escrow[id := s.bank.escrow[id]] == s.bank.escrow;
    } else {
      ProposalReplaced(s, id, q, 0);
      ReleaseConserves(s.bank, id, q.proposer, refund.value);
      TransferSolvent(s.bank.ledger, SELF, q.proposer, refund.value);
    }
  }

  lemma CountSound(s: Dao, p: Proposal)
    requires Sound(s)
    ensures Sound(Count(s, p))
  {
  }

  lemma FinalizeSound(s: Dao, id: nat, now: nat)
    requires Sound(s) && Finalize(s, id, now).Some?
    ensures Sound(Finalize(s, id, now).value)
  {
    var p := s.proposals[id];
    var q := if Decide(s, p) then p.(status := Passed, executionTime := now + s.settings.config.timelock)
             else p.(status := Failed);
    var refund := if Decide(s, p) then None else Some(p.deposit);
    assert Finalize(s, id, now) == Close(Count(s, p), id, q, refund);
    CountSound(s, p);
    CloseSound(Count(s, p), id, q, refund);
  }

  lemma {:induction false} FinalizeAllSound(s: Dao, ids: seq<nat>, now: nat)
    requires Sound(s) && FinalizeAll(s, ids, now).Some?
    ensures Sound(FinalizeAll(s, ids, now).value)
    decreases |ids|
  {
    if ids != [] {
      FinalizeSound(s, ids[0], now);
      FinalizeAllSound(Finalize(s, ids[0], now).value, ids[1..], now);
    }
  }

  lemma ReclaimSound(s: Dao, id: nat, now: nat)
    requires Sound(s) && Reclaim(s, id, now).Some?
    ensures Sound(Reclaim(s, id, now).value)
  {
    var p := s.proposals[id];
    CountSound(s, p);
    CloseSound(Count(s, p), id, p.(status := Failed), Some(p.deposit));
  }

  lemma ExecutedSound(s: Dao, id: nat, now: nat, completion: Option<nat>)
    requires Sound(s) && Execute(s, id, now, completion).Some? && now <= s.proposals[id].deadline
    ensures Sound(Execute(s, id, now, completion).value)
  {
    var p, bps := s.proposals[id], completion.GetOr(BPS);
    RefundIsProportional(p.deposit, bps);
    var refund, q := RefundOf(p.deposit, bps), p.(status := Executed);
    ProposalReplaced(s, id, q, p.deposit - refund);
    if refund > 0 {
      ReleaseConserves(s.bank, id, p.proposer, refund);
      TransferSolvent(s.bank.ledger, SELF, p.proposer, refund);
    } else {
      assert s.bank.escrow[id := p.deposit - refund] == s.bank.escrow;
    }
    HashesKept(s.proposals, s.hashes, id, q);
  }

  lemma ExecuteSound(s: Dao, id: nat, now: nat, completion: Option<nat>)
    requires Sound(s) && Execute(s, id, now, completion).Some?
    ensures Sound(Execute(s, id, now, completion).value)
  {
    if now > s.proposals[id].deadline {
      CloseSound(s, id, s.proposals[id].(status := Expired), None);
    } else {
      ExecutedSound(s, id, now, completion);
    }
  }

  lemma RelabelSound(s: Dao, id: nat, q: Proposal)
    requires Sound(s) && id in s.proposals
    requires q == s.proposals[id].(status := q.status, vetoed := q.vetoed)
    requires q.status == s.proposals[id].status || (s.proposals[id].status == Discussion && q.status == Active)
    ensures Sound(s.(proposals := s.proposals[id := q]))
  {
    ProposalReplaced(s, id, q, s.bank.escrow[id]);
    if q.status == s.proposals[id].status || q.status == Active {
      HashesKept(s.proposals, s.hashes, id, q);
    }
    assert s.bank.escrow[id := s.bank.escrow[id]] == s.bank.escrow;
  }

  // ----- Votes -----

  lemma CastBySound(s: Dao, t: Dao, voter: Address, ids: seq<nat>, bank: Bank)
    requires Sound(s) && CastBy(s.(bank := t.bank), t, voter, ids) && voter != SELF && TallySound(t.proposals, t.votes)
    requires Conserved(bank) && Solvent(bank.ledger) && bank.escrow == s.bank.escrow && bank.locked.Keys <= t.votes.Keys
    ensures Sound(t.(bank := bank))
  {
    forall a | a in s.hashes ensures t.proposals[s.hashes[a]].action == a {
      assert OnlyCounted(s.proposals[s.hashes[a]], t.proposals[s.hashes[a]]);
    }
  }

  lemma VoteSound(s: Dao, voter: Address, id: nat, choice: Choice, now: nat)
    requires Sound(s) && voter != SELF && Vote(s, voter, id, choice, now).Some?
    ensures Sound(Vote(s, voter, id, choice, now).value)
  {
    var pledge := Pledge(s, voter);
    var own := Power(s, voter, pledge, now);
    CastOnBy(s, voter, id, choice, own, now);
    LockConserves(s.bank, (id, voter), pledge);
    TransferSolvent(s.bank.ledger, voter, SELF, pledge);
    CastBySound(s, CastOn(s, voter, id, choice, own, now).value, voter, [id], Lock(s.bank, (id, voter), pledge).value);
  }

  /** The single pledge of a batch, locked under its first proposal and shared by the others. */
  lemma BatchPledgeSound(b: Bank, voter: Address, ids: seq<nat>, pledge: int)
    requires Conserved(b) && Solvent(b.ledger) && voter != SELF && ids != [] && AllDistinct(ids)
    requires forall id :: id in ids ==> (id, voter) !in b.locked
    requires Lock(b, (ids[0], voter), pledge).Some?
    ensures var c := ShareAll(Lock(b, (ids[0], voter), pledge).value, voter, ids[1..]);
      && Conserved(c) && Solvent(c.ledger) && c.escrow == b.escrow
      && (forall k :: k in c.locked <==> k in b.locked || (k.1 == voter && k.0 in ids))
  {
    LockConserves(b, (ids[0], voter), pledge);
    TransferSolvent(b.ledger, voter, SELF, pledge);
    forall i | 0 <= i < |ids[1..]| ensures (ids[1..][i], voter) !in Lock(b, (ids[0], voter), pledge).value.locked {
      assert ids[1..][i] == ids[i + 1] && ids[i + 1] in ids;
    }
    ShareAllConserves(Lock(b, (ids[0], voter), pledge).value, voter, ids[1..]);
    assert ids == [ids[0]] + ids[1..];
  }

  lemma VoteBatchSound(s: Dao, voter: Address, ids: seq<nat>, choice: Choice, now: nat)
    requires Sound(s) && voter != SELF && VoteBatch(s, voter, ids, choice, now).Some?
    ensures Sound(VoteBatch(s, voter, ids, choice, now).value)
  {
    var pledge := Pledge(s, voter);
    var own, bank := Power(s, voter, pledge, now), Lock(s.bank, (ids[0], voter), pledge).value;
    assert forall i :: 0 <= i < |ids| ==> MayVote(s, voter, ids[i], now);
    BatchPledgeSound(s.bank, voter, ids, pledge);
    CastAllBy(s.(bank := bank), voter, ids, choice, own, now);
    CastBySound(s, CastAll(s.(bank := bank), voter, ids, choice, own, now).value, voter, ids, ShareAll(bank, voter, ids[1..]));
  }

  lemma WithdrawSound(s: Dao, voter: Address, id: nat)
    requires Sound(s) && voter != SELF && Withdraw(s, voter, id).Some?
    ensures Sound(Withdraw(s, voter, id).value)
  {
    if LockOf(s.bank, (id, voter)) > 0 {
      UnlockConserves(s.bank, (id, voter));
      TransferSolvent(s.bank.ledger, SELF, voter, LockOf(s.bank, (id, voter)));
    }
  }

  // ----- The rest -----

  lemma DelegationSoundStep(s: Dao, op: Op)
    requires Sound(s) && FromOutside(op) && (op.OpDelegate? || op.OpRevoke?) && Try(s, op).Some?
    ensures Sound(Try(s, op).value)
  {
    if op.OpDelegate? {
      DelegateForest(s.delegations, op.delegator, op.delegate);
    } else {
      DetachExact(s.delegations, op.delegator);
    }
  }

  lemma OutsideSound(s: Dao, from: Address, to: Address, amount: int)
    requires Sound(s) && from != SELF && Outside(s.bank, from, to, amount).Some?
    ensures Sound(s.(bank := Outside(s.bank, from, to, amount).value))
  {
    OutsideConserves(s.bank, from, to, amount);
    TransferSolvent(s.bank.ledger, from, to, amount);
  }

  predicate IsSetting(op: Op) {
    op.OpSetConfig? || op.OpSetThreshold? || op.OpSetDecay? || op.OpSetTimeWeight? || op.OpSetMultipliers? || op.OpSetGuardians?
  }

  lemma SettingSound(s: Dao, op: Op)
    requires Sound(s) && IsSetting(op) && Try(s, op).Some?
    ensures Sound(Try(s, op).value)
  {
    var t := Try(s, op).value;
    assert t == s.(settings := t.settings);
    assert QuorumSettings(t.settings.config.quorumBps, t.settings.decay);
  }

  lemma CheckpointSound(s: Dao, holder: Address, now: nat)
    requires Sound(s)
    ensures Sound(MakeCheckpoint(s, holder, now))
  {
    assert Balance(s.bank.ledger, holder) >= 0;
  }

  lemma PruneSound(s: Dao, maxEntries: nat)
    requires Sound(s)
    ensures Sound(PruneHistory(s, maxEntries))
  {
  }

  /** Every operation keeps every invariant. */
  lemma StepSound(s: Dao, op: Op)
    requires Sound(s) && FromOutside(op)
    ensures Sound(Step(s, op))
  {
    if Try(s, op).Some? {
      match op
      case OpCreate(proposer, draft, now) => CreateSound(s, proposer, draft, now);
      case OpStartVoting(id, now) => RelabelSound(s, id, s.proposals[id].(status := Active));
      case OpVote(voter, id, choice, now) => VoteSound(s, voter, id, choice, now);
      case OpVoteBatch(voter, ids, choice, now) => VoteBatchSound(s, voter, ids, choice, now);
      case OpWithdraw(voter, id) => WithdrawSound(s, voter, id);
      case OpFinalize(id, now) => FinalizeSound(s, id, now);
      case OpFinalizeBatch(ids, now) => FinalizeAllSound(s, ids, now);
      case OpReclaim(id, now) => ReclaimSound(s, id, now);
      case OpExecute(id, now, completion) => ExecuteSound(s, id, now, completion);
      case OpCancel(id) => CloseSound(s, id, s.proposals[id].(status := Cancelled), Some(s.proposals[id].deposit));
      case OpVeto(_, id) => RelabelSound(s, id, s.proposals[id].(vetoed := true));
      case OpDelegate(_, _) => DelegationSoundStep(s, op);
      case OpRevoke(_) => DelegationSoundStep(s, op);
      case OpTransfer(from, to, amount) => OutsideSound(s, from, to, amount);
      case OpCheckpoint(holder, now) => CheckpointSound(s, holder, now);
      case OpPrune(maxEntries) => PruneSound(s, maxEntries);
      case _ => SettingSound(s, op);
    }
  }

  /** Custody, tallies, delegation, quorum and the indexes are sound in every state any run of operations
      can reach. */
  lemma {:induction false} ReachableSound(config: Config, ledger: map<Address, int>, ops: seq<Op>)
    requires Deployable(config, ledger) && forall i :: 0 <= i < |ops| ==> FromOutside(ops[i])
    ensures Sound(Run(Deployed(config, ledger), ops))
  {
    if ops == [] {
      var s := Deployed(config, ledger);
      assert Total(s.bank.escrow) == 0 && Total(s.bank.locked) == 0;
      assert forall e :: ListExact(s.delegations, e);
    } else {
      ReachableSound(config, ledger, ops[..|ops| - 1]);
      StepSound(Run(Deployed(config, ledger), ops[..|ops| - 1]), ops[|ops| - 1]);
    }
  }
}
