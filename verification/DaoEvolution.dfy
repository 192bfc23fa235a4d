/** What no operation can take back: the life cycle of a proposal, its ballots, its locks and its deposit. */
module DaoEvolution {
  import opened Arithmetic
  import opened Maps
  import opened Ledger
  import opened DaoQuorum
  import opened DaoDelegation
  import opened DaoBank
  import opened DaoState
  import opened DaoTally
  import opened DaoRuns

  predicate Settled(status: Status) {
    status != Discussion && status != Active && status != Passed
  }

  /** The life cycle: Discussion, Active, Passed, then Executed or Expired; Failed or Cancelled before that. */
  predicate Reaches(a: Status, b: Status) {
    || a == b
    || a == Discussion
    || (a == Active && b != Discussion)
    || (a == Passed && (b == Executed || b == Expired))
  }

  /** `q` is a later stage of `p`. */
  ghost predicate Follows(p: Proposal, q: Proposal) {
    && q == p.(status := q.status, votesFor := q.votesFor, votesAgainst := q.votesAgainst, votesAbstain := q.votesAbstain,
               executionTime := q.executionTime, vetoed := q.vetoed)
    && Reaches(p.status, q.status)
    && (p.status != Discussion && p.status != Active ==> SameTallies(p, q) && p.executionTime == q.executionTime)
    && (p.vetoed ==> q.vetoed && (p.status != Executed ==> q.status != Executed))
  }

  ghost predicate ProposalsEvolve(s: Dao, t: Dao) {
    forall id :: id in s.proposals ==>
      && id in t.proposals
      && Follows(s.proposals[id], t.proposals[id])
      && (s.proposals[id].status == t.proposals[id].status ==> Held(s.bank, id) == Held(t.bank, id))
  }

  /** Ballots and sweeps are final, and a holder whose weight a delegate already cast cannot vote any more. */
  ghost predicate BallotsEvolve(s: Dao, t: Dao) {
    && (forall k :: k in s.votes ==> k in t.votes && t.votes[k] == s.votes[k])
    && s.swept <= t.swept
    && (forall k :: k in s.swept && k !in s.votes ==> k !in t.votes)
  }

  /** Tokens locked under a proposal stay locked while it is Active. */
  ghost predicate LocksEvolve(s: Dao, t: Dao) {
    forall k :: k in s.bank.locked && InStatus(s, k.0, Active) && InStatus(t, k.0, Active) ==>
      k in t.bank.locked && t.bank.locked[k] == s.bank.locked[k]
  }

  ghost predicate Evolves(s: Dao, t: Dao) {
    ProposalsEvolve(s, t) && BallotsEvolve(s, t) && LocksEvolve(s, t)
  }

  lemma FollowsTransitive(p: Proposal, q: Proposal, r: Proposal)
    requires Follows(p, q) && Follows(q, r)
    ensures Follows(p, r)
    ensures p.status == r.status ==> q.status == p.status
  {
  }

  lemma ProposalsEvolveOn(s: Dao, t: Dao, u: Dao)
    requires ProposalsEvolve(s, t) && ProposalsEvolve(t, u)
    ensures ProposalsEvolve(s, u)
  {
    forall id | id in s.proposals
      ensures id in u.proposals && Follows(s.proposals[id], u.proposals[id])
      ensures s.proposals[id].status == u.proposals[id].status ==> Held(s.bank, id) == Held(u.bank, id)
    {
      FollowsTransitive(s.proposals[id], t.proposals[id], u.proposals[id]);
    }
  }

  lemma LocksEvolveOn(s: Dao, t: Dao, u: Dao)
    requires ProposalsEvolve(s, t) && ProposalsEvolve(t, u) && LocksEvolve(s, t) && LocksEvolve(t, u)
    ensures LocksEvolve(s, u)
  {
    forall k | k in s.bank.locked && InStatus(s, k.0, Active) && InStatus(u, k.0, Active)
      ensures k in u.bank.locked && u.bank.locked[k] == s.bank.locked[k]
    {
      FollowsTransitive(s.proposals[k.0], t.proposals[k.0], u.proposals[k.0]);
    }
  }

  lemma EvolvesTransitive(s: Dao, t: Dao, u: Dao)
    requires Evolves(s, t) && Evolves(t, u)
    ensures Evolves(s, u)
  {
    ProposalsEvolveOn(s, t, u);
    LocksEvolveOn(s, t, u);
  }

  lemma CloseEvolves(s: Dao, id: nat, q: Proposal, refund: Option<int>)
    requires id in s.proposals && Follows(s.proposals[id], q) && q.status != s.proposals[id].status && q.status != Active
    requires Close(s, id, q, refund).Some?
    ensures Evolves(s, Close(s, id, q, refund).value)
  {
  }

  lemma FinalizeEvolves(s: Dao, id: nat, now: nat)
    requires Finalize(s, id, now).Some?
    ensures Evolves(s, Finalize(s, id, now).value)
  {
    var p := s.proposals[id];
    if Decide(s, p) {
      CloseEvolves(Count(s, p), id, p.(status := Passed, executionTime := now + s.settings.config.timelock), None);
    } else {
      CloseEvolves(Count(s, p), id, p.(status := Failed), Some(p.deposit));
    }
  }

  lemma {:induction false} FinalizeAllEvolves(s: Dao, ids: seq<nat>, now: nat)
    requires FinalizeAll(s, ids, now).Some?
    ensures Evolves(s, FinalizeAll(s, ids, now).value)
    decreases |ids|
  {
    if ids != [] {
      var t := Finalize(s, ids[0], now).value;
      FinalizeEvolves(s, ids[0], now);
      FinalizeAllEvolves(t, ids[1..], now);
      EvolvesTransitive(s, t, FinalizeAll(t, ids[1..], now).value);
    }
  }

  lemma ExecuteEvolves(s: Dao, id: nat, now: nat, completion: Option<nat>)
    requires Execute(s, id, now, completion).Some?
    ensures Evolves(s, Execute(s, id, now, completion).value)
  {
    if now > s.proposals[id].deadline {
      CloseEvolves(s, id, s.proposals[id].(status := Expired), None);
    }
  }

  /** Casting ballots only adds to counts and ballots. */
  lemma CastEvolves(s: Dao, t: Dao, voter: Address, ids: seq<nat>, bank: Bank)
    requires CastBy(s, t, voter, ids) && forall id :: id in ids ==> (id, voter) !in s.swept && InStatus(s, id, Active)
    requires bank.escrow == s.bank.escrow
    requires forall k :: k in s.bank.locked ==> k in bank.locked && bank.locked[k] == s.bank.locked[k]
    ensures Evolves(s, t.(bank := bank))
  {
    forall j | j in s.proposals ensures Follows(s.proposals[j], t.proposals[j]) {
      assert OnlyCounted(s.proposals[j], t.proposals[j]);
      assert j !in ids ==> t.proposals[j] == s.proposals[j];
    }
  }

  lemma VoteEvolves(s: Dao, voter: Address, id: nat, choice: Choice, now: nat)
    requires Sound(s) && Vote(s, voter, id, choice, now).Some?
    ensures Evolves(s, Vote(s, voter, id, choice, now).value)
  {
    var own, bank := Power(s, voter, Pledge(s, voter), now), Lock(s.bank, (id, voter), Pledge(s, voter)).value;
    CastOnBy(s, voter, id, choice, own, now);
    LockKeepsOthers(s.bank, (id, voter), Pledge(s, voter));
    CastEvolves(s, CastOn(s, voter, id, choice, own, now).value, voter, [id], bank);
  }

  lemma LockKeepsOthers(b: Bank, k: Ballot, pledge: int)
    requires k !in b.locked && Lock(b, k, pledge).Some?
    ensures Lock(b, k, pledge).value.escrow == b.escrow
    ensures forall l :: l in b.locked ==> l in Lock(b, k, pledge).value.locked && Lock(b, k, pledge).value.locked[l] == b.locked[l]
  {
  }

  lemma CastAllEvolves(s: Dao, t: Dao, voter: Address, ids: seq<nat>, pledge: int, now: nat)
    requires Conserved(s.bank) && voter != SELF && ids != [] && AllDistinct(ids) && MayVoteAll(s, voter, ids, now)
    requires Lock(s.bank, (ids[0], voter), pledge).Some? && s.bank.locked.Keys <= s.votes.Keys
    requires CastBy(s, t, voter, ids)
    ensures Evolves(s, t.(bank := ShareAll(Lock(s.bank, (ids[0], voter), pledge).value, voter, ids[1..])))
  {
    assert forall i :: 0 <= i < |ids| ==> MayVote(s, voter, ids[i], now);
    BatchLocksKept(s.bank, voter, ids, pledge);
    CastEvolves(s, t, voter, ids, ShareAll(Lock(s.bank, (ids[0], voter), pledge).value, voter, ids[1..]));
  }

  lemma VoteBatchEvolves(s: Dao, voter: Address, ids: seq<nat>, choice: Choice, now: nat)
    requires Sound(s) && voter != SELF && VoteBatch(s, voter, ids, choice, now).Some?
    ensures Evolves(s, VoteBatch(s, voter, ids, choice, now).value)
  {
    var pledge := Pledge(s, voter);
    var own, bank := Power(s, voter, pledge, now), Lock(s.bank, (ids[0], voter), pledge).value;
    assert forall i :: 0 <= i < |ids| ==> MayVote(s, voter, ids[i], now);
    CastAllBy(s.(bank := bank), voter, ids, choice, own, now);
    var t := CastAll(s.(bank := bank), voter, ids, choice, own, now).value;
    CastAllEvolves(s, t.(bank := s.bank), voter, ids, pledge, now);
  }

  lemma BatchLocksKept(b: Bank, voter: Address, ids: seq<nat>, pledge: int)
    requires Conserved(b) && voter != SELF && ids != [] && AllDistinct(ids)
    requires forall id :: id in ids ==> (id, voter) !in b.locked
    requires Lock(b, (ids[0], voter), pledge).Some?
    ensures var c := ShareAll(Lock(b, (ids[0], voter), pledge).value, voter, ids[1..]);
      && c.escrow == b.escrow
      && (forall k :: k in b.locked ==> k in c.locked && c.locked[k] == b.locked[k])
      && LockOf(c, (ids[0], voter)) == pledge
      && (forall id :: id in ids[1..] ==> LockOf(c, (id, voter)) == 0)
  {
    var locked := Lock(b, (ids[0], voter), pledge).value;
    LockConserves(b, (ids[0], voter), pledge);
    forall i | 0 <= i < |ids[1..]| ensures (ids[1..][i], voter) !in locked.locked {
      assert ids[1..][i] == ids[i + 1] && ids[i + 1] in ids;
    }
    ShareAllConserves(locked, voter, ids[1..]);
  }

  lemma CreateEvolves(s: Dao, proposer: Address, d: Draft, now: nat)
    requires Sound(s) && Create(s, proposer, d, now).Some?
    ensures Evolves(s, Create(s, proposer, d, now).value)
  {
    assert s.nextId !in s.proposals;
  }

  lemma WithdrawEvolves(s: Dao, voter: Address, id: nat)
    requires Withdraw(s, voter, id).Some?
    ensures Evolves(s, Withdraw(s, voter, id).value)
  {
  }

  lemma RelabelEvolves(s: Dao, id: nat, q: Proposal)
    requires id in s.proposals && Follows(s.proposals[id], q)
    ensures Evolves(s, s.(proposals := s.proposals[id := q]))
  {
  }

  /** Votes change nothing of a proposal but its counts. */
  lemma StepVotesOnly(s: Dao, op: Op)
    requires Sound(s) && FromOutside(op) && (op.OpVote? || op.OpVoteBatch?) && Try(s, op).Some?
    ensures var t := Try(s, op).value;
      && t.hashes == s.hashes && t.settings == s.settings && t.proposals.Keys == s.proposals.Keys
      && (forall id :: id in s.proposals ==> OnlyCounted(s.proposals[id], t.proposals[id]))
      && (forall k :: k in t.votes && k !in s.votes ==> InStatus(s, k.0, Active))
  {
    var own := Power(s, op.voter, Pledge(s, op.voter), op.now);
    if op.OpVote? {
      CastOnBy(s, op.voter, op.id, op.choice, own, op.now);
    } else {
      var bank := Lock(s.bank, (op.ids[0], op.voter), Pledge(s, op.voter)).value;
      assert forall i :: 0 <= i < |op.ids| ==> MayVote(s, op.voter, op.ids[i], op.now);
      CastAllBy(s.(bank := bank), op.voter, op.ids, op.choice, own, op.now);
    }
  }

  predicate IsVoterOp(op: Op) {
    op.OpVote? || op.OpVoteBatch? || op.OpWithdraw?
  }

  predicate IsProposalOp(op: Op) {
    op.OpCreate? || op.OpStartVoting? || op.OpVeto? || op.OpFinalize? || op.OpFinalizeBatch? || op.OpReclaim?
    || op.OpExecute? || op.OpCancel?
  }

  /** Delegations, settings, checkpoints and outside transfers leave proposals, ballots and locks alone. */
  lemma OtherOpEvolves(s: Dao, op: Op)
    requires !IsVoterOp(op) && !IsProposalOp(op) && Try(s, op).Some?
    ensures Evolves(s, Try(s, op).value)
  {
    var t := Try(s, op).value;
    assert t.proposals == s.proposals && t.votes == s.votes && t.swept == s.swept;
    assert t.bank.escrow == s.bank.escrow && t.bank.locked == s.bank.locked;
  }

  lemma VoterOpEvolves(s: Dao, op: Op)
    requires Sound(s) && FromOutside(op) && IsVoterOp(op) && Try(s, op).Some?
    ensures Evolves(s, Try(s, op).value)
  {
    match op
    case OpVote(voter, id, choice, now) => VoteEvolves(s, voter, id, choice, now);
    case OpVoteBatch(voter, ids, choice, now) => VoteBatchEvolves(s, voter, ids, choice, now);
    case OpWithdraw(voter, id) => WithdrawEvolves(s, voter, id);
  }

  lemma ProposalOpEvolves(s: Dao, op: Op)
    requires Sound(s) && IsProposalOp(op) && Try(s, op).Some?
    ensures Evolves(s, Try(s, op).value)
  {
    match op
    case OpCreate(proposer, draft, now) => CreateEvolves(s, proposer, draft, now);
    case OpStartVoting(id, now) => RelabelEvolves(s, id, s.proposals[id].(status := Active));
    case OpVeto(_, id) => RelabelEvolves(s, id, s.proposals[id].(vetoed := true));
    case OpFinalize(id, now) => FinalizeEvolves(s, id, now);
    case OpFinalizeBatch(ids, now) => FinalizeAllEvolves(s, ids, now);
    case OpReclaim(id, now) =>
      var p := s.proposals[id];
      CloseEvolves(Count(s, p), id, p.(status := Failed), Some(p.deposit));
    case OpExecute(id, now, completion) => ExecuteEvolves(s, id, now, completion);
    case OpCancel(id) => CloseEvolves(s, id, s.proposals[id].(status := Cancelled), Some(s.proposals[id].deposit));
  }

  lemma StepEvolves(s: Dao, op: Op)
    requires Sound(s) && FromOutside(op)
    ensures Evolves(s, Step(s, op))
  {
    if Try(s, op).Some? {
      if IsVoterOp(op) {
        VoterOpEvolves(s, op);
      } else if IsProposalOp(op) {
        ProposalOpEvolves(s, op);
      } else {
        OtherOpEvolves(s, op);
      }
    }
  }

  lemma {:induction false} RunEvolves(s: Dao, ops: seq<Op>)
    requires Sound(s) && forall i :: 0 <= i < |ops| ==> FromOutside(ops[i])
    ensures Sound(Run(s, ops)) && Evolves(s, Run(s, ops))
  {
    if ops != [] {
      var before := Run(s, ops[..|ops| - 1]);
      RunEvolves(s, ops[..|ops| - 1]);
      StepSound(before, ops[|ops| - 1]);
      StepEvolves(before, ops[|ops| - 1]);
      EvolvesTransitive(s, before, Run(s, ops));
    }
  }

  /** A deposit leaves at most once: after a proposal is settled no run of operations moves any more of it,
      changes its outcome or its counts. */
  lemma DepositLeavesOnce(s: Dao, ops: seq<Op>, id: nat)
    requires Sound(s) && (forall i :: 0 <= i < |ops| ==> FromOutside(ops[i]))
    requires id in s.proposals && Settled(s.proposals[id].status)
    ensures var t := Run(s, ops);
      && InStatus(t, id, s.proposals[id].status) && SameTallies(s.proposals[id], t.proposals[id])
      && Held(t.bank, id) == Held(s.bank, id)
  {
    RunEvolves(s, ops);
    assert Follows(s.proposals[id], Run(s, ops).proposals[id]);
  }

  /** A veto is for good: a vetoed proposal is never executed afterwards. */
  lemma VetoIsFinal(s: Dao, ops: seq<Op>, id: nat)
    requires Sound(s) && (forall i :: 0 <= i < |ops| ==> FromOutside(ops[i]))
    requires id in s.proposals && s.proposals[id].vetoed && s.proposals[id].status != Executed
    ensures !InStatus(Run(s, ops), id, Executed)
  {
    RunEvolves(s, ops);
    assert Follows(s.proposals[id], Run(s, ops).proposals[id]);
  }

  /** Once a delegate's vote has counted a holder's tokens on a proposal, the holder's own vote on it is
      refused for ever, single or in a batch. */
  lemma SweptNeverVotes(s: Dao, ops: seq<Op>, id: nat, holder: Address, choice: Choice, now: nat, ids: seq<nat>)
    requires Sound(s) && (forall i :: 0 <= i < |ops| ==> FromOutside(ops[i]))
    requires (id, holder) in s.swept && (id, holder) !in s.votes && id in ids
    ensures (id, holder) !in Run(s, ops).votes
    ensures Vote(Run(s, ops), holder, id, choice, now).None?
    ensures VoteBatch(Run(s, ops), holder, ids, choice, now).None?
  {
    RunEvolves(s, ops);
    var i :| 0 <= i < |ids| && ids[i] == id;
    assert !MayVote(Run(s, ops), holder, ids[i], now);
  }
}
