/** Exactly when a ballot is accepted and what it changes, in terms of what is stored; and that none counts late. */
module DaoAdmission {
  import opened Arithmetic
  import opened Sequences
  import opened Ledger
  import opened DaoQuorum
  import opened DaoDelegation
  import opened DaoBank
  import opened DaoState
  import opened DaoTally
  import opened DaoRuns
  import opened DaoEvolution
  import opened DaoOutcomes
  import opened DaoVoting
  import opened DaoLocking

  // ----- One ballot -----

  /** The proposal is Active, its deadline has not passed, and the voter neither voted on it nor was swept by a
      delegate's vote on it. */
  predicate PollOpen(s: Dao, voter: Address, id: nat, now: nat) {
    && id in s.proposals && s.proposals[id].status == Active && now <= s.proposals[id].voteEnd
    && (id, voter) !in s.votes && (id, voter) !in s.swept
  }

  /** The whole balance, or the cap where one is set and lower. */
  function TokensPut(s: Dao, voter: Address): int {
    var balance, cap := Balance(s.bank.ledger, voter), s.settings.config.weightCap;
    if 0 < cap < balance then cap else balance
  }

  /** The voter's own power and what the delegators' uncounted tokens add, saturating. */
  function BallotWeight(s: Dao, voter: Address, id: nat, now: nat): int {
    SatAdd(Power(s, voter, TokensPut(s, voter), now), Collect(s, id, DelegatorsOf(s.delegations, voter), now).total)
  }

  function CountFor(p: Proposal, choice: Choice): int {
    match choice
    case For => p.votesFor
    case Against => p.votesAgainst
    case Abstain => p.votesAbstain
  }

  /** A ballot of this weight can be added to the tally of its choice. */
  predicate Countable(s: Dao, id: nat, choice: Choice, weight: int) {
    id in s.proposals && weight > 0 && FitsI128(CountFor(s.proposals[id], choice) + weight)
  }

  /** The same proposal with `weight` more for `choice`. */
  ghost predicate CountedFor(p: Proposal, q: Proposal, choice: Choice, weight: int) {
    && q == p.(votesFor := q.votesFor, votesAgainst := q.votesAgainst, votesAbstain := q.votesAbstain)
    && forall c :: CountFor(q, c) == CountFor(p, c) + if c == choice then weight else 0
  }

  /** What an accepted vote changes: one ballot, one tally, the tokens put in and locked, and who was swept. */
  ghost predicate VotedWith(s: Dao, t: Dao, voter: Address, id: nat, choice: Choice, weight: int, tokens: int) {
    && id in s.proposals && id in t.proposals && t.proposals.Keys == s.proposals.Keys
    && CountedFor(s.proposals[id], t.proposals[id], choice, weight)
    && (forall j :: j in s.proposals && j != id ==> t.proposals[j] == s.proposals[j])
    && t.votes == s.votes[(id, voter) := VoteRecord(choice, weight)]
    && t.bank.locked == s.bank.locked[(id, voter) := tokens] && t.bank.escrow == s.bank.escrow
    && Balance(t.bank.ledger, voter) == Balance(s.bank.ledger, voter) - tokens
    && Balance(t.bank.ledger, SELF) == Balance(s.bank.ledger, SELF) + tokens
    && (forall a :: a != voter && a != SELF ==> Balance(t.bank.ledger, a) == Balance(s.bank.ledger, a))
    && t == s.(proposals := t.proposals, votes := t.votes, swept := t.swept, bank := t.bank)
  }

  lemma PledgeIsTokens(s: Dao, voter: Address)
    ensures Pledge(s, voter) == TokensPut(s, voter)
    ensures Balance(s.bank.ledger, voter) > 0 ==> 0 < TokensPut(s, voter) <= Balance(s.bank.ledger, voter)
  {
  }

  /** A vote is accepted exactly when the poll is open to the voter, the voter holds tokens and has not delegated, and
      the ballot weighs something that its tally has room for. */
  lemma VoteExact(s: Dao, voter: Address, id: nat, choice: Choice, now: nat)
    requires voter != SELF
    ensures Vote(s, voter, id, choice, now).Some? <==>
            && PollOpen(s, voter, id, now) && voter !in s.delegations.delegateOf && Balance(s.bank.ledger, voter) > 0
            && Countable(s, id, choice, BallotWeight(s, voter, id, now))
    ensures Vote(s, voter, id, choice, now).Some? ==>
              VotedWith(s, Vote(s, voter, id, choice, now).value, voter, id, choice, BallotWeight(s, voter, id, now), TokensPut(s, voter))
  {
    PledgeIsTokens(s, voter);
    if id in s.proposals {
      CastExact(s, voter, id, choice, Power(s, voter, TokensPut(s, voter), now), now);
    }
    if Vote(s, voter, id, choice, now).Some? {
      VoteEffect(s, voter, id, choice, now);
    }
  }

  lemma VoteEffect(s: Dao, voter: Address, id: nat, choice: Choice, now: nat)
    requires voter != SELF && Vote(s, voter, id, choice, now).Some? && Pledge(s, voter) == TokensPut(s, voter)
    ensures VotedWith(s, Vote(s, voter, id, choice, now).value, voter, id, choice, BallotWeight(s, voter, id, now), TokensPut(s, voter))
  {
  }

  /** Casting, whatever tokens stand behind it. */
  lemma CastExact(s: Dao, voter: Address, id: nat, choice: Choice, own: int, now: nat)
    requires id in s.proposals
    ensures CastOn(s, voter, id, choice, own, now).Some? <==> Countable(s, id, choice, SatAdd(own, SweptOn(s, voter, id, now)))
    ensures CastOn(s, voter, id, choice, own, now).Some? ==>
              CountedFor(s.proposals[id], CastOn(s, voter, id, choice, own, now).value.proposals[id], choice,
                         SatAdd(own, SweptOn(s, voter, id, now)))
  {
  }

  // ----- A batch -----

  predicate AllPollsOpen(s: Dao, voter: Address, ids: seq<nat>, now: nat) {
    forall i :: 0 <= i < |ids| ==> PollOpen(s, voter, ids[i], now)
  }

  predicate AllCountable(s: Dao, voter: Address, ids: seq<nat>, choice: Choice, now: nat) {
    forall i :: 0 <= i < |ids| ==> Countable(s, ids[i], choice, BallotWeight(s, voter, ids[i], now))
  }

  predicate NoRepeats(ids: seq<nat>) {
    forall i, j :: 0 <= i < j < |ids| ==> ids[i] != ids[j]
  }

  predicate AllCastable(s: Dao, voter: Address, ids: seq<nat>, choice: Choice, own: int, now: nat) {
    forall i :: 0 <= i < |ids| ==> Countable(s, ids[i], choice, SatAdd(own, SweptOn(s, voter, ids[i], now)))
  }

  /** A ballot on another proposal changes neither the tally nor the sweep of this one. */
  lemma CastLeaves(s: Dao, voter: Address, j: nat, choice: Choice, own: int, now: nat, id: nat)
    requires CastOn(s, voter, j, choice, own, now).Some? && id != j
    ensures var t := CastOn(s, voter, j, choice, own, now).value;
      Countable(t, id, choice, SatAdd(own, SweptOn(t, voter, id, now)))
      <==> Countable(s, id, choice, SatAdd(own, SweptOn(s, voter, id, now)))
  {
    CastOnOther(s, voter, j, choice, own, now, id);
  }

  lemma {:induction false} CastAllExact(s: Dao, voter: Address, ids: seq<nat>, choice: Choice, own: int, now: nat)
    requires NoRepeats(ids)
    ensures CastAll(s, voter, ids, choice, own, now).Some? <==> AllCastable(s, voter, ids, choice, own, now)
    decreases |ids|
  {
    if ids != [] {
      var rest := ids[1..];
      assert forall i :: 0 <= i < |rest| ==> rest[i] == ids[i + 1] != ids[0];
      if ids[0] in s.proposals {
        CastExact(s, voter, ids[0], choice, own, now);
      }
      if CastOn(s, voter, ids[0], choice, own, now).Some? {
        var t := CastOn(s, voter, ids[0], choice, own, now).value;
        CastAllExact(t, voter, rest, choice, own, now);
        RestCastable(s, t, voter, ids, choice, own, now);
      } else {
        assert !Countable(s, ids[0], choice, SatAdd(own, SweptOn(s, voter, ids[0], now)));
      }
    }
  }

  lemma RestCastable(s: Dao, t: Dao, voter: Address, ids: seq<nat>, choice: Choice, own: int, now: nat)
    requires ids != [] && NoRepeats(ids) && CastOn(s, voter, ids[0], choice, own, now) == Some(t)
    requires Countable(s, ids[0], choice, SatAdd(own, SweptOn(s, voter, ids[0], now)))
    ensures AllCastable(t, voter, ids[1..], choice, own, now) <==> AllCastable(s, voter, ids, choice, own, now)
  {
    var rest := ids[1..];
    forall i | 0 <= i < |rest|
      ensures Countable(t, rest[i], choice, SatAdd(own, SweptOn(t, voter, rest[i], now)))
              <==> Countable(s, ids[i + 1], choice, SatAdd(own, SweptOn(s, voter, ids[i + 1], now)))
    {
      CastLeaves(s, voter, ids[0], choice, own, now, ids[i + 1]);
    }
    if AllCastable(t, voter, rest, choice, own, now) {
      forall i | 0 <= i < |ids| ensures Countable(s, ids[i], choice, SatAdd(own, SweptOn(s, voter, ids[i], now))) {
        if i > 0 {
          assert Countable(t, rest[i - 1], choice, SatAdd(own, SweptOn(t, voter, rest[i - 1], now)));
        }
      }
    }
  }

  lemma CastLeavesProposal(s: Dao, voter: Address, j: nat, choice: Choice, own: int, now: nat, id: nat)
    requires CastOn(s, voter, j, choice, own, now).Some? && id != j && id in s.proposals
    ensures var t := CastOn(s, voter, j, choice, own, now).value;
      id in t.proposals && t.proposals[id] == s.proposals[id] && SweptOn(t, voter, id, now) == SweptOn(s, voter, id, now)
  {
    CastOnOther(s, voter, j, choice, own, now, id);
  }

  lemma {:induction false} CastAllLeaves(s: Dao, voter: Address, ids: seq<nat>, choice: Choice, own: int, now: nat, id: nat)
    requires CastAll(s, voter, ids, choice, own, now).Some? && id in s.proposals && id !in ids
    ensures var t := CastAll(s, voter, ids, choice, own, now).value; id in t.proposals && t.proposals[id] == s.proposals[id]
    decreases |ids|
  {
    if ids != [] {
      CastLeavesProposal(s, voter, ids[0], choice, own, now, id);
      CastAllLeaves(CastOn(s, voter, ids[0], choice, own, now).value, voter, ids[1..], choice, own, now, id);
    }
  }

  /** Each tally of a batch grows by its own ballot. */
  lemma {:induction false} CastAllCounts(s: Dao, voter: Address, ids: seq<nat>, choice: Choice, own: int, now: nat, id: nat)
    requires CastAll(s, voter, ids, choice, own, now).Some? && NoRepeats(ids) && id in ids
    ensures id in s.proposals
    ensures var t := CastAll(s, voter, ids, choice, own, now).value;
      id in t.proposals && CountedFor(s.proposals[id], t.proposals[id], choice, SatAdd(own, SweptOn(s, voter, id, now)))
    decreases |ids|
  {
    var next, rest := CastOn(s, voter, ids[0], choice, own, now).value, ids[1..];
    assert forall i :: 0 <= i < |rest| ==> rest[i] == ids[i + 1] != ids[0];
    assert ids == [ids[0]] + rest;
    if id == ids[0] {
      CastExact(s, voter, id, choice, own, now);
      CastAllLeaves(next, voter, rest, choice, own, now, id);
    } else {
      CastAllCounts(next, voter, rest, choice, own, now, id);
      CastLeavesProposal(s, voter, ids[0], choice, own, now, id);
    }
  }

  /** Accepting a batch: each of its proposals gets one ballot, all others are as before; the tokens are put in once
      and locked under the first. */
  ghost predicate BatchVotedWith(s: Dao, t: Dao, voter: Address, ids: seq<nat>, choice: Choice, now: nat, tokens: int) {
    && (forall i :: 0 <= i < |ids| ==>
          && ids[i] in s.proposals && ids[i] in t.proposals
          && CountedFor(s.proposals[ids[i]], t.proposals[ids[i]], choice, BallotWeight(s, voter, ids[i], now))
          && (ids[i], voter) in t.votes && t.votes[(ids[i], voter)] == VoteRecord(choice, BallotWeight(s, voter, ids[i], now))
          && LockOf(t.bank, (ids[i], voter)) == if i == 0 then tokens else 0)
    && (forall k :: k in t.votes ==> k in s.votes || (k.1 == voter && k.0 in ids))
    && (forall k :: k in s.votes ==> k in t.votes && t.votes[k] == s.votes[k])
    && (forall j :: j in s.proposals && j !in ids ==> j in t.proposals && t.proposals[j] == s.proposals[j])
    && Balance(t.bank.ledger, voter) == Balance(s.bank.ledger, voter) - tokens
  }

  lemma FundedSweeps(s: Dao, voter: Address, ids: seq<nat>, choice: Choice, now: nat, funded: Dao)
    requires Sound(s) && ids != [] && Lock(s.bank, (ids[0], voter), Pledge(s, voter)).Some?
    requires funded == s.(bank := Lock(s.bank, (ids[0], voter), Pledge(s, voter)).value)
    ensures forall id :: SweptOn(funded, voter, id, now) == SweptOn(s, voter, id, now)
  {
    forall id ensures SweptOn(funded, voter, id, now) == SweptOn(s, voter, id, now) {
      PledgeLeavesDelegators(s, voter, ids[0], id, now);
    }
  }

  lemma FundedCastable(s: Dao, voter: Address, ids: seq<nat>, choice: Choice, now: nat, funded: Dao)
    requires funded == s.(bank := funded.bank) && forall id :: SweptOn(funded, voter, id, now) == SweptOn(s, voter, id, now)
    ensures AllCastable(funded, voter, ids, choice, Power(s, voter, TokensPut(s, voter), now), now)
            <==> AllCountable(s, voter, ids, choice, now)
  {
    var own := Power(s, voter, TokensPut(s, voter), now);
    forall i | 0 <= i < |ids|
      ensures Countable(funded, ids[i], choice, SatAdd(own, SweptOn(funded, voter, ids[i], now)))
              <==> Countable(s, ids[i], choice, BallotWeight(s, voter, ids[i], now))
    {
      assert SweptOn(funded, voter, ids[i], now) == SweptOn(s, voter, ids[i], now);
    }
  }

  lemma SamePolls(s: Dao, voter: Address, ids: seq<nat>, now: nat)
    ensures MayVoteAll(s, voter, ids, now) <==> AllPollsOpen(s, voter, ids, now)
    ensures AllDistinct(ids) <==> NoRepeats(ids)
  {
    assert forall i :: 0 <= i < |ids| ==> (MayVote(s, voter, ids[i], now) <==> PollOpen(s, voter, ids[i], now));
  }

  /** A batch is accepted exactly when it names distinct proposals whose polls are all open to the voter, the voter
      holds tokens and has not delegated, and every one of its ballots weighs something that its tally has room for. */
  lemma VoteBatchExact(s: Dao, voter: Address, ids: seq<nat>, choice: Choice, now: nat)
    requires Sound(s) && voter != SELF
    ensures VoteBatch(s, voter, ids, choice, now).Some? <==>
            && ids != [] && NoRepeats(ids) && AllPollsOpen(s, voter, ids, now)
            && voter !in s.delegations.delegateOf && Balance(s.bank.ledger, voter) > 0
            && AllCountable(s, voter, ids, choice, now)
    ensures VoteBatch(s, voter, ids, choice, now).Some? ==>
              BatchVotedWith(s, VoteBatch(s, voter, ids, choice, now).value, voter, ids, choice, now, TokensPut(s, voter))
  {
    PledgeIsTokens(s, voter);
    SamePolls(s, voter, ids, now);
    if ids != [] && NoRepeats(ids) && Balance(s.bank.ledger, voter) > 0 {
      var funded := s.(bank := Lock(s.bank, (ids[0], voter), Pledge(s, voter)).value);
      FundedSweeps(s, voter, ids, choice, now, funded);
      FundedCastable(s, voter, ids, choice, now, funded);
      CastAllExact(funded, voter, ids, choice, Power(s, voter, TokensPut(s, voter), now), now);
    }
    if VoteBatch(s, voter, ids, choice, now).Some? {
      BatchEffect(s, voter, ids, choice, now);
    }
  }

  lemma BatchEffect(s: Dao, voter: Address, ids: seq<nat>, choice: Choice, now: nat)
    requires Sound(s) && voter != SELF && VoteBatch(s, voter, ids, choice, now).Some?
    ensures BatchVotedWith(s, VoteBatch(s, voter, ids, choice, now).value, voter, ids, choice, now, TokensPut(s, voter))
  {
    var t := VoteBatch(s, voter, ids, choice, now).value;
    PledgeIsTokens(s, voter);
    SamePolls(s, voter, ids, now);
    BatchPledged(s, voter, ids, choice, now);
    BatchTouches(s, voter, ids, choice, now);
    forall i | 0 <= i < |ids|
      ensures ids[i] in s.proposals && ids[i] in t.proposals
      ensures CountedFor(s.proposals[ids[i]], t.proposals[ids[i]], choice, BallotWeight(s, voter, ids[i], now))
      ensures (ids[i], voter) in t.votes && t.votes[(ids[i], voter)] == VoteRecord(choice, BallotWeight(s, voter, ids[i], now))
    {
      BatchBallot(s, voter, ids, choice, now, ids[i]);
    }
  }

  lemma BatchBallot(s: Dao, voter: Address, ids: seq<nat>, choice: Choice, now: nat, id: nat)
    requires Sound(s) && voter != SELF && VoteBatch(s, voter, ids, choice, now).Some? && id in ids
    ensures id in s.proposals
    ensures var t := VoteBatch(s, voter, ids, choice, now).value;
      && id in t.proposals && CountedFor(s.proposals[id], t.proposals[id], choice, BallotWeight(s, voter, id, now))
      && (id, voter) in t.votes && t.votes[(id, voter)] == VoteRecord(choice, BallotWeight(s, voter, id, now))
  {
    PledgeIsTokens(s, voter);
    SamePolls(s, voter, ids, now);
    var own, funded := Power(s, voter, Pledge(s, voter), now), s.(bank := Lock(s.bank, (ids[0], voter), Pledge(s, voter)).value);
    FundedSweeps(s, voter, ids, choice, now, funded);
    CastAllCounts(funded, voter, ids, choice, own, now, id);
    CastAllWeighs(funded, voter, ids, choice, own, now, id);
  }

  lemma BatchTouches(s: Dao, voter: Address, ids: seq<nat>, choice: Choice, now: nat)
    requires Sound(s) && voter != SELF && VoteBatch(s, voter, ids, choice, now).Some?
    ensures var t := VoteBatch(s, voter, ids, choice, now).value;
      && (forall k :: k in t.votes ==> k in s.votes || (k.1 == voter && k.0 in ids))
      && (forall k :: k in s.votes ==> k in t.votes && t.votes[k] == s.votes[k])
      && (forall j :: j in s.proposals && j !in ids ==> j in t.proposals && t.proposals[j] == s.proposals[j])
  {
    var own, bank := Power(s, voter, Pledge(s, voter), now), Lock(s.bank, (ids[0], voter), Pledge(s, voter)).value;
    assert forall i :: 0 <= i < |ids| ==> MayVote(s, voter, ids[i], now);
    CastAllBy(s.(bank := bank), voter, ids, choice, own, now);
  }

  // ----- No late ballots -----

  predicate VotesAfter(op: Op, end: nat) {
    (op.OpVote? || op.OpVoteBatch?) ==> op.now > end
  }

  ghost predicate SameBallots(s: Dao, t: Dao, id: nat) {
    && id in s.proposals && id in t.proposals && SameTallies(s.proposals[id], t.proposals[id])
    && t.proposals[id].voteEnd == s.proposals[id].voteEnd
    && (forall k: Ballot :: k.0 == id ==> (k in t.votes <==> k in s.votes) && (k in s.votes ==> t.votes[k] == s.votes[k]))
  }

  lemma SameTally(s: Dao, t: Dao, id: nat, c: Choice)
    requires TallySound(s.proposals, s.votes) && TallySound(t.proposals, t.votes) && id in s.proposals && id in t.proposals
    requires forall k: Ballot :: k.0 == id ==> (k in t.votes <==> k in s.votes) && (k in s.votes ==> t.votes[k] == s.votes[k])
    ensures TallyOf(s.proposals[id], c) == TallyOf(t.proposals[id], c)
  {
    assert TallyMatches(s.votes, id, s.proposals[id]) && TallyMatches(t.votes, id, t.proposals[id]);
    assert CastFor(s.votes, id, c) == CastFor(t.votes, id, c);
  }

  lemma NoNewBallots(s: Dao, t: Dao, id: nat)
    requires TallySound(s.proposals, s.votes) && TallySound(t.proposals, t.votes) && id in s.proposals
    requires ProposalsEvolve(s, t) && BallotsEvolve(s, t) && forall k :: k in t.votes && k.0 == id ==> k in s.votes
    ensures SameBallots(s, t, id)
  {
    assert Follows(s.proposals[id], t.proposals[id]);
    SameTally(s, t, id, For);
    SameTally(s, t, id, Against);
    SameTally(s, t, id, Abstain);
  }

  lemma OldBallotsOnly(s: Dao, op: Op, id: nat)
    requires Sound(s) && FromOutside(op) && !VotesOn(s, op, id)
    ensures forall k :: k in Step(s, op).votes && k.0 == id ==> k in s.votes
  {
    forall k | k in Step(s, op).votes && k.0 == id ensures k in s.votes {
      if k !in s.votes {
        NewBallot(s, op, k);
      }
    }
  }

  lemma TooLate(s: Dao, op: Op, id: nat)
    requires id in s.proposals && VotesAfter(op, s.proposals[id].voteEnd)
    ensures !VotesOn(s, op, id)
  {
    if op.OpVoteBatch? && id in op.ids {
      var i :| 0 <= i < |op.ids| && op.ids[i] == id;
      assert !MayVote(s, op.voter, op.ids[i], op.now);
    }
  }

  lemma LateStep(s: Dao, op: Op, id: nat)
    requires Sound(s) && FromOutside(op) && id in s.proposals && VotesAfter(op, s.proposals[id].voteEnd)
    ensures SameBallots(s, Step(s, op), id)
  {
    StepSound(s, op);
    StepEvolves(s, op);
    TooLate(s, op, id);
    OldBallotsOnly(s, op, id);
    NoNewBallots(s, Step(s, op), id);
  }

  /** After the deadline of a proposal no run of operations adds, changes or removes a ballot on it, whatever the tallies
      are used for: votes and batches at a later time leave ballots and counts as they are. */
  lemma {:induction false} NoLateBallots(s: Dao, ops: seq<Op>, id: nat)
    requires Sound(s) && id in s.proposals
    requires forall i :: 0 <= i < |ops| ==> FromOutside(ops[i]) && VotesAfter(ops[i], s.proposals[id].voteEnd)
    ensures SameBallots(s, Run(s, ops), id)
  {
    if ops != [] {
      NoLateBallots(s, ops[..|ops| - 1], id);
      RunEvolves(s, ops[..|ops| - 1]);
      LateStep(Run(s, ops[..|ops| - 1]), ops[|ops| - 1], id);
    }
  }
}
