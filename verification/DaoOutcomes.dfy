/** What settling a proposal comes to: exactly when it goes through, how it is decided, where the deposit
    goes, and what a batch does. */
module DaoOutcomes {
  import opened Arithmetic
  import opened Maps
  import opened Ledger
  import opened DaoQuorum
  import opened DaoDelegation
  import opened DaoBank
  import opened DaoState
  import opened DaoTally
  import opened DaoRuns
  import opened DaoEvolution

  lemma TalliesNonNegative(s: Dao, id: nat)
    requires Sound(s) && id in s.proposals
    ensures forall choice :: TallyOf(s.proposals[id], choice) >= 0
  {
    assert TallyMatches(s.votes, id, s.proposals[id]);
    forall choice ensures TallyOf(s.proposals[id], choice) >= 0 {
      TotalNonNegative(CastFor(s.votes, id, choice));
    }
  }

  // ----- One proposal -----

  /** Active, more than 300 seconds after the end of the vote, with counts whose sums stay within i128. */
  predicate Finalizable(s: Dao, id: nat, now: nat) {
    id in s.proposals &&
    var p := s.proposals[id];
    && p.status == Active && p.voteEnd + 300 <= U64_MAX && now > p.voteEnd + 300
    && FitsI128(p.votesFor + p.votesAgainst) && FitsI128(p.votesFor + p.votesAgainst + p.votesAbstain)
  }

  /** The proposer gets `refund` of the deposit and the contract keeps the rest; the proposal is now `status`, and its
      content is free again unless it was executed. Nothing else changes, except what is said of a time of execution and
      of the recorded turnouts. */
  ghost predicate SettledWith(s: Dao, t: Dao, id: nat, status: Status, refund: int) {
    id in s.proposals && id in t.proposals &&
    var p, q := s.proposals[id], t.proposals[id];
    && q == p.(status := status, executionTime := q.executionTime)
    && (status != Passed ==> q.executionTime == p.executionTime)
    && t.proposals == s.proposals[id := q]
    && t.hashes == (if status == Executed then s.hashes else s.hashes - {p.action})
    && PaidBack(s.bank, t.bank, id, p.proposer, refund) && Held(t.bank, id) == p.deposit - refund
    && t == s.(proposals := t.proposals, hashes := t.hashes, bank := t.bank, history := t.history)
  }

  ghost predicate PaidBack(b: Bank, c: Bank, id: nat, proposer: Address, refund: int) {
    && Balance(c.ledger, proposer) == Balance(b.ledger, proposer) + refund
    && Balance(c.ledger, SELF) == Balance(b.ledger, SELF) - refund
    && (forall a :: a != proposer && a != SELF ==> Balance(c.ledger, a) == Balance(b.ledger, a))
    && (forall j :: j != id ==> Held(c, j) == Held(b, j))
    && c.locked == b.locked
  }

  /** Finalizing never fails for want of tokens: it goes through exactly when its own guards hold, passes
      exactly when the decision is positive, and returns the whole deposit exactly when it is not. */
  lemma FinalizeExact(s: Dao, id: nat, now: nat)
    requires Sound(s)
    ensures Finalize(s, id, now).Some? <==>
            Finalizable(s, id, now) && (Decide(s, s.proposals[id]) ==> FitsU64(now + s.settings.config.timelock))
    ensures Finalize(s, id, now).Some? ==> FinalizedWith(s, Finalize(s, id, now).value, id, now)
  {
    if InStatus(s, id, Active) {
      ActiveCovered(s, id);
      FinalizeCovered(s, id, now);
    }
  }

  ghost predicate FinalizedWith(s: Dao, t: Dao, id: nat, now: nat) {
    id in s.proposals &&
    var p := s.proposals[id];
    && (if Decide(s, p) then SettledWith(s, t, id, Passed, 0) else SettledWith(s, t, id, Failed, p.deposit))
    && (Decide(s, p) ==> t.proposals[id].executionTime == now + s.settings.config.timelock)
    && t.history == Count(s, p).history
  }

  lemma ActiveCovered(s: Dao, id: nat)
    requires Sound(s) && InStatus(s, id, Active)
    ensures Held(s.bank, id) == s.proposals[id].deposit <= Balance(s.bank.ledger, SELF) && s.proposals[id].proposer != SELF
  {
    Covered(s.bank, id, (id, SELF));
    assert EscrowFits(s.proposals[id], s.bank.escrow[id]);
  }

  lemma FinalizeCovered(s: Dao, id: nat, now: nat)
    requires InStatus(s, id, Active) && s.proposals[id].proposer != SELF
    requires Held(s.bank, id) == s.proposals[id].deposit <= Balance(s.bank.ledger, SELF)
    ensures Finalize(s, id, now).Some? <==>
            Finalizable(s, id, now) && (Decide(s, s.proposals[id]) ==> FitsU64(now + s.settings.config.timelock))
    ensures Finalize(s, id, now).Some? ==> FinalizedWith(s, Finalize(s, id, now).value, id, now)
  {
  }

  lemma CancelExact(s: Dao, id: nat)
    requires Sound(s)
    ensures Cancel(s, id).Some? <==> IsOpen(s, id)
    ensures Cancel(s, id).Some? ==> SettledWith(s, Cancel(s, id).value, id, Cancelled, s.proposals[id].deposit)
    ensures Cancel(s, id).Some? ==> Cancel(s, id).value.history == s.history
  {
    Covered(s.bank, id, (id, SELF));
  }

  lemma ReclaimExact(s: Dao, id: nat, now: nat)
    requires Sound(s)
    ensures Reclaim(s, id, now).Some? <==>
            && id in s.proposals && s.proposals[id].status == Active
            && now > Min(s.proposals[id].voteEnd + 1_209_600, U64_MAX)
            && FitsI128(s.proposals[id].votesFor + s.proposals[id].votesAgainst)
            && FitsI128(s.proposals[id].votesFor + s.proposals[id].votesAgainst + s.proposals[id].votesAbstain)
    ensures Reclaim(s, id, now).Some? ==> SettledWith(s, Reclaim(s, id, now).value, id, Failed, s.proposals[id].deposit)
  {
    Covered(s.bank, id, (id, SELF));
  }

  /** Passed, not vetoed, and its timelock is over. */
  predicate MayExecute(s: Dao, id: nat, now: nat) {
    id in s.proposals && s.proposals[id].status == Passed && !s.proposals[id].vetoed && now >= s.proposals[id].executionTime
  }

  /** Executing pays the reported share of the deposit, rounded down; past the deadline the proposal expires
      instead and keeps its deposit in the contract. */
  lemma ExecuteExact(s: Dao, id: nat, now: nat, completion: Option<nat>)
    requires Sound(s)
    ensures Execute(s, id, now, completion).Some? <==>
            MayExecute(s, id, now) && (now > s.proposals[id].deadline || (completion.Some? ==> completion.value <= 10_000))
    ensures Execute(s, id, now, completion).Some? ==> ExecutedWith(s, Execute(s, id, now, completion).value, id, now, completion)
  {
    if InStatus(s, id, Passed) {
      Covered(s.bank, id, (id, SELF));
      assert EscrowFits(s.proposals[id], s.bank.escrow[id]);
      ExecuteCovered(s, id, now, completion);
    }
  }

  ghost predicate ExecutedWith(s: Dao, t: Dao, id: nat, now: nat, completion: Option<nat>) {
    id in s.proposals &&
    var p := s.proposals[id];
    t.history == s.history &&
    if now > p.deadline then SettledWith(s, t, id, Expired, 0)
    else SettledWith(s, t, id, Executed, if completion.Some? then p.deposit * completion.value / 10_000 else p.deposit)
  }

  lemma ExecuteCovered(s: Dao, id: nat, now: nat, completion: Option<nat>)
    requires InStatus(s, id, Passed) && s.proposals[id].proposer != SELF
    requires Held(s.bank, id) == s.proposals[id].deposit <= Balance(s.bank.ledger, SELF)
    ensures Execute(s, id, now, completion).Some? <==>
            MayExecute(s, id, now) && (now > s.proposals[id].deadline || (completion.Some? ==> completion.value <= 10_000))
    ensures Execute(s, id, now, completion).Some? ==> ExecutedWith(s, Execute(s, id, now, completion).value, id, now, completion)
  {
    if completion.GetOr(BPS) <= BPS {
      RefundIsProportional(s.proposals[id].deposit, completion.GetOr(BPS));
    }
  }

  /** The counts of a proposal are what was recorded, and never negative. */
  lemma RecordedCounts(s: Dao, id: nat)
    requires Sound(s) && id in s.proposals
    ensures s.proposals[id].votesFor == Total(CastFor(s.votes, id, For)) >= 0
    ensures s.proposals[id].votesAgainst == Total(CastFor(s.votes, id, Against)) >= 0
  {
    TalliesNonNegative(s, id);
    assert TallyMatches(s.votes, id, s.proposals[id]);
    assert TallyOf(s.proposals[id], For) == s.proposals[id].votesFor;
    assert TallyOf(s.proposals[id], Against) == s.proposals[id].votesAgainst;
  }

  /** The decision on recorded ballots, without truncations: some partisan votes, at least the effective
      quorum of them, and the required share For. Abstentions play no part. */
  lemma FinalizeDecidesExactly(s: Dao, id: nat, now: nat)
    requires Sound(s) && Finalize(s, id, now).Some?
    requires FitsI128(s.proposals[id].totalSupply * QuorumNow(s).quorumBps) && FitsI128(s.proposals[id].votesFor * BPS)
    ensures var castFor, castAgainst := Total(CastFor(s.votes, id, For)), Total(CastFor(s.votes, id, Against));
      InStatus(Finalize(s, id, now).value, id, Passed) <==>
      && castFor + castAgainst > 0
      && castFor + castAgainst >= TruncDiv(s.proposals[id].totalSupply * QuorumNow(s).quorumBps, BPS)
      && BPS * castFor >= s.settings.config.majorityBps * (castFor + castAgainst)
  {
    var p := s.proposals[id];
    FinalizeExact(s, id, now);
    RecordedCounts(s, id);
    PassesExactly(p.votesFor, p.votesAgainst, p.totalSupply, QuorumNow(s).quorumBps, s.settings.config.majorityBps);
  }

  // ----- No proposal passes on less than a tenth of the supply -----

  predicate Approved(status: Status) {
    status == Passed || status == Executed || status == Expired
  }

  ghost predicate Quorate(p: Proposal) {
    Approved(p.status) ==> Partisan(p) > 0 && Partisan(p) >= QuorumNeeded(p.totalSupply, MIN_QUORUM_BPS)
  }

  ghost predicate AllQuorate(s: Dao) {
    forall id :: id in s.proposals ==> Quorate(s.proposals[id])
  }

  lemma MinimumQuorumNeeded(supply: int, quorumBps: nat, votes: int)
    requires quorumBps >= MIN_QUORUM_BPS && 0 < votes <= I128_MAX && votes >= QuorumNeeded(supply, quorumBps)
    ensures votes >= QuorumNeeded(supply, MIN_QUORUM_BPS)
  {
    if supply >= 0 {
      MulMono(MIN_QUORUM_BPS, quorumBps, supply);
      TruncDivMono(supply * MIN_QUORUM_BPS, supply * quorumBps, BPS);
    } else {
      MulMono(MIN_QUORUM_BPS, quorumBps, -supply);
      assert supply * quorumBps <= supply * MIN_QUORUM_BPS <= 0;
    }
  }

  lemma DecidedIsQuorate(s: Dao, id: nat)
    requires Sound(s) && id in s.proposals && Decide(s, s.proposals[id]) && CountsFit(s.proposals[id])
    ensures var p := s.proposals[id]; Partisan(p) > 0 && Partisan(p) >= QuorumNeeded(p.totalSupply, MIN_QUORUM_BPS)
  {
    var p := s.proposals[id];
    TalliesNonNegative(s, id);
    assert TallyOf(p, For) >= 0 && TallyOf(p, Against) >= 0;
    QuorumNeverBelowMinimum(s.settings.config.quorumBps, s.settings.decay, Average(s.history));
    MinimumQuorumNeeded(p.totalSupply, QuorumNow(s).quorumBps, Partisan(p));
  }

  lemma FinalizeQuorate(s: Dao, id: nat, now: nat)
    requires Sound(s) && AllQuorate(s) && Finalize(s, id, now).Some?
    ensures AllQuorate(Finalize(s, id, now).value)
  {
    if Decide(s, s.proposals[id]) {
      DecidedIsQuorate(s, id);
    }
  }

  lemma {:induction false} FinalizeAllQuorate(s: Dao, ids: seq<nat>, now: nat)
    requires Sound(s) && AllQuorate(s) && FinalizeAll(s, ids, now).Some?
    ensures AllQuorate(FinalizeAll(s, ids, now).value)
    decreases |ids|
  {
    if ids != [] {
      FinalizeQuorate(s, ids[0], now);
      FinalizeSound(s, ids[0], now);
      FinalizeAllQuorate(Finalize(s, ids[0], now).value, ids[1..], now);
    }
  }

  lemma ProposalOpApproves(s: Dao, op: Op, id: nat)
    requires IsProposalOp(op) && Try(s, op).Some? && !op.OpFinalize? && !op.OpFinalizeBatch?
    requires id in Try(s, op).value.proposals && Approved(Try(s, op).value.proposals[id].status)
    ensures id in s.proposals && Approved(s.proposals[id].status)
  {
  }

  lemma OtherOpApproves(s: Dao, op: Op, id: nat)
    requires !IsVoterOp(op) && !IsProposalOp(op) && Try(s, op).Some?
    ensures Try(s, op).value.proposals == s.proposals
  {
  }

  /** Only finalizing approves. */
  lemma OnlyFinalizingApproves(s: Dao, op: Op, id: nat)
    requires Sound(s) && FromOutside(op) && Try(s, op).Some? && !op.OpFinalize? && !op.OpFinalizeBatch?
    requires id in Try(s, op).value.proposals && Approved(Try(s, op).value.proposals[id].status)
    ensures id in s.proposals && Approved(s.proposals[id].status)
  {
    if IsProposalOp(op) {
      ProposalOpApproves(s, op, id);
    } else if !IsVoterOp(op) {
      OtherOpApproves(s, op, id);
    } else if !op.OpWithdraw? {
      StepVotesOnly(s, op);
      assert OnlyCounted(s.proposals[id], Try(s, op).value.proposals[id]);
    }
  }

  /** Elsewhere an approved proposal was approved before, and its counts are frozen. */
  lemma OtherStepQuorate(s: Dao, op: Op)
    requires Sound(s) && FromOutside(op) && AllQuorate(s) && Try(s, op).Some?
    requires !op.OpFinalize? && !op.OpFinalizeBatch?
    ensures AllQuorate(Step(s, op))
  {
    var t := Step(s, op);
    StepEvolves(s, op);
    forall id | id in t.proposals ensures Quorate(t.proposals[id]) {
      if Approved(t.proposals[id].status) {
        OnlyFinalizingApproves(s, op, id);
        assert Follows(s.proposals[id], t.proposals[id]);
      }
    }
  }

  /** However far the adaptive quorum has decayed, a proposal that passed had partisan votes of at least 10%
      of the supply recorded with it. */
  lemma {:induction false} ApprovedHadQuorum(config: Config, ledger: map<Address, int>, ops: seq<Op>)
    requires Deployable(config, ledger) && forall i :: 0 <= i < |ops| ==> FromOutside(ops[i])
    ensures AllQuorate(Run(Deployed(config, ledger), ops))
  {
    if ops != [] {
      var before, op := ops[..|ops| - 1], ops[|ops| - 1];
      var s := Run(Deployed(config, ledger), before);
      ApprovedHadQuorum(config, ledger, before);
      ReachableSound(config, ledger, before);
      if Try(s, op).Some? {
        if op.OpFinalize? {
          FinalizeQuorate(s, op.id, op.now);
        } else if op.OpFinalizeBatch? {
          FinalizeAllQuorate(s, op.ids, op.now);
        } else {
          OtherStepQuorate(s, op);
        }
      }
    }
  }

  // ----- Batches -----

  /** Step `k` of finalizing one after the other is reached and aborts. */
  ghost predicate StepAborts(s: Dao, ids: seq<nat>, k: nat, now: nat)
    requires k < |ids|
  {
    FinalizeAll(s, ids[..k], now).Some? && Finalize(FinalizeAll(s, ids[..k], now).value, ids[k], now).None?
  }

  lemma FinalizeAllPrefix(s: Dao, ids: seq<nat>, k: nat, now: nat)
    requires 0 < k <= |ids| && Finalize(s, ids[0], now).Some?
    ensures FinalizeAll(s, ids[..k], now) == FinalizeAll(Finalize(s, ids[0], now).value, ids[1..][..k - 1], now)
  {
    assert ids[..k][0] == ids[0] && ids[..k][1..] == ids[1..][..k - 1];
  }

  lemma {:induction false} AbortedAt(s: Dao, ids: seq<nat>, now: nat) returns (k: nat)
    requires FinalizeAll(s, ids, now).None?
    ensures k < |ids| && StepAborts(s, ids, k, now)
    decreases |ids|
  {
    k := 0;
    assert FinalizeAll(s, ids[..0], now) == Some(s);
    if Finalize(s, ids[0], now).Some? {
      var j := AbortedAt(Finalize(s, ids[0], now).value, ids[1..], now);
      k := j + 1;
      FinalizeAllPrefix(s, ids, k, now);
    }
  }

  lemma {:induction false} AbortsFrom(s: Dao, ids: seq<nat>, k: nat, now: nat)
    requires k < |ids| && StepAborts(s, ids, k, now)
    ensures FinalizeAll(s, ids, now).None?
    decreases |ids|
  {
    if k == 0 {
      assert FinalizeAll(s, ids[..0], now) == Some(s);
    } else if Finalize(s, ids[0], now).Some? {
      FinalizeAllPrefix(s, ids, k, now);
      AbortsFrom(Finalize(s, ids[0], now).value, ids[1..], k - 1, now);
    }
  }

  /** A batch aborts exactly when some step of finalizing one after the other aborts. */
  lemma BatchAbortsWithAStep(s: Dao, ids: seq<nat>, now: nat)
    ensures FinalizeAll(s, ids, now).None? <==> exists k: nat :: k < |ids| && StepAborts(s, ids, k, now)
  {
    if FinalizeAll(s, ids, now).None? {
      var k := AbortedAt(s, ids, now);
    }
    if k: nat :| k < |ids| && StepAborts(s, ids, k, now) {
      AbortsFrom(s, ids, k, now);
    }
  }

  predicate AllFinalizable(s: Dao, ids: seq<nat>, now: nat) {
    forall i :: 0 <= i < |ids| ==> Finalizable(s, ids[i], now)
  }

  lemma BatchHead(s: Dao, t: Dao, ids: seq<nat>, now: nat)
    requires ids != [] && Finalizable(s, ids[0], now)
    requires forall j :: Finalizable(t, j, now) <==> Finalizable(s, j, now) && j != ids[0]
    ensures AllDistinct(ids) && AllFinalizable(s, ids, now) <==> AllDistinct(ids[1..]) && AllFinalizable(t, ids[1..], now)
  {
    var rest := ids[1..];
    assert forall i :: 0 <= i < |rest| ==> rest[i] == ids[i + 1];
    if AllDistinct(rest) && AllFinalizable(t, rest, now) {
      forall i | 0 <= i < |ids| ensures Finalizable(s, ids[i], now) && (i > 0 ==> ids[i] != ids[0]) {
        if i > 0 { assert Finalizable(t, rest[i - 1], now); }
      }
      forall i, j | 0 <= i < j < |ids| ensures ids[i] != ids[j] {
        if i > 0 { assert rest[i - 1] != rest[j - 1]; }
      }
    }
  }

  /** Finalizing these one after the other, each decision is negative; a decision looks at the turnouts recorded
      before it. */
  predicate NonePasses(s: Dao, ids: seq<nat>)
    decreases |ids|
  {
    ids == [] ||
    (ids[0] in s.proposals && !Decide(s, s.proposals[ids[0]]) && NonePasses(Count(s, s.proposals[ids[0]]), ids[1..]))
  }

  predicate BatchDue(s: Dao, ids: seq<nat>, now: nat) {
    && AllDistinct(ids) && AllFinalizable(s, ids, now)
    && (FitsU64(now + s.settings.config.timelock) || NonePasses(s, ids))
  }

  /** So a batch goes through exactly when it names distinct proposals each of which is finalizable on its own
      at the start, and the end of the timelock fits u64 unless nothing passes: no earlier settlement in the
      batch stands in the way of a later one, and a repeated id does. */
  lemma {:induction false} BatchExact(s: Dao, ids: seq<nat>, now: nat)
    requires Sound(s)
    ensures FinalizeAll(s, ids, now).Some? <==> BatchDue(s, ids, now)
    decreases |ids|
  {
    if ids != [] {
      FinalizeExact(s, ids[0], now);
      if Finalize(s, ids[0], now).Some? {
        var t := Finalize(s, ids[0], now).value;
        FinalizeSound(s, ids[0], now);
        BatchExact(t, ids[1..], now);
        FinalizeLeavesOthers(s, ids[0], now);
        BatchDueStep(s, t, ids, now);
      } else {
        NotDue(s, ids, now);
      }
    }
  }

  /** The entry point takes batches of 1 to 20 proposals. */
  lemma FinalizeBatchExact(s: Dao, ids: seq<nat>, now: nat)
    requires Sound(s)
    ensures FinalizeBatch(s, ids, now).Some? <==> 1 <= |ids| <= 20 && BatchDue(s, ids, now)
    ensures FinalizeBatch(s, ids, now).Some? ==> FinalizeBatch(s, ids, now) == FinalizeAll(s, ids, now)
  {
    BatchExact(s, ids, now);
  }

  lemma NotDue(s: Dao, ids: seq<nat>, now: nat)
    requires ids != []
    requires !(Finalizable(s, ids[0], now) && (Decide(s, s.proposals[ids[0]]) ==> FitsU64(now + s.settings.config.timelock)))
    ensures !BatchDue(s, ids, now)
  {
    assert AllFinalizable(s, ids, now) ==> Finalizable(s, ids[0], now);
  }

  lemma BatchDueStep(s: Dao, t: Dao, ids: seq<nat>, now: nat)
    requires ids != [] && Finalizable(s, ids[0], now)
    requires Decide(s, s.proposals[ids[0]]) ==> FitsU64(now + s.settings.config.timelock)
    requires t.settings == s.settings && t.history == Count(s, s.proposals[ids[0]]).history
    requires forall j :: j in s.proposals && j != ids[0] ==> j in t.proposals && t.proposals[j] == s.proposals[j]
    requires t.proposals.Keys == s.proposals.Keys
    requires forall j :: Finalizable(t, j, now) <==> Finalizable(s, j, now) && j != ids[0]
    ensures BatchDue(s, ids, now) <==> BatchDue(t, ids[1..], now)
  {
    BatchHead(s, t, ids, now);
    if AllDistinct(ids) {
      NonePassesAfter(s, t, ids[1..], ids[0]);
    }
  }

  /** Decisions after a settlement depend on the turnout it recorded, not on what else it did. */
  lemma NonePassesAfter(s: Dao, t: Dao, rest: seq<nat>, id: nat)
    requires id in s.proposals && id !in rest
    requires t.settings == s.settings && t.history == Count(s, s.proposals[id]).history
    requires forall j :: j in s.proposals && j != id ==> j in t.proposals && t.proposals[j] == s.proposals[j]
    requires t.proposals.Keys == s.proposals.Keys
    ensures NonePasses(t, rest) == NonePasses(Count(s, s.proposals[id]), rest)
  {
    SameDecisions(t, Count(s, s.proposals[id]), rest);
  }

  lemma {:induction false} SameDecisions(s: Dao, t: Dao, ids: seq<nat>)
    requires t.settings == s.settings && t.history == s.history
    requires forall i :: 0 <= i < |ids| ==> (ids[i] in s.proposals <==> ids[i] in t.proposals)
    requires forall i :: 0 <= i < |ids| && ids[i] in s.proposals ==> t.proposals[ids[i]] == s.proposals[ids[i]]
    ensures NonePasses(s, ids) == NonePasses(t, ids)
    decreases |ids|
  {
    if ids != [] && ids[0] in s.proposals {
      SameDecisions(Count(s, s.proposals[ids[0]]), Count(t, t.proposals[ids[0]]), ids[1..]);
    }
  }

  lemma OthersFinalizable(s: Dao, t: Dao, id: nat, q: Proposal, now: nat)
    requires t.proposals == s.proposals[id := q] && q.status != Active
    ensures forall j :: Finalizable(t, j, now) <==> Finalizable(s, j, now) && j != id
  {
  }

  lemma SettledChanges(s: Dao, t: Dao, id: nat, now: nat)
    requires FinalizedWith(s, t, id, now)
    ensures id in s.proposals && id in t.proposals && t.proposals == s.proposals[id := t.proposals[id]]
    ensures t.proposals[id].status != Active && t.settings == s.settings && t.history == Count(s, s.proposals[id]).history
  {
  }

  lemma FinalizeLeavesOthers(s: Dao, id: nat, now: nat)
    requires Sound(s) && Finalize(s, id, now).Some?
    ensures forall j :: Finalizable(Finalize(s, id, now).value, j, now) <==> Finalizable(s, j, now) && j != id
    ensures var t := Finalize(s, id, now).value;
      && t.settings == s.settings && t.history == Count(s, s.proposals[id]).history && t.proposals.Keys == s.proposals.Keys
      && forall j :: j in s.proposals && j != id ==> j in t.proposals && t.proposals[j] == s.proposals[j]
  {
    var t := Finalize(s, id, now).value;
    FinalizeExact(s, id, now);
    SettledChanges(s, t, id, now);
    OthersFinalizable(s, t, id, t.proposals[id], now);
  }

  // ----- Opening -----

  predicate Duplicates(s: Dao, action: Action) {
    action in s.hashes && IsOpen(s, s.hashes[action])
  }

  /** A title of 1 to 256 characters and an impact statement of 5 to 4096; an upgrade needs only a non-empty statement
      of at most 4096. */
  predicate DraftAccepted(d: Draft) {
    1 <= d.impactLen <= 4_096 && (d.kind == Standard ==> 1 <= d.titleLen <= 256 && d.impactLen >= 5)
  }

  /** The configured threshold times the multiplier for upgrades, for proposals that call the DAO itself, or for others. */
  function DepositFor(settings: Settings, d: Draft): int {
    var bps := if d.kind == Upgrade then settings.multipliers.upgradeBps
               else if d.action.target == SELF then settings.multipliers.selfTargetBps
               else settings.multipliers.standardBps;
    TruncDiv(SatMul(settings.config.threshold, bps), 10_000)
  }

  /** The new proposal: under discussion first if there is a discussion period, then open for the voting period, and
      executable for a week after the delay; all times stop at the end of u64. */
  ghost predicate OpenedWith(config: Config, p: Proposal, proposer: Address, d: Draft, deposit: int, now: nat) {
    && p.proposer == proposer && p.action == d.action && p.deposit == deposit && p.createdAt == now
    && p.status == (if config.discussion > 0 then Discussion else Active)
    && p.votesFor == 0 && p.votesAgainst == 0 && p.votesAbstain == 0 && !p.vetoed
    && p.voteEnd == Min(now + config.discussion + config.votingPeriod, U64_MAX)
    && p.deadline == Min(p.voteEnd + 300 + 604_800, U64_MAX)
    && p.totalSupply == config.totalSupply
  }

  /** A proposal is accepted exactly when its draft is, it duplicates no open one the index knows, and its proposer
      covers the deposit; then it is open, without votes, indexed by its content, and the deposit is held for it. */
  lemma CreateExact(s: Dao, proposer: Address, d: Draft, now: nat)
    requires Sound(s) && proposer != SELF
    ensures Create(s, proposer, d, now).Some? <==>
            && DraftAccepted(d) && !Duplicates(s, d.action) && s.nextId < U64_MAX
            && 0 <= DepositFor(s.settings, d) <= Balance(s.bank.ledger, proposer)
    ensures Create(s, proposer, d, now).Some? ==>
              var t, deposit := Create(s, proposer, d, now).value, DepositFor(s.settings, d);
              && s.nextId !in s.proposals && t.nextId == s.nextId + 1
              && t.proposals == s.proposals[s.nextId := t.proposals[s.nextId]]
              && OpenedWith(s.settings.config, t.proposals[s.nextId], proposer, d, deposit, now)
              && t.hashes == s.hashes[d.action := s.nextId] && Held(t.bank, s.nextId) == deposit
              && Balance(t.bank.ledger, proposer) == Balance(s.bank.ledger, proposer) - deposit
              && Balance(t.bank.ledger, SELF) == Balance(s.bank.ledger, SELF) + deposit
              && t.votes == s.votes && t.bank.locked == s.bank.locked
              && Create(t, proposer, d, now).None?
  {
  }

  /** Cancelling a proposal right away gives its proposer the deposit back. */
  lemma CreateThenCancel(s: Dao, proposer: Address, d: Draft, now: nat)
    requires Sound(s) && proposer != SELF && Create(s, proposer, d, now).Some?
    ensures var t := Create(s, proposer, d, now).value;
      && Cancel(t, s.nextId).Some?
      && Balance(Cancel(t, s.nextId).value.bank.ledger, proposer) == Balance(s.bank.ledger, proposer)
      && d.action !in Cancel(t, s.nextId).value.hashes
  {
    CreateExact(s, proposer, d, now);
    CreateSound(s, proposer, d, now);
    CancelExact(Create(s, proposer, d, now).value, s.nextId);
  }

  ghost predicate BallotsFollowDiscussion(s: Dao) {
    forall k :: k in s.votes ==> !InStatus(s, k.0, Discussion)
  }

  lemma {:induction false} SettlingAddsNoBallots(s: Dao, ids: seq<nat>, now: nat)
    requires FinalizeAll(s, ids, now).Some?
    ensures FinalizeAll(s, ids, now).value.votes == s.votes && FinalizeAll(s, ids, now).value.delegations == s.delegations
    decreases |ids|
  {
    if ids != [] {
      FinalizeAddsNoBallots(s, ids[0], now);
      SettlingAddsNoBallots(Finalize(s, ids[0], now).value, ids[1..], now);
    }
  }

  lemma FinalizeAddsNoBallots(s: Dao, id: nat, now: nat)
    requires Finalize(s, id, now).Some?
    ensures Finalize(s, id, now).value.votes == s.votes && Finalize(s, id, now).value.delegations == s.delegations
  {
  }

  lemma OthersAddNoBallots(s: Dao, op: Op)
    requires !op.OpVote? && !op.OpVoteBatch? && Try(s, op).Some?
    ensures Try(s, op).value.votes == s.votes
  {
    if op.OpFinalizeBatch? {
      SettlingAddsNoBallots(s, op.ids, op.now);
    }
  }

  lemma NewBallots(s: Dao, op: Op)
    requires Sound(s) && FromOutside(op) && Try(s, op).Some?
    ensures forall k :: k in Try(s, op).value.votes && k !in s.votes ==> InStatus(s, k.0, Active)
  {
    if op.OpVote? || op.OpVoteBatch? {
      StepVotesOnly(s, op);
    } else {
      OthersAddNoBallots(s, op);
    }
  }

  /** In every reachable state a proposal still under discussion has no ballots and empty tallies. */
  lemma {:induction false} DiscussionHasNoBallots(config: Config, ledger: map<Address, int>, ops: seq<Op>, id: nat)
    requires Deployable(config, ledger) && forall i :: 0 <= i < |ops| ==> FromOutside(ops[i])
    ensures var s := Run(Deployed(config, ledger), ops);
      && BallotsFollowDiscussion(s)
      && (InStatus(s, id, Discussion) ==> forall choice :: TallyOf(s.proposals[id], choice) == 0)
  {
    ReachableSound(config, ledger, ops);
    if ops != [] {
      var s, op := Run(Deployed(config, ledger), ops[..|ops| - 1]), ops[|ops| - 1];
      DiscussionHasNoBallots(config, ledger, ops[..|ops| - 1], id);
      ReachableSound(config, ledger, ops[..|ops| - 1]);
      StepFollowsDiscussion(s, op);
    }
    NoBallotsNoTallies(Run(Deployed(config, ledger), ops), id);
  }

  lemma StepFollowsDiscussion(s: Dao, op: Op)
    requires Sound(s) && FromOutside(op) && BallotsFollowDiscussion(s)
    ensures BallotsFollowDiscussion(Step(s, op))
  {
    if Try(s, op).Some? {
      var t := Step(s, op);
      StepEvolves(s, op);
      NewBallots(s, op);
      forall k | k in t.votes ensures !InStatus(t, k.0, Discussion) {
        assert k.0 in s.proposals && Follows(s.proposals[k.0], t.proposals[k.0]);
      }
    }
  }

  lemma NoBallotsNoTallies(s: Dao, id: nat)
    requires TallySound(s.proposals, s.votes) && BallotsFollowDiscussion(s)
    ensures InStatus(s, id, Discussion) ==> forall choice :: TallyOf(s.proposals[id], choice) == 0
  {
    if InStatus(s, id, Discussion) {
      assert TallyMatches(s.votes, id, s.proposals[id]);
      forall choice ensures TallyOf(s.proposals[id], choice) == 0 {
        assert CastFor(s.votes, id, choice) == map[];
      }
    }
  }

  /** A guardian's veto stops execution for good, whatever follows. */
  lemma VetoStopsExecution(s: Dao, guardian: Address, id: nat, ops: seq<Op>, now: nat, completion: Option<nat>)
    requires Sound(s) && (forall i :: 0 <= i < |ops| ==> FromOutside(ops[i])) && Veto(s, guardian, id).Some?
    ensures guardian in s.settings.guardians
    ensures Execute(Run(Veto(s, guardian, id).value, ops), id, now, completion).None?
  {
    var t := Veto(s, guardian, id).value;
    RelabelSound(s, id, s.proposals[id].(vetoed := true));
    RunEvolves(t, ops);
    assert Follows(t.proposals[id], Run(t, ops).proposals[id]);
  }
}
