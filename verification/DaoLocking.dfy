/** Whether locking keeps the same tokens from voting twice on a proposal: it does exactly as long as no vote on it
    counts delegated weight and no batch names it after its first entry, whatever happens on other proposals. */
module DaoLocking {
  import opened Arithmetic
  import opened Sequences
  import opened Maps
  import opened Ledger
  import opened DaoQuorum
  import opened DaoDelegation
  import opened DaoBank
  import opened DaoState
  import opened DaoTally
  import opened DaoRuns
  import opened DaoEvolution
  import opened DaoOutcomes
  import opened DaoBatchOrder
  import opened DaoVoting

  /** The tokens locked under a proposal. */
  function LocksOn(locked: map<Ballot, int>, id: nat): map<Ballot, int> {
    map k | k in locked && k.0 == id :: locked[k]
  }

  // ----- Votes that count tokens they do not lock -----

  /** Somebody who delegates to the voter holds tokens with weight that no vote on `id` has counted yet. */
  ghost predicate LendsWeight(s: Dao, voter: Address, id: nat, now: nat) {
    exists d :: d in DelegatorsOf(s.delegations, voter) && UncountedFn(s, id)(d) && PowerFn(s, now)(d) > 0
  }

  /** An accepted vote on `id`, alone or in a batch. */
  predicate VotesOn(s: Dao, op: Op, id: nat) {
    Try(s, op).Some? && ((op.OpVote? && op.id == id) || (op.OpVoteBatch? && id in op.ids))
  }

  /** A vote on `id` that counts delegated weight, or whose batch locks the voter's own tokens elsewhere. */
  ghost predicate Borrows(s: Dao, op: Op, id: nat) {
    VotesOn(s, op, id) && (LendsWeight(s, op.voter, id, op.now) || (op.OpVoteBatch? && op.ids[0] != id))
  }

  ghost predicate NeverBorrows(s: Dao, ops: seq<Op>, id: nat) {
    ops != [] ==> NeverBorrows(s, ops[..|ops| - 1], id) && !Borrows(Run(s, ops[..|ops| - 1]), ops[|ops| - 1], id)
  }

  /** No vote on `id` was weighted by time. */
  predicate AtFaceValue(s: Dao, ops: seq<Op>, id: nat) {
    ops != [] ==>
      var before := Run(s, ops[..|ops| - 1]);
      AtFaceValue(s, ops[..|ops| - 1], id) && (VotesOn(before, ops[|ops| - 1], id) ==> !before.settings.timeWeight.enabled)
  }

  // ----- The weight of a ballot beside its lock -----

  /** What a vote by `voter` on `id` counts of other holders' tokens. */
  function SweptOn(s: Dao, voter: Address, id: nat, now: nat): int {
    Collect(s, id, DelegatorsOf(s.delegations, voter), now).total
  }

  lemma {:induction false} CollectPositive(s: Dao, id: nat, delegators: seq<Address>, now: nat)
    requires CheckpointsSound(s.checkpoints) && Distinct(delegators)
    ensures Collect(s, id, delegators, now).total >= 0
    ensures Collect(s, id, delegators, now).total > 0 <==>
            exists d :: d in delegators && UncountedFn(s, id)(d) && PowerFn(s, now)(d) > 0
    decreases |delegators|
  {
    if delegators != [] {
      var before, d := delegators[..|delegators| - 1], delegators[|delegators| - 1];
      assert delegators == before + [d] && d !in before;
      assert Distinct(before);
      CollectPositive(s, id, before, now);
      CollectSnoc(s, id, before, d, now);
      if UncountedFn(s, id)(d) {
        PowerWithinBalance(s, d, Balance(s.bank.ledger, d), now);
      }
    }
  }

  /** Ballots on other proposals do not change what a sweep counts on this one. */
  lemma {:induction false} CollectOnOne(s: Dao, t: Dao, id: nat, delegators: seq<Address>, now: nat)
    requires t == s.(proposals := t.proposals, votes := t.votes, swept := t.swept)
    requires forall d :: (id, d) in t.swept <==> (id, d) in s.swept
    ensures Collect(t, id, delegators, now).total == Collect(s, id, delegators, now).total
    ensures forall d :: (id, d) in Collect(t, id, delegators, now).swept <==> (id, d) in Collect(s, id, delegators, now).swept
    decreases |delegators|
  {
    if delegators != [] {
      var before, d := delegators[..|delegators| - 1], delegators[|delegators| - 1];
      CollectOnOne(s, t, id, before, now);
      assert Power(t, d, Balance(t.bank.ledger, d), now) == Power(s, d, Balance(s.bank.ledger, d), now);
    }
  }

  lemma CastOnOther(s: Dao, voter: Address, j: nat, choice: Choice, own: int, now: nat, id: nat)
    requires CastOn(s, voter, j, choice, own, now).Some? && id != j
    ensures var t := CastOn(s, voter, j, choice, own, now).value;
      && t.delegations == s.delegations && SweptOn(t, voter, id, now) == SweptOn(s, voter, id, now)
      && ((id, voter) in s.votes ==> (id, voter) in t.votes && t.votes[(id, voter)] == s.votes[(id, voter)])
  {
    CollectMarks(s, j, DelegatorsOf(s.delegations, voter), now);
    CollectOnOne(s, CastOn(s, voter, j, choice, own, now).value, id, DelegatorsOf(s.delegations, voter), now);
  }

  lemma {:induction false} CastKept(s: Dao, voter: Address, ids: seq<nat>, choice: Choice, own: int, now: nat, id: nat)
    requires CastAll(s, voter, ids, choice, own, now).Some? && id !in ids && (id, voter) in s.votes
    ensures var t := CastAll(s, voter, ids, choice, own, now).value;
      (id, voter) in t.votes && t.votes[(id, voter)] == s.votes[(id, voter)]
    decreases |ids|
  {
    if ids != [] {
      CastOnOther(s, voter, ids[0], choice, own, now, id);
      CastKept(CastOn(s, voter, ids[0], choice, own, now).value, voter, ids[1..], choice, own, now, id);
    }
  }

  /** Each ballot of a batch weighs what a single vote would: the order of the batch does not matter for it. */
  lemma {:induction false} CastAllWeighs(s: Dao, voter: Address, ids: seq<nat>, choice: Choice, own: int, now: nat, id: nat)
    requires CastAll(s, voter, ids, choice, own, now).Some? && AllDistinct(ids) && id in ids
    ensures var t := CastAll(s, voter, ids, choice, own, now).value;
      (id, voter) in t.votes && t.votes[(id, voter)] == VoteRecord(choice, SatAdd(own, SweptOn(s, voter, id, now)))
    decreases |ids|
  {
    var t, rest := CastOn(s, voter, ids[0], choice, own, now).value, ids[1..];
    assert ids == [ids[0]] + rest;
    assert ids[0] !in rest;
    if id == ids[0] {
      CastKept(t, voter, rest, choice, own, now, id);
    } else {
      CastOnOther(s, voter, ids[0], choice, own, now, id);
      CastAllWeighs(t, voter, rest, choice, own, now, id);
    }
  }

  lemma BatchWeighs(s: Dao, voter: Address, ids: seq<nat>, choice: Choice, now: nat, id: nat)
    requires Sound(s) && voter != SELF && VoteBatch(s, voter, ids, choice, now).Some? && id in ids
    ensures var t, k := VoteBatch(s, voter, ids, choice, now).value, (id, voter);
      && k in t.votes
      && t.votes[k].weight == SatAdd(Power(s, voter, Pledge(s, voter), now), SweptOn(s, voter, id, now))
  {
    var own, bank := Power(s, voter, Pledge(s, voter), now), Lock(s.bank, (ids[0], voter), Pledge(s, voter)).value;
    CastAllWeighs(s.(bank := bank), voter, ids, choice, own, now, id);
    PledgeLeavesDelegators(s, voter, ids[0], id, now);
  }

  lemma BatchAdds(s: Dao, voter: Address, ids: seq<nat>, choice: Choice, now: nat)
    requires Sound(s) && voter != SELF && VoteBatch(s, voter, ids, choice, now).Some?
    ensures forall l :: l in VoteBatch(s, voter, ids, choice, now).value.votes && l !in s.votes ==>
                          l.1 == voter && InStatus(s, l.0, Active)
  {
    var own, bank := Power(s, voter, Pledge(s, voter), now), Lock(s.bank, (ids[0], voter), Pledge(s, voter)).value;
    assert forall i :: 0 <= i < |ids| ==> MayVote(s, voter, ids[i], now);
    CastAllBy(s.(bank := bank), voter, ids, choice, own, now);
  }

  lemma BatchLocksAll(s: Dao, voter: Address, ids: seq<nat>, choice: Choice, now: nat, id: nat)
    requires Sound(s) && voter != SELF && VoteBatch(s, voter, ids, choice, now).Some? && id in ids
    ensures var t, k := VoteBatch(s, voter, ids, choice, now).value, (id, voter);
      k in t.bank.locked && t.bank.locked[k] == (if id == ids[0] then Pledge(s, voter) else 0)
  {
    assert forall i :: 0 <= i < |ids| ==> MayVote(s, voter, ids[i], now);
    BatchPledgeSound(s.bank, voter, ids, Pledge(s, voter));
    BatchPledged(s, voter, ids, choice, now);
  }

  lemma BatchBesideLock(s: Dao, voter: Address, ids: seq<nat>, choice: Choice, now: nat, id: nat)
    requires Sound(s) && voter != SELF && VoteBatch(s, voter, ids, choice, now).Some? && id in ids
    ensures var t, k := VoteBatch(s, voter, ids, choice, now).value, (id, voter);
      && k in t.votes && k in t.bank.locked && t.bank.locked[k] == (if id == ids[0] then Pledge(s, voter) else 0)
      && t.votes[k].weight == SatAdd(Power(s, voter, Pledge(s, voter), now), SweptOn(s, voter, id, now))
      && forall l :: l in t.votes && l !in s.votes ==> l.1 == voter && InStatus(s, l.0, Active)
  {
    BatchWeighs(s, voter, ids, choice, now, id);
    BatchAdds(s, voter, ids, choice, now);
    BatchLocksAll(s, voter, ids, choice, now, id);
  }

  lemma VoteBesideLock(s: Dao, voter: Address, id: nat, choice: Choice, now: nat)
    requires Sound(s) && voter != SELF && Vote(s, voter, id, choice, now).Some?
    ensures var t, k := Vote(s, voter, id, choice, now).value, (id, voter);
      && t.votes.Keys == s.votes.Keys + {k} && k in t.bank.locked && t.bank.locked[k] == Pledge(s, voter)
      && t.votes[k].weight == SatAdd(Power(s, voter, Pledge(s, voter), now), SweptOn(s, voter, id, now))
  {
  }

  /** An accepted vote on `id`: its ballot weighs the voter's own power and what it sweeps; its lock is the pledge,
      unless the batch locked that under its first proposal. */
  lemma BallotBesideLock(s: Dao, op: Op, id: nat)
    requires Sound(s) && FromOutside(op) && VotesOn(s, op, id)
    ensures var t, k := Step(s, op), (id, op.voter);
      && InStatus(s, id, Active) && k !in s.votes && k in t.votes && k in t.bank.locked
      && t.votes[k].weight == SatAdd(Power(s, op.voter, Pledge(s, op.voter), op.now), SweptOn(s, op.voter, id, op.now))
      && t.bank.locked[k] == (if op.OpVoteBatch? && op.ids[0] != id then 0 else Pledge(s, op.voter))
      && forall l :: l in t.votes && l.0 == id && l !in s.votes ==> l == k
  {
    if op.OpVote? {
      VoteBesideLock(s, op.voter, op.id, op.choice, op.now);
    } else {
      assert exists i :: 0 <= i < |op.ids| && op.ids[i] == id && MayVote(s, op.voter, op.ids[i], op.now);
      BatchBesideLock(s, op.voter, op.ids, op.choice, op.now, id);
    }
  }

  /** A sweep counts something exactly when somebody lends weight. */
  lemma LendsExactly(s: Dao, voter: Address, id: nat, now: nat)
    requires Sound(s)
    ensures SweptOn(s, voter, id, now) >= 0
    ensures SweptOn(s, voter, id, now) > 0 <==> LendsWeight(s, voter, id, now)
  {
    assert ListExact(s.delegations, voter);
    CollectPositive(s, id, DelegatorsOf(s.delegations, voter), now);
  }

  // ----- Ballots and their locks over a run -----

  /** No ballot is cast before voting starts, and while its proposal is Active its lock is on record. */
  ghost predicate Recorded(s: Dao, k: Ballot) {
    !InStatus(s, k.0, Discussion) && (InStatus(s, k.0, Active) ==> k in s.bank.locked)
  }

  ghost predicate AllRecorded(s: Dao) {
    forall k :: k in s.votes ==> Recorded(s, k)
  }

  /** How much more a ballot on an Active proposal weighs than its lock. */
  function Excess(s: Dao, k: Ballot): int
    requires k in s.votes && k in s.bank.locked
  {
    s.votes[k].weight - s.bank.locked[k]
  }

  /** A ballot and its lock stay as they are while the proposal is Active. */
  lemma OldBallot(s: Dao, t: Dao, k: Ballot)
    requires Sound(s) && Evolves(s, t) && k in s.votes && Recorded(s, k)
    ensures k in t.votes && Recorded(t, k)
    ensures InStatus(t, k.0, Active) ==> InStatus(s, k.0, Active) && Excess(t, k) == Excess(s, k)
  {
    assert Follows(s.proposals[k.0], t.proposals[k.0]);
  }

  /** Only votes add ballots. */
  lemma NewBallot(s: Dao, op: Op, k: Ballot)
    requires Sound(s) && FromOutside(op) && k in Step(s, op).votes && k !in s.votes
    ensures VotesOn(s, op, k.0) && k.1 == op.voter && Recorded(Step(s, op), k)
  {
    if op.OpVote? {
      NewAlone(s, op, k);
    } else if op.OpVoteBatch? {
      NewInBatch(s, op, k);
    } else if Try(s, op).Some? {
      OthersAddNoBallots(s, op);
    }
  }

  lemma NewAlone(s: Dao, op: Op, k: Ballot)
    requires Sound(s) && FromOutside(op) && op.OpVote? && k in Step(s, op).votes && k !in s.votes
    ensures VotesOn(s, op, k.0) && k.1 == op.voter && Recorded(Step(s, op), k)
  {
    VoteBesideLock(s, op.voter, op.id, op.choice, op.now);
  }

  lemma NewInBatch(s: Dao, op: Op, k: Ballot)
    requires Sound(s) && FromOutside(op) && op.OpVoteBatch? && k in Step(s, op).votes && k !in s.votes
    ensures VotesOn(s, op, k.0) && k.1 == op.voter && Recorded(Step(s, op), k)
  {
    var own, bank := Power(s, op.voter, Pledge(s, op.voter), op.now), Lock(s.bank, (op.ids[0], op.voter), Pledge(s, op.voter)).value;
    assert forall i :: 0 <= i < |op.ids| ==> MayVote(s, op.voter, op.ids[i], op.now);
    CastAllBy(s.(bank := bank), op.voter, op.ids, op.choice, own, op.now);
    BallotBesideLock(s, op, k.0);
    StepVotesOnly(s, op);
  }

  lemma StepRecorded(s: Dao, op: Op)
    requires Sound(s) && FromOutside(op) && AllRecorded(s)
    ensures AllRecorded(Step(s, op))
  {
    StepEvolves(s, op);
    forall k | k in Step(s, op).votes ensures Recorded(Step(s, op), k) {
      if k in s.votes {
        OldBallot(s, Step(s, op), k);
      } else {
        NewBallot(s, op, k);
      }
    }
  }

  lemma {:induction false} RunRecorded(config: Config, ledger: map<Address, int>, ops: seq<Op>)
    requires Deployable(config, ledger) && forall i :: 0 <= i < |ops| ==> FromOutside(ops[i])
    ensures Sound(Run(Deployed(config, ledger), ops)) && AllRecorded(Run(Deployed(config, ledger), ops))
  {
    ReachableSound(config, ledger, ops);
    if ops != [] {
      RunRecorded(config, ledger, ops[..|ops| - 1]);
      StepRecorded(Run(Deployed(config, ledger), ops[..|ops| - 1]), ops[|ops| - 1]);
    }
  }

  /** No ballot on `id` outweighs its lock. */
  ghost predicate Within(s: Dao, id: nat)
    requires AllRecorded(s)
  {
    InStatus(s, id, Active) ==> forall k :: k in s.votes && k.0 == id ==> Excess(s, k) <= 0
  }

  /** No lock on `id` outweighs its ballot. */
  ghost predicate AtLeast(s: Dao, id: nat)
    requires AllRecorded(s)
  {
    InStatus(s, id, Active) ==> forall k :: k in s.votes && k.0 == id ==> Excess(s, k) >= 0
  }

  /** Some ballot on `id` outweighs its lock. */
  ghost predicate SomeOver(s: Dao, id: nat)
    requires AllRecorded(s)
  {
    exists k :: k in s.votes && k.0 == id && (InStatus(s, id, Active) ==> Excess(s, k) > 0)
  }

  lemma PledgePositive(s: Dao, op: Op, id: nat)
    requires Sound(s) && FromOutside(op) && VotesOn(s, op, id)
    ensures 0 < Pledge(s, op.voter) <= Balance(s.bank.ledger, op.voter) && op.voter !in s.delegations.delegateOf
  {
  }

  /** A vote that borrows nothing is backed by its lock, time weighting or not. */
  lemma OwnBallotWithin(s: Dao, op: Op, id: nat)
    requires Sound(s) && FromOutside(op) && VotesOn(s, op, id) && !Borrows(s, op, id)
    ensures var t, k := Step(s, op), (id, op.voter);
      k in t.votes && k in t.bank.locked && Excess(t, k) <= 0
  {
    BallotBesideLock(s, op, id);
    LendsExactly(s, op.voter, id, op.now);
    PledgePositive(s, op, id);
    PowerWithinBalance(s, op.voter, Pledge(s, op.voter), op.now);
  }

  lemma StepWithin(s: Dao, op: Op, id: nat)
    requires Sound(s) && FromOutside(op) && AllRecorded(s) && AllRecorded(Step(s, op)) && Within(s, id) && !Borrows(s, op, id)
    ensures Within(Step(s, op), id)
  {
    var t := Step(s, op);
    StepEvolves(s, op);
    forall k | InStatus(t, id, Active) && k in t.votes && k.0 == id ensures Excess(t, k) <= 0 {
      if k in s.votes {
        OldBallot(s, t, k);
      } else {
        NewBallot(s, op, k);
        OwnBallotWithin(s, op, id);
      }
    }
  }

  lemma {:induction false} RunWithin(config: Config, ledger: map<Address, int>, ops: seq<Op>, id: nat)
    requires Deployable(config, ledger) && forall i :: 0 <= i < |ops| ==> FromOutside(ops[i])
    requires NeverBorrows(Deployed(config, ledger), ops, id)
    ensures var s := Run(Deployed(config, ledger), ops); AllRecorded(s) && Within(s, id)
  {
    RunRecorded(config, ledger, ops);
    if ops != [] {
      var init := ops[..|ops| - 1];
      RunRecorded(config, ledger, init);
      RunWithin(config, ledger, init, id);
      StepWithin(Run(Deployed(config, ledger), init), ops[|ops| - 1], id);
    }
  }

  // ----- The token supply -----

  lemma TransferKeepsSupply(ledger: map<Address, int>, from: Address, to: Address, amount: int)
    requires Transfer(ledger, from, to, amount).Some?
    ensures Total(Transfer(ledger, from, to, amount).value) == Total(ledger)
  {
    var debited := ledger[from := Balance(ledger, from) - amount];
    TotalUpdate(ledger, from, Balance(ledger, from) - amount);
    TotalUpdate(debited, to, Balance(debited, to) + amount);
  }

  lemma CloseKeepsSupply(s: Dao, id: nat, q: Proposal, refund: Option<int>)
    requires Close(s, id, q, refund).Some?
    ensures Total(Close(s, id, q, refund).value.bank.ledger) == Total(s.bank.ledger)
  {
    if refund.Some? {
      TransferKeepsSupply(s.bank.ledger, SELF, q.proposer, refund.value);
    }
  }

  lemma FinalizeKeepsSupply(s: Dao, id: nat, now: nat)
    requires Finalize(s, id, now).Some?
    ensures Total(Finalize(s, id, now).value.bank.ledger) == Total(s.bank.ledger)
  {
    var p := s.proposals[id];
    if Decide(s, p) {
      CloseKeepsSupply(Count(s, p), id, p.(status := Passed, executionTime := now + s.settings.config.timelock), None);
    } else {
      CloseKeepsSupply(Count(s, p), id, p.(status := Failed), Some(p.deposit));
    }
  }

  lemma {:induction false} FinalizeAllKeepsSupply(s: Dao, ids: seq<nat>, now: nat)
    requires FinalizeAll(s, ids, now).Some?
    ensures Total(FinalizeAll(s, ids, now).value.bank.ledger) == Total(s.bank.ledger)
    decreases |ids|
  {
    if ids != [] {
      FinalizeKeepsSupply(s, ids[0], now);
      FinalizeAllKeepsSupply(Finalize(s, ids[0], now).value, ids[1..], now);
    }
  }

  lemma ExecuteKeepsSupply(s: Dao, id: nat, now: nat, completion: Option<nat>)
    requires Execute(s, id, now, completion).Some?
    ensures Total(Execute(s, id, now, completion).value.bank.ledger) == Total(s.bank.ledger)
  {
    var p := s.proposals[id];
    if now > p.deadline {
      CloseKeepsSupply(s, id, p.(status := Expired), None);
    } else if RefundOf(p.deposit, completion.GetOr(BPS)) > 0 {
      TransferKeepsSupply(s.bank.ledger, SELF, p.proposer, RefundOf(p.deposit, completion.GetOr(BPS)));
    }
  }

  lemma VotingKeepsSupply(s: Dao, op: Op)
    requires IsVoterOp(op) && Try(s, op).Some?
    ensures Total(Try(s, op).value.bank.ledger) == Total(s.bank.ledger)
  {
    match op
    case OpVote(voter, id, _, _) => TransferKeepsSupply(s.bank.ledger, voter, SELF, Pledge(s, voter));
    case OpVoteBatch(voter, ids, _, _) =>
      TransferKeepsSupply(s.bank.ledger, voter, SELF, Pledge(s, voter));
      SharedLedger(Lock(s.bank, (ids[0], voter), Pledge(s, voter)).value, voter, ids[1..]);
    case OpWithdraw(voter, id) =>
      if LockOf(s.bank, (id, voter)) > 0 {
        TransferKeepsSupply(s.bank.ledger, SELF, voter, LockOf(s.bank, (id, voter)));
      }
  }

  /** No operation makes or destroys tokens. */
  lemma StepKeepsSupply(s: Dao, op: Op)
    ensures Total(Step(s, op).bank.ledger) == Total(s.bank.ledger)
  {
    if Try(s, op).Some? {
      match op
      case OpCreate(proposer, d, _) =>
        TransferKeepsSupply(s.bank.ledger, proposer, SELF, Threshold(s.settings, d.kind, d.action.target));
      case OpFinalize(id, now) => FinalizeKeepsSupply(s, id, now);
      case OpFinalizeBatch(ids, now) => FinalizeAllKeepsSupply(s, ids, now);
      case OpReclaim(id, _) =>
        var p := s.proposals[id];
        CloseKeepsSupply(Count(s, p), id, p.(status := Failed), Some(p.deposit));
      case OpExecute(id, now, completion) => ExecuteKeepsSupply(s, id, now, completion);
      case OpCancel(id) => CloseKeepsSupply(s, id, s.proposals[id].(status := Cancelled), Some(s.proposals[id].deposit));
      case OpTransfer(from, to, amount) => TransferKeepsSupply(s.bank.ledger, from, to, amount);
      case _ =>
        if IsVoterOp(op) {
          VotingKeepsSupply(s, op);
        }
    }
  }

  lemma {:induction false} RunKeepsSupply(s: Dao, ops: seq<Op>)
    ensures Total(Run(s, ops).bank.ledger) == Total(s.bank.ledger)
  {
    if ops != [] {
      RunKeepsSupply(s, ops[..|ops| - 1]);
      StepKeepsSupply(Run(s, ops[..|ops| - 1]), ops[|ops| - 1]);
    }
  }

  lemma TwoHolders(ledger: map<Address, int>, a: Address, b: Address)
    requires Solvent(ledger) && a != b
    ensures Balance(ledger, a) <= Balance(ledger, a) + Balance(ledger, b) <= Total(ledger)
  {
    assert forall c :: c in ledger ==> ledger[c] == Balance(ledger, c) >= 0;
    var one := ledger[a := Balance(ledger, a)];
    var two := one[b := Balance(ledger, b)];
    TotalUpdate(ledger, a, Balance(ledger, a));
    TotalUpdate(one, b, Balance(ledger, b));
    TotalRemove(two, a);
    TotalCovers(two - {a}, b);
  }

  // ----- The exact condition -----

  /** What a voter pledges fits i128, with room to spare if somebody else holds tokens. */
  lemma PledgeFits(s: Dao, op: Op, id: nat)
    requires Sound(s) && FromOutside(op) && VotesOn(s, op, id) && Total(s.bank.ledger) <= I128_MAX
    ensures 0 < Pledge(s, op.voter) <= I128_MAX
    ensures LendsWeight(s, op.voter, id, op.now) ==> Pledge(s, op.voter) < I128_MAX
  {
    PledgePositive(s, op, id);
    assert forall a :: a in s.bank.ledger ==> s.bank.ledger[a] == Balance(s.bank.ledger, a) >= 0;
    TotalCovers(s.bank.ledger, op.voter);
    if LendsWeight(s, op.voter, id, op.now) {
      LenderHolds(s, op.voter, id, op.now);
    }
  }

  /** At face value a ballot weighs at least its lock, and more exactly when it borrows. */
  lemma FaceValueExcess(s: Dao, op: Op, id: nat)
    requires Sound(s) && FromOutside(op) && VotesOn(s, op, id)
    requires !s.settings.timeWeight.enabled && Total(s.bank.ledger) <= I128_MAX
    ensures var t, k := Step(s, op), (id, op.voter);
      && k in t.votes && k in t.bank.locked && Excess(t, k) >= 0
      && (Excess(t, k) > 0 <==> Borrows(s, op, id))
  {
    PledgeFits(s, op, id);
    assert Power(s, op.voter, Pledge(s, op.voter), op.now) == Pledge(s, op.voter);
    LendsExactly(s, op.voter, id, op.now);
    BallotBesideLock(s, op, id);
  }

  lemma LenderHolds(s: Dao, voter: Address, id: nat, now: nat)
    requires Sound(s) && LendsWeight(s, voter, id, now) && voter !in s.delegations.delegateOf
    ensures Balance(s.bank.ledger, voter) < Total(s.bank.ledger)
  {
    var d :| d in DelegatorsOf(s.delegations, voter) && UncountedFn(s, id)(d) && PowerFn(s, now)(d) > 0;
    assert ListExact(s.delegations, voter) && IsEdge(s.delegations, d, voter);
    TwoHolders(s.bank.ledger, voter, d);
  }

  lemma StepAtLeast(s: Dao, op: Op, id: nat)
    requires Sound(s) && FromOutside(op) && AllRecorded(s) && AllRecorded(Step(s, op)) && AtLeast(s, id)
    requires Total(s.bank.ledger) <= I128_MAX && (VotesOn(s, op, id) ==> !s.settings.timeWeight.enabled)
    ensures AtLeast(Step(s, op), id)
  {
    var t := Step(s, op);
    StepEvolves(s, op);
    forall k | InStatus(t, id, Active) && k in t.votes && k.0 == id ensures Excess(t, k) >= 0 {
      if k in s.votes {
        OldBallot(s, t, k);
      } else {
        NewBallot(s, op, k);
        FaceValueExcess(s, op, id);
      }
    }
  }

  lemma StaysOver(s: Dao, t: Dao, id: nat)
    requires Sound(s) && Evolves(s, t) && AllRecorded(s) && AllRecorded(t) && SomeOver(s, id)
    ensures SomeOver(t, id)
  {
    var k :| k in s.votes && k.0 == id && (InStatus(s, id, Active) ==> Excess(s, k) > 0);
    OldBallot(s, t, k);
  }

  lemma BecomesOver(s: Dao, op: Op, id: nat)
    requires Sound(s) && FromOutside(op) && AllRecorded(Step(s, op)) && Borrows(s, op, id)
    requires Total(s.bank.ledger) <= I128_MAX && !s.settings.timeWeight.enabled
    ensures SomeOver(Step(s, op), id)
  {
    FaceValueExcess(s, op, id);
    ShowsOver(Step(s, op), (id, op.voter));
  }

  lemma ShowsOver(s: Dao, k: Ballot)
    requires AllRecorded(s) && k in s.votes && k in s.bank.locked && Excess(s, k) > 0
    ensures SomeOver(s, k.0)
  {
  }

  lemma {:induction false} RunAtLeast(config: Config, ledger: map<Address, int>, ops: seq<Op>, id: nat)
    requires Deployable(config, ledger) && forall i :: 0 <= i < |ops| ==> FromOutside(ops[i])
    requires AtFaceValue(Deployed(config, ledger), ops, id) && Total(ledger) <= I128_MAX
    ensures var s := Run(Deployed(config, ledger), ops);
      && AllRecorded(s) && AtLeast(s, id)
      && (!NeverBorrows(Deployed(config, ledger), ops, id) ==> SomeOver(s, id))
  {
    RunRecorded(config, ledger, ops);
    if ops != [] {
      var init, op := ops[..|ops| - 1], ops[|ops| - 1];
      var s := Run(Deployed(config, ledger), init);
      RunRecorded(config, ledger, init);
      RunAtLeast(config, ledger, init, id);
      RunKeepsSupply(Deployed(config, ledger), init);
      StepAtLeast(s, op, id);
      if Borrows(s, op, id) {
        BecomesOver(s, op, id);
      } else if !NeverBorrows(Deployed(config, ledger), init, id) {
        StepEvolves(s, op);
        StaysOver(s, Step(s, op), id);
      }
    }
  }

  // ----- The tallies -----

  function CastOnAll(votes: Votes, id: nat): map<Ballot, int> {
    map k | k in votes && k.0 == id :: votes[k].weight
  }

  lemma ChoicesJoin(votes: Votes, id: nat)
    ensures var a, b, c := CastFor(votes, id, For), CastFor(votes, id, Against), CastFor(votes, id, Abstain);
      CastOnAll(votes, id) == (a + b) + c && a.Keys !! b.Keys && (a + b).Keys !! c.Keys
  {
  }

  lemma AllChoices(votes: Votes, id: nat)
    ensures Total(CastOnAll(votes, id)) == Total(CastFor(votes, id, For)) + Total(CastFor(votes, id, Against))
                                           + Total(CastFor(votes, id, Abstain))
  {
    var a, b, c := CastFor(votes, id, For), CastFor(votes, id, Against), CastFor(votes, id, Abstain);
    ChoicesJoin(votes, id);
    TotalJoin(a, b);
    TotalJoin(a + b, c);
  }

  lemma BallotsAreCast(s: Dao, id: nat)
    requires Sound(s) && id in s.proposals
    ensures Ballots(s.proposals[id]) == Total(CastOnAll(s.votes, id))
  {
    AllChoices(s.votes, id);
    var p := s.proposals[id];
    assert TallyMatches(s.votes, id, p);
    assert TallyOf(p, For) == p.votesFor && TallyOf(p, Against) == p.votesAgainst && TallyOf(p, Abstain) == p.votesAbstain;
  }

  lemma TalliesWithin(s: Dao, id: nat)
    requires Sound(s) && AllRecorded(s) && Within(s, id) && InStatus(s, id, Active)
    ensures Ballots(s.proposals[id]) <= Total(LocksOn(s.bank.locked, id))
  {
    BallotsAreCast(s, id);
    var cast, locks := CastOnAll(s.votes, id), LocksOn(s.bank.locked, id);
    forall k | k in cast ensures k in locks && cast[k] <= locks[k] {
      assert Recorded(s, k) && Excess(s, k) <= 0;
    }
    TotalMono(cast, locks);
  }

  lemma TalliesAtLeast(s: Dao, id: nat)
    requires Sound(s) && AllRecorded(s) && AtLeast(s, id) && InStatus(s, id, Active)
    ensures Ballots(s.proposals[id]) >= Total(LocksOn(s.bank.locked, id))
    ensures SomeOver(s, id) ==> Ballots(s.proposals[id]) > Total(LocksOn(s.bank.locked, id))
  {
    BallotsAreCast(s, id);
    var cast, locks := CastOnAll(s.votes, id), LocksOn(s.bank.locked, id);
    forall k | k in cast ensures k in locks && cast[k] >= locks[k] {
      assert Recorded(s, k) && Excess(s, k) >= 0;
    }
    TotalMono(locks, cast);
    if SomeOver(s, id) {
      var k :| k in s.votes && k.0 == id && Excess(s, k) > 0;
      TotalRemove(cast, k);
      TotalRemove(locks, k);
      TotalMono(locks - {k}, cast - {k});
    }
  }

  lemma LocksCovered(b: Bank, id: nat)
    requires Conserved(b)
    ensures Total(LocksOn(b.locked, id)) <= Balance(b.ledger, SELF)
  {
    TotalMono(LocksOn(b.locked, id), b.locked);
    TotalNonNegative(b.escrow);
  }

  /** As long as no vote on `id` borrows, all ballots on it together weigh no more than the tokens locked under it while
      it is Active, all of which the contract holds: no token votes on it twice, whoever delegates and votes in batches
      elsewhere, time weighting or not. */
  lemma NoTokenVotesTwice(config: Config, ledger: map<Address, int>, ops: seq<Op>, id: nat)
    requires Deployable(config, ledger) && forall i :: 0 <= i < |ops| ==> FromOutside(ops[i])
    requires NeverBorrows(Deployed(config, ledger), ops, id)
    ensures var s := Run(Deployed(config, ledger), ops);
      InStatus(s, id, Active) ==>
        Ballots(s.proposals[id]) <= Total(LocksOn(s.bank.locked, id)) <= Balance(s.bank.ledger, SELF)
  {
    RunWithin(config, ledger, ops, id);
    RunRecorded(config, ledger, ops);
    var s := Run(Deployed(config, ledger), ops);
    if InStatus(s, id, Active) {
      TalliesWithin(s, id);
      LocksCovered(s.bank, id);
    }
  }

  /** Without time weighting that is the exact condition: the ballots on an Active proposal never weigh less than its
      locks, and they weigh no more exactly when no vote on it borrowed. */
  lemma VotesTwiceExactly(config: Config, ledger: map<Address, int>, ops: seq<Op>, id: nat)
    requires Deployable(config, ledger) && forall i :: 0 <= i < |ops| ==> FromOutside(ops[i])
    requires AtFaceValue(Deployed(config, ledger), ops, id) && Total(ledger) <= I128_MAX
    requires InStatus(Run(Deployed(config, ledger), ops), id, Active)
    ensures var s := Run(Deployed(config, ledger), ops);
      && Total(LocksOn(s.bank.locked, id)) <= Ballots(s.proposals[id])
      && (Ballots(s.proposals[id]) <= Total(LocksOn(s.bank.locked, id)) <==> NeverBorrows(Deployed(config, ledger), ops, id))
  {
    RunAtLeast(config, ledger, ops, id);
    RunRecorded(config, ledger, ops);
    TalliesAtLeast(Run(Deployed(config, ledger), ops), id);
    if NeverBorrows(Deployed(config, ledger), ops, id) {
      NoTokenVotesTwice(config, ledger, ops, id);
    }
  }

  // ----- How tokens vote twice -----

  const NOBODY: Delegations := Delegations(map[], map[])

  /** Account 9 delegates its tokens to 8, whose vote counts them; 9 hands them to 10, who votes as well. */
  function SweepTransferVote(tokens: nat): seq<Op> {
    [OpCreate(7, QUIET, 0), OpDelegate(9, 8), OpVote(8, 0, For, 0), OpTransfer(9, 10, tokens), OpVote(10, 0, For, 0)]
  }

  /** Account 8 votes on two proposals at once, withdraws when the first one is cancelled, and hands the tokens
      to 9, who votes on the second. */
  function BatchWithdrawVote(tokens: nat): seq<Op> {
    [OpCreate(7, QUIET, 0), OpCreate(7, BUSY, 0), OpVoteBatch(8, [0, 1], For, 0), OpCancel(0), OpWithdraw(8, 0),
     OpTransfer(8, 9, tokens), OpVote(9, 1, For, 0)]
  }

  lemma RunFive(s: Dao, a: Op, b: Op, c: Op, d: Op, e: Op)
    ensures Run(s, [a, b, c, d, e]) == Step(Step(Step(Step(Step(s, a), b), c), d), e)
  {
    assert [a] == [] + [a] && [a, b] == [a] + [b] && [a, b, c] == [a, b] + [c] && [a, b, c, d] == [a, b, c] + [d];
    assert [a, b, c, d, e] == [a, b, c, d] + [e];
    RunSnoc(s, [], a);
    RunSnoc(s, [a], b);
    RunSnoc(s, [a, b], c);
    RunSnoc(s, [a, b, c], d);
    RunSnoc(s, [a, b, c, d], e);
  }

  const PLAIN: Settings := Settings(OPENING, NO_DECAY, NO_TIME_WEIGHT, NO_ESCALATION, {})

  /** Ballots count at face value. */
  ghost predicate Plain(s: Dao) {
    s.settings == PLAIN && s.checkpoints == map[]
  }

  lemma PlainVote(s: Dao, voter: Address, id: nat, votes: nat, tokens: nat, extra: nat)
    requires Plain(s) && id in s.proposals && s.proposals[id] == Voted(id, votes)
    requires (id, voter) !in s.votes && (id, voter) !in s.swept && voter !in s.delegations.delegateOf && voter != SELF
    requires Balance(s.bank.ledger, voter) == tokens > 0 && votes + tokens + extra <= I128_MAX
    requires Collect(s, id, DelegatorsOf(s.delegations, voter), 0).total == extra
    ensures var t := Step(s, OpVote(voter, id, For, 0));
      && Plain(t) && t.delegations == s.delegations && t.proposals == s.proposals[id := Voted(id, votes + tokens + extra)]
      && t.votes == s.votes[(id, voter) := VoteRecord(For, tokens + extra)]
      && t.swept == Collect(s, id, DelegatorsOf(s.delegations, voter), 0).swept
      && t.bank.locked == s.bank.locked[(id, voter) := tokens]
      && (forall a :: a != voter && a != SELF ==> Balance(t.bank.ledger, a) == Balance(s.bank.ledger, a))
  {
    assert Pledge(s, voter) == tokens && Power(s, voter, tokens, 0) == tokens;
    PlainCast(s, voter, id, votes, tokens, extra);
    PlainLock(s.bank, (id, voter), tokens);
    assert Vote(s, voter, id, For, 0).Some?;
  }

  lemma PlainCast(s: Dao, voter: Address, id: nat, votes: nat, tokens: nat, extra: nat)
    requires id in s.proposals && s.proposals[id] == Voted(id, votes) && 0 < votes + tokens + extra <= I128_MAX && tokens > 0
    requires Collect(s, id, DelegatorsOf(s.delegations, voter), 0).total == extra
    ensures CastOn(s, voter, id, For, tokens, 0) == Some(s.(
              proposals := s.proposals[id := Voted(id, votes + tokens + extra)],
              votes := s.votes[(id, voter) := VoteRecord(For, tokens + extra)],
              swept := Collect(s, id, DelegatorsOf(s.delegations, voter), 0).swept))
  {
  }

  lemma PlainLock(b: Bank, k: Ballot, tokens: nat)
    requires Balance(b.ledger, k.1) >= tokens && k.1 != SELF
    ensures Lock(b, k, tokens).Some?
    ensures var c := Lock(b, k, tokens).value;
      && c.locked == b.locked[k := tokens]
      && forall a :: a != k.1 && a != SELF ==> Balance(c.ledger, a) == Balance(b.ledger, a)
  {
  }

  lemma NobodySweeps(s: Dao, voter: Address, id: nat)
    requires DelegatorsOf(s.delegations, voter) == []
    ensures Collect(s, id, DelegatorsOf(s.delegations, voter), 0) == Sweep(0, s.swept)
  {
  }

  // The first run, step by step.

  lemma SweepCreated(s: Dao, tokens: nat)
    requires s == Step(Deployed(OPENING, map[8 := 1, 9 := tokens]), OpCreate(7, QUIET, 0))
    ensures Plain(s) && s.proposals == map[0 := Voted(0, 0)] && s.votes == map[] && s.swept == {} && s.delegations == NOBODY
    ensures Balance(s.bank.ledger, 8) == 1 && Balance(s.bank.ledger, 9) == tokens && Balance(s.bank.ledger, 10) == 0
    ensures s.bank.locked == map[]
  {
    assert Create(Deployed(OPENING, map[8 := 1, 9 := tokens]), 7, QUIET, 0).Some?;
  }

  lemma SweepDelegated(s: Dao)
    requires s.delegations == NOBODY
    ensures var t := Step(s, OpDelegate(9, 8));
      t == s.(delegations := t.delegations) && t.delegations.delegateOf == map[9 := 8]
      && DelegatorsOf(t.delegations, 8) == [9] && DelegatorsOf(t.delegations, 10) == []
  {
    assert Delegate(NOBODY, 9, 8).Some?;
  }

  lemma SweepCounts(s: Dao, tokens: nat)
    requires Plain(s) && s.swept == {} && DelegatorsOf(s.delegations, 8) == [9] && Balance(s.bank.ledger, 9) == tokens > 0
    requires tokens <= 10_000
    ensures Collect(s, 0, [9], 0) == Sweep(tokens, {(0, 9)})
  {
    assert [9][..0] == [];
    assert Power(s, 9, tokens, 0) == tokens;
  }

  lemma SweepMoved(s: Dao, tokens: nat)
    requires Plain(s) && s.proposals == map[0 := Voted(0, 0)] && s.votes == map[] && s.swept == {}
    requires s.delegations.delegateOf == map[9 := 8] && DelegatorsOf(s.delegations, 8) == [9]
    requires Balance(s.bank.ledger, 8) == 1 && Balance(s.bank.ledger, 9) == tokens && Balance(s.bank.ledger, 10) == 0
    requires s.bank.locked == map[] && 0 < tokens <= 10_000
    ensures var t := Step(Step(s, OpVote(8, 0, For, 0)), OpTransfer(9, 10, tokens));
      && Plain(t) && t.delegations == s.delegations && t.proposals == map[0 := Voted(0, 1 + tokens)]
      && t.votes.Keys == {(0, 8)} && t.swept == {(0, 9)}
      && t.bank.locked == map[(0, 8) := 1] && Balance(t.bank.ledger, 10) == tokens
  {
    SweepCounts(s, tokens);
    PlainVote(s, 8, 0, 0, 1, tokens);
    var a := Step(s, OpVote(8, 0, For, 0));
    var b := Step(a, OpTransfer(9, 10, tokens));
    assert Outside(a.bank, 9, 10, tokens).Some?;
    assert b == a.(bank := b.bank) && b.bank.locked == a.bank.locked;
  }

  lemma SweepVotedAgain(s: Dao, tokens: nat)
    requires Plain(s) && s.proposals == map[0 := Voted(0, 1 + tokens)] && s.votes.Keys == {(0, 8)} && s.swept == {(0, 9)}
    requires s.delegations.delegateOf == map[9 := 8] && DelegatorsOf(s.delegations, 10) == []
    requires s.bank.locked == map[(0, 8) := 1] && Balance(s.bank.ledger, 10) == tokens && 0 < tokens <= 10_000
    ensures var t := Step(s, OpVote(10, 0, For, 0));
      t.proposals == map[0 := Voted(0, 1 + 2 * tokens)] && t.bank.locked == map[(0, 8) := 1, (0, 10) := tokens]
  {
    NobodySweeps(s, 10, 0);
    PlainVote(s, 10, 0, 1 + tokens, tokens, 0);
  }

  lemma TwoLocks(k: Ballot, l: Ballot, x: int, y: int)
    requires k != l
    ensures Total(map[k := x, l := y]) == x + y
  {
    var none: map<Ballot, int> := map[];
    TotalUpdate(none, k, x);
    TotalUpdate(none[k := x], l, y);
    assert map[k := x, l := y] == none[k := x][l := y];
  }

  lemma SweepRunAllowed(tokens: nat)
    ensures Deployable(OPENING, map[8 := 1, 9 := tokens])
    ensures forall i :: 0 <= i < |SweepTransferVote(tokens)| ==> FromOutside(SweepTransferVote(tokens)[i])
  {
  }

  lemma SweepRunSteps(d: Dao, tokens: nat)
    ensures Run(d, SweepTransferVote(tokens)) ==
            Step(Step(Step(Step(Step(d, OpCreate(7, QUIET, 0)), OpDelegate(9, 8)), OpVote(8, 0, For, 0)), OpTransfer(9, 10, tokens)),
                 OpVote(10, 0, For, 0))
  {
    RunFive(d, OpCreate(7, QUIET, 0), OpDelegate(9, 8), OpVote(8, 0, For, 0), OpTransfer(9, 10, tokens), OpVote(10, 0, For, 0));
  }

  /** Delegating once is enough: the tokens of account 9 count twice, and the ballots on the Active proposal
      outweigh all the tokens there are. */
  lemma DelegationCountsTwice(tokens: nat)
    requires 0 < tokens < 10_000
    ensures Deployable(OPENING, map[8 := 1, 9 := tokens])
    ensures forall i :: 0 <= i < |SweepTransferVote(tokens)| ==> FromOutside(SweepTransferVote(tokens)[i])
    ensures var s := Run(Deployed(OPENING, map[8 := 1, 9 := tokens]), SweepTransferVote(tokens));
      && InStatus(s, 0, Active) && Ballots(s.proposals[0]) == 1 + 2 * tokens
      && Total(LocksOn(s.bank.locked, 0)) == 1 + tokens
  {
    var d := Deployed(OPENING, map[8 := 1, 9 := tokens]);
    SweepRunAllowed(tokens);
    SweepRunSteps(d, tokens);
    SweepSteps(Step(d, OpCreate(7, QUIET, 0)), tokens);
  }

  lemma SweepSteps(s: Dao, tokens: nat)
    requires s == Step(Deployed(OPENING, map[8 := 1, 9 := tokens]), OpCreate(7, QUIET, 0)) && 0 < tokens < 10_000
    ensures var t := Step(Step(Step(Step(s, OpDelegate(9, 8)), OpVote(8, 0, For, 0)), OpTransfer(9, 10, tokens)), OpVote(10, 0, For, 0));
      && InStatus(t, 0, Active) && Ballots(t.proposals[0]) == 1 + 2 * tokens
      && Total(LocksOn(t.bank.locked, 0)) == 1 + tokens
  {
    SweepCreated(s, tokens);
    SweepDelegated(s);
    var delegated := Step(s, OpDelegate(9, 8));
    SweepMoved(delegated, tokens);
    SweepVotedAgain(Step(Step(delegated, OpVote(8, 0, For, 0)), OpTransfer(9, 10, tokens)), tokens);
    SweepLocks(tokens);
  }

  lemma SweepLocks(tokens: nat)
    ensures Total(LocksOn(map[(0, 8) := 1, (0, 10) := tokens], 0)) == 1 + tokens
  {
    TwoLocks((0, 8), (0, 10), 1, tokens);
    assert LocksOn(map[(0, 8) := 1, (0, 10) := tokens], 0) == map[(0, 8) := 1, (0, 10) := tokens];
  }

  // The second run, step by step.

  lemma CastsBoth(s: Dao, tokens: nat)
    requires 0 in s.proposals && 1 in s.proposals && s.proposals[0] == Voted(0, 0) && s.proposals[1] == Voted(1, 0)
    requires s.delegations == NOBODY && 0 < tokens <= 10_000
    ensures CastAll(s, 8, [0, 1], For, tokens, 0) == Some(s.(
              proposals := s.proposals[0 := Voted(0, tokens)][1 := Voted(1, tokens)],
              votes := s.votes[(0, 8) := VoteRecord(For, tokens)][(1, 8) := VoteRecord(For, tokens)]))
  {
    CastsOne(s, 0, 0, tokens);
    var b := CastOn(s, 8, 0, For, tokens, 0).value;
    CastsOne(b, 1, 0, tokens);
    var c := CastOn(b, 8, 1, For, tokens, 0).value;
    assert [0, 1][1..] == [1] && [1][1..] == [];
    assert CastAll(b, 8, [1], For, tokens, 0) == CastAll(c, 8, [], For, tokens, 0) == Some(c);
  }

  lemma BatchVoted(s: Dao, tokens: nat)
    requires Plain(s) && 0 in s.proposals && 1 in s.proposals && s.proposals[0] == Voted(0, 0) && s.proposals[1] == Voted(1, 0)
    requires s.votes == map[] && s.swept == {} && s.delegations == NOBODY && s.bank.locked == map[]
    requires Balance(s.bank.ledger, 8) == tokens && 0 < tokens <= 10_000
    ensures var t := Step(s, OpVoteBatch(8, [0, 1], For, 0));
      && Plain(t) && t.delegations == NOBODY && t.swept == {} && t.votes.Keys == {(0, 8), (1, 8)}
      && t.proposals == s.proposals[0 := Voted(0, tokens)][1 := Voted(1, tokens)]
      && t.bank == ShareLock(Lock(s.bank, (0, 8), tokens).value, (1, 8)) && Lock(s.bank, (0, 8), tokens).Some?
  {
    var bank := Lock(s.bank, (0, 8), tokens).value;
    assert Pledge(s, 8) == tokens && Power(s, 8, tokens, 0) == tokens;
    CastsBoth(s.(bank := bank), tokens);
    SharesOne(bank);
    assert [0, 1][1..] == [1];
    assert VoteBatch(s, 8, [0, 1], For, 0).Some?;
  }

  lemma SharesOne(b: Bank)
    ensures ShareAll(b, 8, [1]) == ShareLock(b, (1, 8))
  {
    assert [1][..0] == [];
    assert ShareAll(b, 8, []) == b;
  }

  lemma CastsOne(s: Dao, id: nat, votes: nat, tokens: nat)
    requires id in s.proposals && s.proposals[id] == Voted(id, votes) && s.delegations == NOBODY
    requires 0 < tokens <= 10_000 && votes <= 10_000
    ensures CastOn(s, 8, id, For, tokens, 0) == Some(s.(
              proposals := s.proposals[id := Voted(id, votes + tokens)],
              votes := s.votes[(id, 8) := VoteRecord(For, tokens)]))
  {
    assert DelegatorsOf(s.delegations, 8) == [];
    NobodySweeps(s, 8, id);
  }

  lemma FirstCancelled(s: Dao, tokens: nat)
    requires 0 in s.proposals && s.proposals[0] == Voted(0, tokens) && Balance(s.bank.ledger, SELF) >= 0
    ensures var t := Step(s, OpCancel(0));
      && t == s.(proposals := t.proposals, hashes := t.hashes, bank := t.bank)
      && t.proposals == s.proposals[0 := Voted(0, tokens).(status := Cancelled)] && t.bank.locked == s.bank.locked
      && (forall a :: Balance(t.bank.ledger, a) == Balance(s.bank.ledger, a))
  {
    assert Cancel(s, 0).Some?;
  }

  lemma FirstWithdrawn(s: Dao, tokens: nat)
    requires InStatus(s, 0, Cancelled) && s.bank.locked == map[(0, 8) := tokens, (1, 8) := 0] && tokens > 0
    requires Balance(s.bank.ledger, SELF) >= tokens && Balance(s.bank.ledger, 8) == 0
    ensures var t := Step(s, OpWithdraw(8, 0));
      && t == s.(bank := t.bank) && t.bank.locked == map[(1, 8) := 0]
      && Balance(t.bank.ledger, 8) == tokens && Balance(t.bank.ledger, 9) == Balance(s.bank.ledger, 9)
  {
    assert Withdraw(s, 8, 0).Some?;
    assert s.bank.locked - {(0, 8)} == map[(1, 8) := 0];
  }

  lemma HandedOver(s: Dao, tokens: nat)
    requires Balance(s.bank.ledger, 8) == tokens
    ensures var t := Step(s, OpTransfer(8, 9, tokens));
      && t == s.(bank := t.bank) && t.bank.locked == s.bank.locked
      && Balance(t.bank.ledger, 9) == Balance(s.bank.ledger, 9) + tokens
  {
    assert Outside(s.bank, 8, 9, tokens).Some?;
  }

  lemma BatchFreed(s: Dao, tokens: nat)
    requires 0 in s.proposals && s.proposals[0] == Voted(0, tokens) && tokens > 0
    requires s.bank.locked == map[(0, 8) := tokens, (1, 8) := 0] && Balance(s.bank.ledger, SELF) >= tokens
    requires Balance(s.bank.ledger, 8) == 0
    ensures var t := Step(Step(Step(s, OpCancel(0)), OpWithdraw(8, 0)), OpTransfer(8, 9, tokens));
      && t == s.(proposals := t.proposals, hashes := t.hashes, bank := t.bank)
      && (forall id :: id != 0 && id in s.proposals ==> id in t.proposals && t.proposals[id] == s.proposals[id])
      && t.bank.locked == map[(1, 8) := 0] && Balance(t.bank.ledger, 9) == Balance(s.bank.ledger, 9) + tokens
  {
    var a := Step(s, OpCancel(0));
    FirstCancelled(s, tokens);
    var b := Step(a, OpWithdraw(8, 0));
    FirstWithdrawn(a, tokens);
    HandedOver(b, tokens);
  }

  lemma BatchRevoted(s: Dao, tokens: nat)
    requires Plain(s) && 1 in s.proposals && s.proposals[1] == Voted(1, tokens)
    requires s.votes.Keys == {(0, 8), (1, 8)} && s.swept == {} && s.delegations == NOBODY
    requires s.bank.locked == map[(1, 8) := 0] && Balance(s.bank.ledger, 9) == tokens && 0 < tokens <= 10_000
    ensures var t := Step(s, OpVote(9, 1, For, 0));
      && t.proposals == s.proposals[1 := Voted(1, 2 * tokens)]
      && t.bank.locked == map[(1, 8) := 0, (1, 9) := tokens]
  {
    assert DelegatorsOf(s.delegations, 9) == [];
    NobodySweeps(s, 9, 1);
    PlainVote(s, 9, 1, tokens, tokens, 0);
  }

  lemma RunSeven(s: Dao, a: Op, b: Op, c: Op, d: Op, e: Op, f: Op, g: Op)
    ensures Run(s, [a, b, c, d, e, f, g]) == Step(Step(Step(Step(Step(Step(Step(s, a), b), c), d), e), f), g)
  {
    RunFive(s, a, b, c, d, e);
    assert [a, b, c, d, e, f] == [a, b, c, d, e] + [f] && [a, b, c, d, e, f, g] == [a, b, c, d, e, f] + [g];
    RunSnoc(s, [a, b, c, d, e], f);
    RunSnoc(s, [a, b, c, d, e, f], g);
  }

  /** Proposing for free moves no tokens. */
  lemma FreeCreate(s: Dao, draft: Draft)
    requires s.settings == PLAIN
    ensures var t := Step(s, OpCreate(7, draft, 0));
      && t.settings == PLAIN && t.bank.locked == s.bank.locked
      && forall a :: Balance(t.bank.ledger, a) == Balance(s.bank.ledger, a)
  {
    assert Threshold(PLAIN, draft.kind, draft.action.target) == 0;
  }

  lemma BatchCreated(s: Dao, tokens: nat)
    requires s == Step(Step(Opened(tokens), OpCreate(7, QUIET, 0)), OpCreate(7, BUSY, 0))
    ensures s.bank.locked == map[] && Balance(s.bank.ledger, 9) == 0 && Balance(s.bank.ledger, SELF) == 0
  {
    FreeCreate(Opened(tokens), QUIET);
    FreeCreate(Step(Opened(tokens), OpCreate(7, QUIET, 0)), BUSY);
  }

  lemma BatchThenFreed(s: Dao, tokens: nat)
    requires s == Step(Step(Opened(tokens), OpCreate(7, QUIET, 0)), OpCreate(7, BUSY, 0)) && 0 < tokens <= 10_000
    ensures var t := Step(Step(Step(Step(s, OpVoteBatch(8, [0, 1], For, 0)), OpCancel(0)), OpWithdraw(8, 0)), OpTransfer(8, 9, tokens));
      && Plain(t) && 1 in t.proposals && t.proposals[1] == Voted(1, tokens)
      && t.votes.Keys == {(0, 8), (1, 8)} && t.swept == {} && t.delegations == NOBODY
      && t.bank.locked == map[(1, 8) := 0] && Balance(t.bank.ledger, 9) == tokens
  {
    TwoCreated(tokens);
    BatchCreated(s, tokens);
    BatchVoted(s, tokens);
    BatchFreed(Step(s, OpVoteBatch(8, [0, 1], For, 0)), tokens);
  }

  lemma BatchRunAllowed(tokens: nat)
    ensures Deployable(OPENING, map[8 := tokens])
    ensures forall i :: 0 <= i < |BatchWithdrawVote(tokens)| ==> FromOutside(BatchWithdrawVote(tokens)[i])
  {
  }

  lemma BatchRunSteps(tokens: nat)
    ensures Run(Opened(tokens), BatchWithdrawVote(tokens)) ==
            Step(Step(Step(Step(Step(Step(Step(Opened(tokens), OpCreate(7, QUIET, 0)), OpCreate(7, BUSY, 0)),
                                     OpVoteBatch(8, [0, 1], For, 0)), OpCancel(0)), OpWithdraw(8, 0)), OpTransfer(8, 9, tokens)),
                 OpVote(9, 1, For, 0))
  {
    RunSeven(Opened(tokens), OpCreate(7, QUIET, 0), OpCreate(7, BUSY, 0), OpVoteBatch(8, [0, 1], For, 0), OpCancel(0),
             OpWithdraw(8, 0), OpTransfer(8, 9, tokens), OpVote(9, 1, For, 0));
  }

  /** One batch vote is enough as well: the second proposal ends up with twice the tokens there are. */
  lemma BatchCountsTwice(tokens: nat)
    requires 0 < tokens <= 10_000
    ensures Deployable(OPENING, map[8 := tokens])
    ensures forall i :: 0 <= i < |BatchWithdrawVote(tokens)| ==> FromOutside(BatchWithdrawVote(tokens)[i])
    ensures var s := Run(Opened(tokens), BatchWithdrawVote(tokens));
      && InStatus(s, 1, Active) && Ballots(s.proposals[1]) == 2 * tokens
      && Total(LocksOn(s.bank.locked, 1)) == tokens
  {
    BatchRunAllowed(tokens);
    BatchRunSteps(tokens);
    BatchSteps(Step(Step(Opened(tokens), OpCreate(7, QUIET, 0)), OpCreate(7, BUSY, 0)), tokens);
  }

  lemma SecondLocks(tokens: nat)
    ensures Total(LocksOn(map[(1, 8) := 0, (1, 9) := tokens], 1)) == tokens
  {
    TwoLocks((1, 8), (1, 9), 0, tokens);
    assert LocksOn(map[(1, 8) := 0, (1, 9) := tokens], 1) == map[(1, 8) := 0, (1, 9) := tokens];
  }

  lemma BatchSteps(s: Dao, tokens: nat)
    requires s == Step(Step(Opened(tokens), OpCreate(7, QUIET, 0)), OpCreate(7, BUSY, 0)) && 0 < tokens <= 10_000
    ensures var freed := Step(Step(Step(Step(s, OpVoteBatch(8, [0, 1], For, 0)), OpCancel(0)), OpWithdraw(8, 0)), OpTransfer(8, 9, tokens));
      var t := Step(freed, OpVote(9, 1, For, 0));
      && InStatus(t, 1, Active) && Ballots(t.proposals[1]) == 2 * tokens
      && Total(LocksOn(t.bank.locked, 1)) == tokens
  {
    BatchThenFreed(s, tokens);
    var freed := Step(Step(Step(Step(s, OpVoteBatch(8, [0, 1], For, 0)), OpCancel(0)), OpWithdraw(8, 0)), OpTransfer(8, 9, tokens));
    BatchRevoted(freed, tokens);
    SecondLocks(tokens);
  }
}
