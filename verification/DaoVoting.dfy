/** What a ballot weighs and what happens to the tokens behind it. */
module DaoVoting {
  import opened Arithmetic
  import opened Sequences
  import opened Ledger
  import opened DaoQuorum
  import opened DaoDelegation
  import opened DaoBank
  import opened DaoState
  import opened DaoTally
  import opened DaoRuns
  import opened DaoEvolution
  import opened DaoOutcomes

  // ----- Delegated weight -----

  function BalanceFn(ledger: map<Address, int>): Address -> int {
    (a: Address) => Balance(ledger, a)
  }

  function PowerFn(s: Dao, now: nat): Address -> int {
    (a: Address) => Power(s, a, Balance(s.bank.ledger, a), now)
  }

  /** Delegators a vote on `id` would newly count: they hold tokens and no delegate swept them yet. */
  function UncountedFn(s: Dao, id: nat): Address -> bool {
    (a: Address) => Balance(s.bank.ledger, a) > 0 && (id, a) !in s.swept
  }

  lemma PowerWithinBalance(s: Dao, holder: Address, amount: int, now: nat)
    requires CheckpointsSound(s.checkpoints) && amount >= 0
    ensures 0 <= Power(s, holder, amount, now) <= amount
  {
    var checkpoint := if holder in s.checkpoints then Some(s.checkpoints[holder]) else None;
    WeightWithinBalance(s.settings.timeWeight, checkpoint, amount, now);
  }

  lemma {:induction false} CollectSweeps(s: Dao, id: nat, delegators: seq<Address>, now: nat)
    ensures forall k :: k in Collect(s, id, delegators, now).swept <==>
                        k in s.swept || (k.0 == id && k.1 in delegators && Balance(s.bank.ledger, k.1) > 0)
    decreases |delegators|
  {
    if delegators != [] {
      assert delegators == delegators[..|delegators| - 1] + [delegators[|delegators| - 1]];
      CollectSweeps(s, id, delegators[..|delegators| - 1], now);
    }
  }

  /** One more delegator: counted with its power when it was not counted before. */
  lemma CollectSnoc(s: Dao, id: nat, before: seq<Address>, d: Address, now: nat)
    requires d !in before
    ensures var c := Collect(s, id, before, now).total;
      Collect(s, id, before + [d], now).total == if UncountedFn(s, id)(d) then SatAdd(c, PowerFn(s, now)(d)) else c
  {
    CollectSweeps(s, id, before, now);
    assert (before + [d])[..|before|] == before;
  }

  lemma {:induction false} CollectTotal(s: Dao, id: nat, delegators: seq<Address>, now: nat)
    requires CheckpointsSound(s.checkpoints) && Distinct(delegators)
    requires SumBy(Filter(delegators, UncountedFn(s, id)), PowerFn(s, now)) <= I128_MAX
    ensures Collect(s, id, delegators, now).total == SumBy(Filter(delegators, UncountedFn(s, id)), PowerFn(s, now)) >= 0
    decreases |delegators|
  {
    if delegators != [] {
      var before, d := delegators[..|delegators| - 1], delegators[|delegators| - 1];
      assert delegators == before + [d] && d !in before;
      var counted := Filter(before, UncountedFn(s, id));
      FilterSnoc(before, d, UncountedFn(s, id));
      CollectSnoc(s, id, before, d, now);
      if UncountedFn(s, id)(d) {
        PowerWithinBalance(s, d, Balance(s.bank.ledger, d), now);
        SumBySnoc(counted, d, PowerFn(s, now));
      } else {
        assert Filter(delegators, UncountedFn(s, id)) == counted;
      }
      CollectTotal(s, id, before, now);
    }
  }

  /** A sweep counts exactly the delegators not counted before, each with its time-weighted live balance. */
  lemma CollectExact(s: Dao, id: nat, delegators: seq<Address>, now: nat)
    requires CheckpointsSound(s.checkpoints) && Distinct(delegators)
    requires SumBy(Filter(delegators, UncountedFn(s, id)), PowerFn(s, now)) <= I128_MAX
    ensures var c, counted := Collect(s, id, delegators, now), Filter(delegators, UncountedFn(s, id));
      && c.total == SumBy(counted, PowerFn(s, now))
      && forall k :: k in c.swept <==> k in s.swept || (k.0 == id && k.1 in counted)
  {
    CollectSweeps(s, id, delegators, now);
    CollectTotal(s, id, delegators, now);
  }

  lemma {:induction false} CollectWithinBalances(s: Dao, id: nat, delegators: seq<Address>, now: nat)
    requires CheckpointsSound(s.checkpoints) && Solvent(s.bank.ledger)
    ensures 0 <= Collect(s, id, delegators, now).total <= SumBy(delegators, BalanceFn(s.bank.ledger))
    decreases |delegators|
  {
    if delegators != [] {
      var before, d := delegators[..|delegators| - 1], delegators[|delegators| - 1];
      assert delegators == before + [d];
      SumByAppend(before, [d], BalanceFn(s.bank.ledger));
      CollectWithinBalances(s, id, before, now);
      assert Balance(s.bank.ledger, d) >= 0;
      PowerWithinBalance(s, d, Balance(s.bank.ledger, d), now);
    }
  }

  /** The weight recorded for a vote: the voter's own power plus the power of exactly the delegators whose
      tokens no earlier vote on the proposal counted, who are marked as counted from now on. */
  lemma VoteWeighs(s: Dao, voter: Address, id: nat, choice: Choice, now: nat)
    requires Sound(s) && Vote(s, voter, id, choice, now).Some?
    requires var counted := Filter(DelegatorsOf(s.delegations, voter), UncountedFn(s, id));
      Power(s, voter, Pledge(s, voter), now) + SumBy(counted, PowerFn(s, now)) <= I128_MAX
    ensures var t, counted := Vote(s, voter, id, choice, now).value, Filter(DelegatorsOf(s.delegations, voter), UncountedFn(s, id));
      && t.votes[(id, voter)] == VoteRecord(choice, Power(s, voter, Pledge(s, voter), now) + SumBy(counted, PowerFn(s, now)))
      && forall k :: k in t.swept <==> k in s.swept || (k.0 == id && k.1 in counted)
  {
    var delegators := DelegatorsOf(s.delegations, voter);
    assert ListExact(s.delegations, voter);
    assert Pledge(s, voter) >= 0 || s.settings.config.weightCap > 0;
    PowerWithinBalance(s, voter, Pledge(s, voter), now);
    CollectExact(s, id, delegators, now);
    CollectTotal(s, id, delegators, now);
  }

  /** A ballot never weighs more than the tokens behind it: the voter's own and its delegators', at the
      time of the vote. */
  lemma VoteWithinTokens(s: Dao, voter: Address, id: nat, choice: Choice, now: nat)
    requires Sound(s) && Vote(s, voter, id, choice, now).Some?
    ensures var record := Vote(s, voter, id, choice, now).value.votes[(id, voter)];
      && record.choice == choice
      && 0 < record.weight <= Pledge(s, voter) + SumBy(DelegatorsOf(s.delegations, voter), BalanceFn(s.bank.ledger))
  {
    if s.settings.config.weightCap > 0 {
      assert Pledge(s, voter) >= 0;
    }
    PowerWithinBalance(s, voter, Pledge(s, voter), now);
    CollectWithinBalances(s, id, DelegatorsOf(s.delegations, voter), now);
  }

  // ----- One ballot or a batch -----

  lemma {:induction false} CollectIgnoresOthers(s: Dao, t: Dao, id: nat, delegators: seq<Address>, now: nat)
    requires t == s.(bank := t.bank)
    requires forall d :: d in delegators ==> Balance(t.bank.ledger, d) == Balance(s.bank.ledger, d)
    ensures Collect(t, id, delegators, now) == Collect(s, id, delegators, now)
    decreases |delegators|
  {
    if delegators != [] {
      CollectIgnoresOthers(s, t, id, delegators[..|delegators| - 1], now);
    }
  }

  lemma PledgeLeavesDelegators(s: Dao, voter: Address, first: nat, id: nat, now: nat)
    requires Forest(s.delegations) && SELF !in s.delegations.delegateOf
    requires Lock(s.bank, (first, voter), Pledge(s, voter)).Some?
    ensures var t, delegators := s.(bank := Lock(s.bank, (first, voter), Pledge(s, voter)).value), DelegatorsOf(s.delegations, voter);
      Collect(t, id, delegators, now) == Collect(s, id, delegators, now)
  {
    var locked, delegators := Lock(s.bank, (first, voter), Pledge(s, voter)).value, DelegatorsOf(s.delegations, voter);
    assert ListExact(s.delegations, voter);
    forall d | d in delegators ensures Balance(locked.ledger, d) == Balance(s.bank.ledger, d) {
      assert IsEdge(s.delegations, d, voter);
      RootsAndLeaves(s.delegations, d);
    }
    CollectIgnoresOthers(s, s.(bank := locked), id, delegators, now);
  }

  lemma CastOne(s: Dao, voter: Address, id: nat, choice: Choice, own: int, now: nat)
    ensures CastAll(s, voter, [id], choice, own, now) == CastOn(s, voter, id, choice, own, now)
  {
    var next := CastOn(s, voter, id, choice, own, now);
    assert [id][1..] == [];
    assert next.Some? ==> CastAll(next.value, voter, [id][1..], choice, own, now) == next;
  }

  /** As far as the sweep is the same, casting a ballot neither reads nor writes the bank. */
  lemma CastOnAnyBank(s: Dao, bank: Bank, voter: Address, id: nat, choice: Choice, own: int, now: nat)
    requires Collect(s.(bank := bank), id, DelegatorsOf(s.delegations, voter), now)
          == Collect(s, id, DelegatorsOf(s.delegations, voter), now)
    ensures var a, b := CastOn(s, voter, id, choice, own, now), CastOn(s.(bank := bank), voter, id, choice, own, now);
      && (a.Some? <==> b.Some?)
      && (a.Some? ==> b.value == a.value.(bank := bank) && a.value.bank == s.bank)
  {
  }

  lemma SingletonGuards(s: Dao, voter: Address, id: nat, now: nat)
    ensures AllDistinct([id])
    ensures MayVoteAll(s, voter, [id], now) <==> MayVote(s, voter, id, now)
  {
    assert [id][0] == id;
  }

  /** A batch of one is a vote, although it moves the tokens before it sums up the delegated weight. */
  lemma SingletonBatch(s: Dao, voter: Address, id: nat, choice: Choice, now: nat)
    requires Forest(s.delegations) && SELF !in s.delegations.delegateOf
    ensures VoteBatch(s, voter, [id], choice, now) == Vote(s, voter, id, choice, now)
  {
    SingletonGuards(s, voter, id, now);
    var own, locked := Power(s, voter, Pledge(s, voter), now), Lock(s.bank, (id, voter), Pledge(s, voter));
    if locked.Some? {
      PledgeLeavesDelegators(s, voter, id, id, now);
      CastOnAnyBank(s, locked.value, voter, id, choice, own, now);
      CastOne(s.(bank := locked.value), voter, id, choice, own, now);
      assert ShareAll(locked.value, voter, [id][1..]) == locked.value;
    }
  }

  // ----- Locked tokens -----

  /** A withdrawal never fails for want of tokens, pays back exactly what is locked, and only once. */
  lemma WithdrawExact(s: Dao, voter: Address, id: nat)
    requires Sound(s) && voter != SELF
    ensures Withdraw(s, voter, id).Some? <==>
            (id in s.proposals && s.proposals[id].status != Active && (id, voter) in s.votes)
    ensures Withdraw(s, voter, id).Some? ==>
              var t := Withdraw(s, voter, id).value;
              && Balance(t.bank.ledger, voter) == Balance(s.bank.ledger, voter) + LockOf(s.bank, (id, voter))
              && LockOf(t.bank, (id, voter)) == 0
              && Withdraw(t, voter, id) == Some(t)
  {
    Covered(s.bank, id, (id, voter));
    assert (id, voter) in s.bank.locked ==> (id, voter) in s.votes;
  }

  /** What cancelling a proposal returns to an account: the deposit, if the account proposed it. */
  function DepositOf(s: Dao, id: nat, account: Address): int
    requires id in s.proposals
  {
    if account == s.proposals[id].proposer then s.proposals[id].deposit else 0
  }

  /** Once its proposal is cancelled, a ballot's own lock is free, and nothing else changes for the voter but the
      deposit of a proposal of its own. */
  lemma FreeAfterCancel(s: Dao, voter: Address, id: nat)
    requires Sound(s) && InStatus(s, id, Active) && (id, voter) in s.votes
    ensures Withdraw(s, voter, id).None? && Cancel(s, id).Some?
    ensures var freed := Withdraw(Cancel(s, id).value, voter, id);
      && freed.Some?
      && Balance(freed.value.bank.ledger, voter) == Balance(s.bank.ledger, voter) + LockOf(s.bank, (id, voter)) + DepositOf(s, id, voter)
      && freed.value.votes == s.votes
      && forall j :: j != id && j in s.proposals ==> j in freed.value.proposals && freed.value.proposals[j] == s.proposals[j]
  {
    CancelExact(s, id);
    assert voter != SELF;
    CancelKeepsOthers(s, id, voter);
    CloseSound(s, id, s.proposals[id].(status := Cancelled), Some(s.proposals[id].deposit));
    WithdrawExact(Cancel(s, id).value, voter, id);
    WithdrawKeepsVotes(Cancel(s, id).value, voter, id);
  }

  lemma CancelKeepsOthers(s: Dao, id: nat, voter: Address)
    requires Cancel(s, id).Some? && s.proposals[id].proposer != SELF && voter != SELF
    ensures var t := Cancel(s, id).value;
      && t.votes == s.votes && t.bank.locked == s.bank.locked && InStatus(t, id, Cancelled)
      && Balance(t.bank.ledger, voter) == Balance(s.bank.ledger, voter) + DepositOf(s, id, voter)
      && forall j :: j != id && j in s.proposals ==> j in t.proposals && t.proposals[j] == s.proposals[j]
  {
  }

  lemma WithdrawKeepsVotes(s: Dao, voter: Address, id: nat)
    ensures Withdraw(s, voter, id).Some? ==>
              Withdraw(s, voter, id).value.votes == s.votes && Withdraw(s, voter, id).value.proposals == s.proposals
  {
  }

  lemma VotePledged(s: Dao, voter: Address, id: nat, choice: Choice, now: nat)
    requires Sound(s) && voter != SELF && Vote(s, voter, id, choice, now).Some?
    ensures var voted := Vote(s, voter, id, choice, now).value;
      && Balance(voted.bank.ledger, voter) == Balance(s.bank.ledger, voter) - Pledge(s, voter)
      && LockOf(voted.bank, (id, voter)) == Pledge(s, voter) && (id, voter) in voted.votes
      && InStatus(voted, id, Active) && DepositOf(voted, id, voter) == DepositOf(s, id, voter)
  {
    assert voter != SELF;
  }

  /** Voting takes the pledge, and cancelling the proposal lets the voter take all of it back, beside the deposit
      of a proposal of its own. */
  lemma VoteUndone(s: Dao, voter: Address, id: nat, choice: Choice, now: nat)
    requires Sound(s) && voter != SELF && Vote(s, voter, id, choice, now).Some?
    ensures var voted := Vote(s, voter, id, choice, now).value;
      && Balance(voted.bank.ledger, voter) == Balance(s.bank.ledger, voter) - Pledge(s, voter)
      && Withdraw(voted, voter, id).None? && Cancel(voted, id).Some?
      && var freed := Withdraw(Cancel(voted, id).value, voter, id);
      && freed.Some? && Balance(freed.value.bank.ledger, voter) == Balance(s.bank.ledger, voter) + DepositOf(s, id, voter)
  {
    VoteSound(s, voter, id, choice, now);
    VotePledged(s, voter, id, choice, now);
    FreeAfterCancel(Vote(s, voter, id, choice, now).value, voter, id);
  }

  /** While a proposal stays Active, no run of operations returns what is locked under it. */
  lemma LockHeldWhileActive(s: Dao, ops: seq<Op>, voter: Address, id: nat)
    requires Sound(s) && (forall i :: 0 <= i < |ops| ==> FromOutside(ops[i]))
    requires (id, voter) in s.bank.locked && InStatus(s, id, Active) && InStatus(Run(s, ops), id, Active)
    ensures LockOf(Run(s, ops).bank, (id, voter)) == s.bank.locked[(id, voter)]
  {
    RunEvolves(s, ops);
  }

  /** For a batch that holds only of its first proposal. As soon as that one is no longer Active the voter
      gets the whole pledge back, while the other ballots of the batch still count on open proposals: tokens
      do not stay locked while any proposal voted on is Active. */
  lemma BatchLockFollowsFirst(s: Dao, voter: Address, ids: seq<nat>, choice: Choice, now: nat)
    requires Sound(s) && voter != SELF && VoteBatch(s, voter, ids, choice, now).Some? && |ids| > 1
    ensures var voted := VoteBatch(s, voter, ids, choice, now).value;
      && LockOf(voted.bank, (ids[0], voter)) == Pledge(s, voter)
      && (forall i :: 0 < i < |ids| ==> LockOf(voted.bank, (ids[i], voter)) == 0)
      && Cancel(voted, ids[0]).Some?
      && var freed := Withdraw(Cancel(voted, ids[0]).value, voter, ids[0]);
      && freed.Some? && Balance(freed.value.bank.ledger, voter) == Balance(s.bank.ledger, voter) + DepositOf(s, ids[0], voter)
      && InStatus(freed.value, ids[1], Active) && (ids[1], voter) in freed.value.votes
  {
    VoteBatchSound(s, voter, ids, choice, now);
    BatchPledged(s, voter, ids, choice, now);
    FreeAfterCancel(VoteBatch(s, voter, ids, choice, now).value, voter, ids[0]);
    assert ids[1] != ids[0];
  }

  lemma BatchLocks(b: Bank, voter: Address, ids: seq<nat>, pledge: int)
    requires Conserved(b) && Solvent(b.ledger) && voter != SELF && ids != [] && AllDistinct(ids)
    requires forall id :: id in ids ==> (id, voter) !in b.locked
    requires Lock(b, (ids[0], voter), pledge).Some?
    ensures var c := ShareAll(Lock(b, (ids[0], voter), pledge).value, voter, ids[1..]);
      && LockOf(c, (ids[0], voter)) == pledge
      && (forall i :: 0 < i < |ids| ==> LockOf(c, (ids[i], voter)) == 0)
      && Balance(c.ledger, voter) == Balance(b.ledger, voter) - pledge
  {
    BatchLocksKept(b, voter, ids, pledge);
    SharedLedger(Lock(b, (ids[0], voter), pledge).value, voter, ids[1..]);
    forall i | 0 < i < |ids| ensures ids[i] in ids[1..] {
      assert ids[1..][i - 1] == ids[i];
    }
  }

  lemma BatchBallots(s: Dao, voter: Address, ids: seq<nat>, choice: Choice, own: int, now: nat)
    requires TallySound(s.proposals, s.votes) && AllDistinct(ids) && MayVoteAll(s, voter, ids, now)
    requires CastAll(s, voter, ids, choice, own, now).Some?
    ensures var t := CastAll(s, voter, ids, choice, own, now).value;
      forall i :: 0 <= i < |ids| ==>
        && (ids[i], voter) in t.votes && InStatus(t, ids[i], Active)
        && DepositOf(t, ids[i], voter) == DepositOf(s, ids[i], voter)
  {
    assert forall i :: 0 <= i < |ids| ==> MayVote(s, voter, ids[i], now);
    CastAllBy(s, voter, ids, choice, own, now);
    var t := CastAll(s, voter, ids, choice, own, now).value;
    forall i | 0 <= i < |ids| ensures OnlyCounted(s.proposals[ids[i]], t.proposals[ids[i]]) {
      assert ids[i] in s.proposals;
    }
  }

  lemma BatchPledged(s: Dao, voter: Address, ids: seq<nat>, choice: Choice, now: nat)
    requires Sound(s) && voter != SELF && VoteBatch(s, voter, ids, choice, now).Some?
    ensures var voted := VoteBatch(s, voter, ids, choice, now).value;
      && LockOf(voted.bank, (ids[0], voter)) == Pledge(s, voter)
      && (forall i :: 0 < i < |ids| ==> LockOf(voted.bank, (ids[i], voter)) == 0)
      && (forall i :: 0 <= i < |ids| ==> (ids[i], voter) in voted.votes && InStatus(voted, ids[i], Active))
      && Balance(voted.bank.ledger, voter) == Balance(s.bank.ledger, voter) - Pledge(s, voter)
      && DepositOf(voted, ids[0], voter) == DepositOf(s, ids[0], voter)
  {
    var pledge := Pledge(s, voter);
    var own, bank := Power(s, voter, pledge, now), Lock(s.bank, (ids[0], voter), pledge).value;
    assert forall i :: 0 <= i < |ids| ==> MayVote(s, voter, ids[i], now);
    BatchLocks(s.bank, voter, ids, pledge);
    assert MayVoteAll(s.(bank := bank), voter, ids, now) by {
      assert forall i :: 0 <= i < |ids| ==> MayVote(s.(bank := bank), voter, ids[i], now);
    }
    BatchBallots(s.(bank := bank), voter, ids, choice, own, now);
  }

  lemma {:induction false} SharedLedger(b: Bank, voter: Address, ids: seq<nat>)
    ensures ShareAll(b, voter, ids).ledger == b.ledger
    decreases |ids|
  {
    if ids != [] {
      SharedLedger(b, voter, ids[..|ids| - 1]);
    }
  }
}
