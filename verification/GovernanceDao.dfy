/** The governance DAO contract: its storage as fields, its entry points as methods, each proved to do what
    DaoState says. A method that returns false aborted and left the storage as it was. */
module GovernanceDao {
  import opened Arithmetic
  import opened Sequences
  import opened Ledger
  import opened DaoQuorum
  import opened DaoDelegation
  import opened DaoBank
  import opened DaoState
  import opened DaoVoting

  class Governance {
    var settings: Settings
    var proposals: map<nat, Proposal>
    var nextId: nat
    var hashes: map<Action, nat>
    var votes: map<Ballot, VoteRecord>
    var swept: set<Ballot>
    var delegateOf: map<Address, Address>
    var delegators: map<Address, seq<Address>>
    var history: History
    var checkpoints: map<Address, Checkpoint>
    var ledger: map<Address, int>
    var locked: map<Ballot, int>
    ghost var escrow: map<nat, int>
    ghost var external: int

    ghost function BankNow(): Bank
      reads this
    {
      Bank(ledger, escrow, locked, external)
    }

    ghost function Graph(): Delegations
      reads this
    {
      Delegations(delegateOf, delegators)
    }

    ghost function Snapshot(): Dao
      reads this
    {
      Dao(settings, proposals, nextId, hashes, votes, swept, Graph(), BankNow(), history, checkpoints)
    }

    /** The call did what the specification says: `after` when it succeeded, nothing when it aborted. */
    ghost predicate Did(before: Dao, after: Option<Dao>, ok: bool)
      reads this
    {
      (ok <==> after.Some?) && Snapshot() == if ok then after.value else before
    }

    ghost predicate BankDid(before: Bank, after: Option<Bank>, ok: bool)
      reads this
    {
      (ok <==> after.Some?) && BankNow() == if ok then after.value else before
    }

    constructor (config: Config, ledger: map<Address, int>)
      ensures Snapshot() == Deployed(config, ledger)
    {
      settings := Settings(config, NO_DECAY, NO_TIME_WEIGHT, NO_ESCALATION, {});
      proposals, nextId, hashes, votes, swept := map[], 0, map[], map[], {};
      delegateOf, delegators, history, checkpoints := map[], map[], History([], 0), map[];
      this.ledger, locked, escrow, external := ledger, map[], map[], Balance(ledger, SELF);
    }

    // ----- Proposals -----

    /** Is a proposal with this content still open? */
    method IsDuplicate(action: Action) returns (duplicate: bool)
      ensures duplicate <==> action in hashes && IsOpen(Snapshot(), hashes[action])
    {
      if action !in hashes { return false; }
      var existing := hashes[action];
      if existing !in proposals { return false; }
      var status := proposals[existing].status;
      return status == Active || status == Discussion;
    }

    method PullDeposit(id: nat, from: Address, amount: int) returns (ok: bool)
      modifies `ledger, `escrow
      ensures BankDid(old(BankNow()), TakeDeposit(old(BankNow()), id, from, amount), ok)
    {
      var moved := Transfer(ledger, from, SELF, amount);
      if moved.None? { return false; }
      ledger := moved.value;
      escrow := escrow[id := amount];
      return true;
    }

    method CreateProposal(proposer: Address, d: Draft, now: nat) returns (ok: bool)
      modifies `proposals, `nextId, `hashes, `ledger, `escrow
      ensures Did(old(Snapshot()), Create(old(Snapshot()), proposer, d, now), ok)
    {
      var duplicate := IsDuplicate(d.action);
      if !WellFormed(d) || duplicate { return false; }
      var id, deposit := nextId, Threshold(settings, d.kind, d.action.target);
      if Balance(ledger, proposer) < deposit || id >= U64_MAX { return false; }
      ok := PullDeposit(id, proposer, deposit);
      if ok {
        WriteProposal(id, NewProposal(settings.config, proposer, d.action, deposit, now));
      }
    }

    /** Stores a new proposal under the next id and indexes its content. */
    method WriteProposal(id: nat, proposal: Proposal)
      requires id == nextId
      modifies `proposals, `nextId, `hashes
      ensures Snapshot() == old(Snapshot()).(
                proposals := old(proposals)[id := proposal], nextId := id + 1, hashes := old(hashes)[proposal.action := id])
    {
      proposals := proposals[id := proposal];
      nextId := id + 1;
      hashes := hashes[proposal.action := id];
    }

    method StartVoting(id: nat, now: nat) returns (ok: bool)
      modifies `proposals
      ensures Did(old(Snapshot()), DaoState.StartVoting(old(Snapshot()), id, now), ok)
    {
      if id !in proposals { return false; }
      var proposal := proposals[id];
      if proposal.status != Discussion || settings.config.discussion == 0 { return false; }
      if now < SatAddU64(proposal.createdAt, settings.config.discussion) { return false; }
      proposals := proposals[id := proposal.(status := Active)];
      return true;
    }

    // ----- Voting -----

    /** Voting weight of an amount held by `holder`. */
    method TimeWeighted(holder: Address, amount: int, now: nat) returns (weight: int)
      ensures weight == Power(Snapshot(), holder, amount, now)
    {
      var cfg := settings.timeWeight;
      if !cfg.enabled || amount <= 0 { return amount; }
      var aged, since := 0, now;
      if holder in checkpoints {
        aged, since := Min(checkpoints[holder].amount, amount), checkpoints[holder].since;
      }
      var elapsed := Min(SatSubU64(now, since), cfg.ramp);
      var factor := cfg.minBps + (BPS - cfg.minBps) * elapsed / cfg.ramp;
      weight := TruncDiv(SatMul(aged, factor), BPS) + TruncDiv(SatMul(amount - aged, cfg.minBps), BPS);
    }

    /** Sums the live balances delegated to `voter` and marks each delegator as counted for this proposal. */
    method CollectDelegatedWeight(voter: Address, id: nat, now: nat) returns (total: int)
      modifies `swept
      ensures Sweep(total, swept) == Collect(old(Snapshot()), id, DelegatorsOf(old(Graph()), voter), now)
    {
      var list := Get(delegators, voter, []);
      ghost var before := Snapshot();
      total := 0;
      for i := 0 to |list|
        modifies `swept
        invariant Sweep(total, swept) == Collect(before, id, list[..i], now)
      {
        assert list[..i + 1][..i] == list[..i];
        var balance := Balance(ledger, list[i]);
        if balance <= 0 || (id, list[i]) in swept {
          continue;
        }
        swept := swept + {(id, list[i])};
        var counted := TimeWeighted(list[i], balance, now);
        total := SatAdd(total, counted);
      }
      assert list[..|list|] == list;
    }

    /** Tallies and records a ballot; an abort leaves only sweep marks, which the caller undoes. */
    method Tally(voter: Address, id: nat, choice: Choice, own: int, now: nat) returns (ok: bool)
      requires id in proposals
      modifies `proposals, `votes, `swept
      ensures ok <==> CastOn(old(Snapshot()), voter, id, choice, own, now).Some?
      ensures ok ==> Snapshot() == CastOn(old(Snapshot()), voter, id, choice, own, now).value
      ensures !ok ==> proposals == old(proposals) && votes == old(votes)
    {
      var delegated := CollectDelegatedWeight(voter, id, now);
      var weight := SatAdd(own, delegated);
      if weight <= 0 { return false; }
      var proposal := proposals[id];
      match choice {
        case For =>
          if !FitsI128(proposal.votesFor + weight) { return false; }
          proposal := proposal.(votesFor := proposal.votesFor + weight);
        case Against =>
          if !FitsI128(proposal.votesAgainst + weight) { return false; }
          proposal := proposal.(votesAgainst := proposal.votesAgainst + weight);
        case Abstain =>
          if !FitsI128(proposal.votesAbstain + weight) { return false; }
          proposal := proposal.(votesAbstain := proposal.votesAbstain + weight);
      }
      votes := votes[(id, voter) := VoteRecord(choice, weight)];
      proposals := proposals[id := proposal];
      return true;
    }

    /** The voter's balance up to the configured cap. */
    method CappedBalance(voter: Address) returns (capped: int)
      ensures capped == Pledge(Snapshot(), voter)
    {
      capped := Balance(ledger, voter);
      if settings.config.weightCap > 0 {
        capped := Min(capped, settings.config.weightCap);
      }
    }

    method Vote(voter: Address, id: nat, choice: Choice, now: nat) returns (ok: bool)
      modifies `proposals, `votes, `swept, `ledger, `locked
      ensures Did(old(Snapshot()), DaoState.Vote(old(Snapshot()), voter, id, choice, now), ok)
    {
      if id !in proposals || proposals[id].status != Active || now > proposals[id].voteEnd
         || (id, voter) in votes || voter in delegateOf || (id, voter) in swept || Balance(ledger, voter) <= 0
      {
        return false;
      }
      var capped := CappedBalance(voter);
      var own := TimeWeighted(voter, capped, now);
      ok := TallyThenLock(voter, id, choice, own, capped, now);
    }

    /** Tallies one ballot and then moves its tokens in, or leaves everything as it was. */
    method TallyThenLock(voter: Address, id: nat, choice: Choice, own: int, capped: int, now: nat) returns (ok: bool)
      requires id in proposals
      modifies `proposals, `votes, `swept, `ledger, `locked
      ensures var cast, bank := CastOn(old(Snapshot()), voter, id, choice, own, now), Lock(old(BankNow()), (id, voter), capped);
        && (ok <==> cast.Some? && bank.Some?)
        && Snapshot() == if ok then cast.value.(bank := bank.value) else old(Snapshot())
    {
      var moved := Transfer(ledger, voter, SELF, capped);
      if moved.None? { return false; }
      var marks := swept;
      ok := Tally(voter, id, choice, own, now);
      if ok {
        ledger := moved.value;
        locked := locked[(id, voter) := capped];
      } else {
        swept := marks;
      }
    }

    /** Does an id occur twice? */
    method HasRepeats(ids: seq<nat>) returns (repeats: bool)
      ensures repeats <==> !AllDistinct(ids)
    {
      for i := 0 to |ids|
        invariant forall a, b :: 0 <= a < i && a < b < |ids| ==> ids[a] != ids[b]
      {
        for j := i + 1 to |ids|
          invariant forall b :: i < b < j ==> ids[i] != ids[b]
        {
          if ids[j] == ids[i] { return true; }
        }
      }
      return false;
    }

    /** First pass of a batch: every proposal must accept the vote before anything is written. */
    method ValidateBatch(voter: Address, ids: seq<nat>, now: nat) returns (valid: bool)
      ensures valid <==> MayVoteAll(Snapshot(), voter, ids, now)
    {
      for i := 0 to |ids|
        invariant forall k :: 0 <= k < i ==> MayVote(Snapshot(), voter, ids[k], now)
      {
        var id := ids[i];
        if id !in proposals || proposals[id].status != Active || now > proposals[id].voteEnd
           || (id, voter) in votes || (id, voter) in swept
        {
          assert !MayVote(Snapshot(), voter, ids[i], now);
          return false;
        }
      }
      return true;
    }

    /** One ballot of a batch, with the amount locked under it. */
    method TallyAndLock(voter: Address, id: nat, choice: Choice, own: int, amount: int, now: nat) returns (ok: bool)
      requires id in proposals
      modifies `proposals, `votes, `swept, `locked
      ensures ok <==> CastOn(old(Snapshot()), voter, id, choice, own, now).Some?
      ensures ok ==> Snapshot() == CastOn(old(Snapshot()), voter, id, choice, own, now).value.(
                       bank := old(BankNow()).(locked := old(locked)[(id, voter) := amount]))
    {
      ok := Tally(voter, id, choice, own, now);
      if ok {
        locked := locked[(id, voter) := amount];
      }
    }

    /** Second pass: tallies each proposal and attributes the one real lock to the first. */
    method TallyBatch(voter: Address, ids: seq<nat>, choice: Choice, own: int, capped: int, now: nat) returns (ok: bool)
      requires ids != [] && forall i :: 0 <= i < |ids| ==> ids[i] in proposals
      modifies `proposals, `votes, `swept, `locked
      ensures var bank := old(BankNow()).(locked := old(locked)[(ids[0], voter) := capped]);
        var goal := CastAll(old(Snapshot()).(bank := bank), voter, ids, choice, own, now);
        && (ok <==> goal.Some?)
        && (ok ==> Snapshot() == goal.value.(bank := ShareAll(bank, voter, ids[1..])))
    {
      ghost var start, bank := BankNow(), BankNow().(locked := locked[(ids[0], voter) := capped]);
      ghost var goal := CastAll(Snapshot().(bank := bank), voter, ids, choice, own, now);
      for i := 0 to |ids|
        invariant forall k :: 0 <= k < |ids| ==> ids[k] in proposals
        invariant CastAll(Snapshot().(bank := bank), voter, ids[i..], choice, own, now) == goal
        invariant BankNow() == if i == 0 then start else ShareAll(bank, voter, ids[1..i])
        invariant ledger == bank.ledger
      {
        assert ids[i..][0] == ids[i] && ids[i..][1..] == ids[i + 1..];
        CollectIgnoresLocks(Snapshot(), bank, ids[i], DelegatorsOf(Graph(), voter), now);
        CastOnAnyBank(Snapshot(), bank, voter, ids[i], choice, own, now);
        if i > 0 { ShareNext(bank, voter, ids, i); }
        ok := TallyAndLock(voter, ids[i], choice, own, if i == 0 then capped else 0, now);
        if !ok { return; }
      }
      assert ids[1..|ids|] == ids[1..];
      return true;
    }

    /** Locks the pledge once and tallies the whole batch, or leaves everything as it was. */
    method PledgeAndTally(voter: Address, ids: seq<nat>, choice: Choice, own: int, capped: int, now: nat) returns (ok: bool)
      requires ids != [] && forall i :: 0 <= i < |ids| ==> ids[i] in proposals
      modifies `proposals, `votes, `swept, `ledger, `locked
      ensures var bank := Lock(old(BankNow()), (ids[0], voter), capped);
        && (ok <==> bank.Some? && CastAll(old(Snapshot()).(bank := bank.value), voter, ids, choice, own, now).Some?)
        && (ok ==> Snapshot() == CastAll(old(Snapshot()).(bank := bank.value), voter, ids, choice, own, now).value.(
                                   bank := ShareAll(bank.value, voter, ids[1..])))
      ensures !ok ==> proposals == old(proposals) && votes == old(votes) && swept == old(swept)
      ensures !ok ==> ledger == old(ledger) && locked == old(locked)
    {
      var moved := Transfer(ledger, voter, SELF, capped);
      if moved.None? { return false; }
      var proposals0, votes0, swept0, ledger0, locked0 := proposals, votes, swept, ledger, locked;
      ghost var before, bank := Snapshot(), Lock(BankNow(), (ids[0], voter), capped).value;
      ledger := moved.value;
      assert BankNow().(locked := locked[(ids[0], voter) := capped]) == bank;
      assert Snapshot().(bank := bank) == before.(bank := bank);
      ok := TallyBatch(voter, ids, choice, own, capped, now);
      if !ok {
        proposals, votes, swept, ledger, locked := proposals0, votes0, swept0, ledger0, locked0;
      }
    }

    method VoteBatch(voter: Address, ids: seq<nat>, choice: Choice, now: nat) returns (ok: bool)
      modifies `proposals, `votes, `swept, `ledger, `locked
      ensures Did(old(Snapshot()), DaoState.VoteBatch(old(Snapshot()), voter, ids, choice, now), ok)
    {
      var repeats := HasRepeats(ids);
      var valid := ValidateBatch(voter, ids, now);
      if ids == [] || repeats || voter in delegateOf || !valid || Balance(ledger, voter) <= 0 { return false; }
      var capped := CappedBalance(voter);
      var own := TimeWeighted(voter, capped, now);
      assert forall i :: 0 <= i < |ids| ==> MayVote(Snapshot(), voter, ids[i], now);
      ok := PledgeAndTally(voter, ids, choice, own, capped, now);
    }

    method WithdrawTokens(voter: Address, id: nat) returns (ok: bool)
      modifies `ledger, `locked
      ensures Did(old(Snapshot()), Withdraw(old(Snapshot()), voter, id), ok)
    {
      if id !in proposals || proposals[id].status == Active { return false; }
      var amount := Get(locked, (id, voter), 0);
      if amount <= 0 { return (id, voter) in votes; }
      var moved := Transfer(ledger, SELF, voter, amount);
      if moved.None? { return false; }
      locked := locked - {(id, voter)};
      ledger := moved.value;
      return true;
    }

    // ----- Settling -----

    /** The quorum in force, in basis points. */
    method CurrentQuorum() returns (bps: nat)
      ensures bps == QuorumNow(Snapshot()).quorumBps
    {
      var base, decay := settings.config.quorumBps, settings.decay;
      var average := ComputeAverage(history);
      if !decay.enabled || average.None? { return base; }
      if average.value >= base { return base; }
      var shortfall := base - average.value;
      var steps := shortfall / Max(decay.stepBps, 1);
      var reduction := Min(steps * decay.stepBps, U32_MAX);
      return Max(Max(base - reduction, 0), decay.floorBps);
    }

    method RecordParticipation(totalVotes: int, totalSupply: int)
      modifies `history
      ensures history == Record(old(history), settings.decay, totalVotes, totalSupply)
    {
      var window := if settings.decay.window == 0 then DEFAULT_WINDOW else settings.decay.window;
      var bps := 0;
      if totalSupply > 0 {
        bps := MAX_TURNOUT;
        if FitsI128(totalVotes * BPS) {
          bps := Max(0, Min(TruncDiv(totalVotes * BPS, totalSupply), MAX_TURNOUT));
        }
      }
      var kept := DropOldest(history.recentBps + [bps], window);
      history := History(kept, SatAddU64(history.totalRecorded, 1));
    }

    /** Sends `amount` of a proposal's deposit back to its proposer. */
    method PayProposer(id: nat, proposer: Address, amount: int) returns (ok: bool)
      modifies `ledger, `escrow
      ensures BankDid(old(BankNow()), Release(old(BankNow()), id, proposer, amount), ok)
    {
      var moved := Transfer(ledger, SELF, proposer, amount);
      if moved.None? { return false; }
      ledger := moved.value;
      escrow := escrow[id := Get(escrow, id, 0) - amount];
      return true;
    }

    /** Does the vote carry? */
    method Carries(proposal: Proposal) returns (passed: bool)
      ensures passed == Decide(Snapshot(), proposal)
    {
      var partisan := proposal.votesFor + proposal.votesAgainst;
      var quorumBps := CurrentQuorum();
      var needed := I128_MAX;
      if FitsI128(proposal.totalSupply * quorumBps) {
        needed := TruncDiv(proposal.totalSupply * quorumBps, BPS);
      }
      if partisan == 0 || partisan < needed { return false; }
      var forBps := 0;
      if partisan > 0 && FitsI128(proposal.votesFor * BPS) {
        forBps := TruncDiv(proposal.votesFor * BPS, partisan);
      }
      return forBps >= settings.config.majorityBps;
    }

    /** Writes a settled proposal, sending `refund` back to its proposer and freeing its content hash. */
    method Conclude(id: nat, q: Proposal, refund: Option<int>) returns (ok: bool)
      modifies `proposals, `hashes, `ledger, `escrow
      ensures Did(old(Snapshot()), Close(old(Snapshot()), id, q, refund), ok)
    {
      if refund.Some? {
        ok := PayProposer(id, q.proposer, refund.value);
        if !ok { return; }
      }
      proposals := proposals[id := q];
      hashes := hashes - {q.action};
      return true;
    }

    method Finalize(id: nat, now: nat) returns (ok: bool)
      modifies `proposals, `history, `hashes, `ledger, `escrow
      ensures Did(old(Snapshot()), DaoState.Finalize(old(Snapshot()), id, now), ok)
    {
      if id !in proposals || proposals[id].status != Active { return false; }
      var p := proposals[id];
      if !FinalizeDue(p, now) || !CountsFit(p) { return false; }
      var passed := Carries(p);
      if passed && !FitsU64(now + settings.config.timelock) { return false; }
      var recorded := history;
      RecordParticipation(p.votesFor + p.votesAgainst + p.votesAbstain, p.totalSupply);
      if passed {
        ok := Conclude(id, p.(status := Passed, executionTime := now + settings.config.timelock), None);
      } else {
        ok := Conclude(id, p.(status := Failed), Some(p.deposit));
      }
      if !ok {
        history := recorded;
      }
    }

    /** The batch's own copy of the settling code, which checks the total after the decision and leaves it to
        the caller to undo what was written before a failing check. */
    method SettleOne(pid: nat, now: nat) returns (ok: bool)
      modifies `proposals, `history, `hashes, `ledger, `escrow
      ensures ok <==> DaoState.Finalize(old(Snapshot()), pid, now).Some?
      ensures ok ==> Snapshot() == DaoState.Finalize(old(Snapshot()), pid, now).value
    {
      if pid !in proposals || proposals[pid].status != Active { return false; }
      var p := proposals[pid];
      if !FinalizeDue(p, now) || !FitsI128(p.votesFor + p.votesAgainst) { return false; }
      var q, refund := p.(status := Failed), Some(p.deposit);
      var passed := Carries(p);
      if passed {
        if !FitsU64(now + settings.config.timelock) { return false; }
        q, refund := p.(status := Passed, executionTime := now + settings.config.timelock), None;
      }
      if !FitsI128(p.votesFor + p.votesAgainst + p.votesAbstain) { return false; }
      RecordParticipation(p.votesFor + p.votesAgainst + p.votesAbstain, p.totalSupply);
      ok := Conclude(pid, q, refund);
    }

    method SettleEach(ids: seq<nat>, now: nat) returns (ok: bool)
      modifies `proposals, `history, `hashes, `ledger, `escrow
      ensures ok <==> FinalizeAll(old(Snapshot()), ids, now).Some?
      ensures ok ==> Snapshot() == FinalizeAll(old(Snapshot()), ids, now).value
    {
      ghost var goal := FinalizeAll(Snapshot(), ids, now);
      for i := 0 to |ids|
        invariant FinalizeAll(Snapshot(), ids[i..], now) == goal
      {
        assert ids[i..][0] == ids[i] && ids[i..][1..] == ids[i + 1..];
        ok := SettleOne(ids[i], now);
        if !ok { return; }
      }
      return true;
    }

    method FinalizeBatch(ids: seq<nat>, now: nat) returns (ok: bool)
      modifies `proposals, `history, `hashes, `ledger, `escrow
      ensures Did(old(Snapshot()), DaoState.FinalizeBatch(old(Snapshot()), ids, now), ok)
    {
      if ids == [] || |ids| > MAX_BATCH_FINALIZE { return false; }
      var proposals0, history0, hashes0, ledger0 := proposals, history, hashes, ledger;
      ghost var held := escrow;
      ok := SettleEach(ids, now);
      if !ok {
        proposals, history, hashes, ledger, escrow := proposals0, history0, hashes0, ledger0, held;
      }
    }

    method ReclaimDeposit(id: nat, now: nat) returns (ok: bool)
      modifies `proposals, `history, `hashes, `ledger, `escrow
      ensures Did(old(Snapshot()), Reclaim(old(Snapshot()), id, now), ok)
    {
      if id !in proposals || proposals[id].status != Active { return false; }
      var p := proposals[id];
      if now <= SatAddU64(p.voteEnd, RECLAIM_TIMEOUT) || !CountsFit(p) { return false; }
      var recorded := history;
      RecordParticipation(p.votesFor + p.votesAgainst + p.votesAbstain, p.totalSupply);
      ok := Conclude(id, p.(status := Failed), Some(p.deposit));
      if !ok {
        history := recorded;
      }
    }

    /** `completion` is what the target returned: basis points, or None for anything that is not a u32. */
    method Execute(id: nat, now: nat, completion: Option<nat>) returns (ok: bool)
      modifies `proposals, `hashes, `ledger, `escrow
      ensures Did(old(Snapshot()), DaoState.Execute(old(Snapshot()), id, now, completion), ok)
    {
      if id !in proposals || proposals[id].status != Passed { return false; }
      var proposal := proposals[id];
      if proposal.vetoed || now < proposal.executionTime { return false; }
      if now > proposal.deadline {
        ok := Conclude(id, proposal.(status := Expired), None);
        return;
      }
      var bps := if completion.Some? then completion.value else BPS;
      if bps > BPS { return false; }
      var refund := proposal.deposit / BPS * bps + proposal.deposit % BPS * bps / BPS;
      if refund > 0 {
        ok := PayProposer(id, proposal.proposer, refund);
        if !ok { return; }
      }
      proposals := proposals[id := proposal.(status := Executed)];
      return true;
    }

    method Cancel(id: nat) returns (ok: bool)
      modifies `proposals, `hashes, `ledger, `escrow
      ensures Did(old(Snapshot()), DaoState.Cancel(old(Snapshot()), id), ok)
    {
      if id !in proposals || (proposals[id].status != Active && proposals[id].status != Discussion) { return false; }
      ok := Conclude(id, proposals[id].(status := Cancelled), Some(proposals[id].deposit));
    }

    method VetoProposal(guardian: Address, id: nat) returns (ok: bool)
      modifies `proposals
      ensures Did(old(Snapshot()), Veto(old(Snapshot()), guardian, id), ok)
    {
      if guardian !in settings.guardians || id !in proposals { return false; }
      if proposals[id].status == Executed || proposals[id].vetoed { return false; }
      proposals := proposals[id := proposals[id].(vetoed := true)];
      return true;
    }

    // ----- Delegation and checkpoints -----

    /** Rebuilds the list of `e` without `d`; an emptied list is removed. */
    method RemoveDelegator(e: Address, d: Address)
      modifies `delegators
      ensures Graph() == Detach(old(Graph()), e, d)
    {
      var list := Get(delegators, e, []);
      var remaining := [];
      for i := 0 to |list|
        modifies {}
        invariant remaining == Filter(list[..i], OtherThan(d))
      {
        FilterNext(list, i, OtherThan(d));
        if list[i] != d {
          remaining := remaining + [list[i]];
        }
      }
      assert list[..|list|] == list;
      if remaining == [] {
        delegators := delegators - {e};
      } else {
        delegators := delegators[e := remaining];
      }
    }

    method Delegate(d: Address, e: Address) returns (ok: bool)
      modifies `delegateOf, `delegators
      ensures Did(old(Snapshot()), LiftDelegations(old(Snapshot()), DaoDelegation.Delegate(old(Graph()), d, e)), ok)
    {
      if d == e || e in delegateOf { return false; }
      if Get(delegators, d, []) != [] { return false; }
      var saved := delegators;
      if d in delegateOf {
        if delegateOf[d] == e { return false; }
        RemoveDelegator(delegateOf[d], d);
      }
      var list := Get(delegators, e, []);
      if |list| >= MAX_DELEGATORS {
        delegators := saved;
        return false;
      }
      delegateOf := delegateOf[d := e];
      delegators := delegators[e := list + [d]];
      return true;
    }

    method RevokeDelegation(d: Address) returns (ok: bool)
      modifies `delegateOf, `delegators
      ensures Did(old(Snapshot()), LiftDelegations(old(Snapshot()), Revoke(old(Graph()), d)), ok)
    {
      if d !in delegateOf { return false; }
      var e := delegateOf[d];
      RemoveDelegator(e, d);
      delegateOf := delegateOf - {d};
      return true;
    }

    method CheckpointVotingPower(holder: Address, now: nat)
      modifies `checkpoints
      ensures Snapshot() == MakeCheckpoint(old(Snapshot()), holder, now)
    {
      var balance, since := Balance(ledger, holder), now;
      if holder in checkpoints && balance <= checkpoints[holder].amount {
        since := checkpoints[holder].since;
      }
      checkpoints := checkpoints[holder := Checkpoint(balance, since)];
    }

    method PruneParticipationHistory(maxEntries: nat)
      modifies `history
      ensures Snapshot() == PruneHistory(old(Snapshot()), maxEntries)
    {
      var kept := DropOldest(history.recentBps, Min(maxEntries, MAX_WINDOW));
      history := history.(recentBps := kept);
    }
  }

  lemma ShareNext(b: Bank, voter: Address, ids: seq<nat>, i: nat)
    requires 0 < i < |ids|
    ensures ShareAll(b, voter, ids[1..i + 1]) == ShareLock(ShareAll(b, voter, ids[1..i]), (ids[i], voter))
  {
    assert ids[1..i + 1][..i - 1] == ids[1..i];
  }

  lemma {:induction false} CollectIgnoresLocks(s: Dao, bank: Bank, id: nat, list: seq<Address>, now: nat)
    requires bank.ledger == s.bank.ledger
    ensures Collect(s.(bank := bank), id, list, now) == Collect(s, id, list, now)
    decreases |list|
  {
    if list != [] {
      CollectIgnoresLocks(s, bank, id, list[..|list| - 1], now);
    }
  }
}
