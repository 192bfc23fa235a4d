/** The duplicate check on proposals: when the content-hash index knows every open proposal, and the step
    that makes it forget one. */
module DaoHashIndex {
  import opened Arithmetic
  import opened Ledger
  import opened DaoQuorum
  import opened DaoBank
  import opened DaoDelegation
  import opened DaoState
  import opened DaoTally
  import opened DaoRuns
  import opened DaoEvolution
  import opened DaoOutcomes
  import opened DaoBatchOrder

  /** The index finds every open proposal by its content. */
  ghost predicate Indexed(s: Dao) {
    forall id :: IsOpen(s, id) ==>
      s.proposals[id].action in s.hashes && s.hashes[s.proposals[id].action] == id
  }

  /** Then no two open proposals have the same content. */
  lemma IndexedMeansNoDuplicates(s: Dao, i: nat, j: nat)
    requires Indexed(s) && IsOpen(s, i) && IsOpen(s, j) && s.proposals[i].action == s.proposals[j].action
    ensures i == j
  {
    assert s.hashes[s.proposals[i].action] == i;
  }

  /** Executing past the deadline a proposal whose content was proposed again in the meantime. */
  ghost predicate LateWithSuccessor(s: Dao, op: Op) {
    && op.OpExecute? && ExecutionDue(s, op.id, op.now) && op.now > s.proposals[op.id].deadline
    && s.proposals[op.id].action in s.hashes
  }

  lemma CloseIndexed(s: Dao, id: nat, q: Proposal, refund: Option<int>)
    requires Indexed(s) && IsOpen(s, id) && q.action == s.proposals[id].action
    requires q.status != Discussion && q.status != Active && Close(s, id, q, refund).Some?
    ensures Indexed(Close(s, id, q, refund).value)
  {
    forall j | IsOpen(Close(s, id, q, refund).value, j) ensures s.proposals[j].action != q.action {
      assert IsOpen(s, j);
      if s.proposals[j].action == q.action {
        IndexedMeansNoDuplicates(s, id, j);
      }
    }
  }

  lemma FinalizeIndexed(s: Dao, id: nat, now: nat)
    requires Indexed(s) && Finalize(s, id, now).Some?
    ensures Indexed(Finalize(s, id, now).value)
  {
    var p := s.proposals[id];
    assert Indexed(Count(s, p)) by {
      assert forall j :: IsOpen(Count(s, p), j) ==> IsOpen(s, j);
    }
    if Decide(s, p) {
      CloseIndexed(Count(s, p), id, p.(status := Passed, executionTime := now + s.settings.config.timelock), None);
    } else {
      CloseIndexed(Count(s, p), id, p.(status := Failed), Some(p.deposit));
    }
  }

  lemma {:induction false} FinalizeAllIndexed(s: Dao, ids: seq<nat>, now: nat)
    requires Indexed(s) && FinalizeAll(s, ids, now).Some?
    ensures Indexed(FinalizeAll(s, ids, now).value)
    decreases |ids|
  {
    if ids != [] {
      FinalizeIndexed(s, ids[0], now);
      FinalizeAllIndexed(Finalize(s, ids[0], now).value, ids[1..], now);
    }
  }

  lemma ReclaimIndexed(s: Dao, id: nat, now: nat)
    requires Indexed(s) && Reclaim(s, id, now).Some?
    ensures Indexed(Reclaim(s, id, now).value)
  {
    var p := s.proposals[id];
    assert Indexed(Count(s, p)) by {
      assert forall j :: IsOpen(Count(s, p), j) ==> IsOpen(s, j);
    }
    CloseIndexed(Count(s, p), id, p.(status := Failed), Some(p.deposit));
  }

  lemma CreateIndexed(s: Dao, proposer: Address, d: Draft, now: nat)
    requires Sound(s) && Indexed(s) && Create(s, proposer, d, now).Some?
    ensures Indexed(Create(s, proposer, d, now).value)
  {
    var t := Create(s, proposer, d, now).value;
    assert s.nextId !in s.proposals;
    forall id | IsOpen(t, id) ensures t.hashes[t.proposals[id].action] == id {
      assert id != s.nextId ==> IsOpen(s, id);
    }
  }

  /** Executing removes an index entry only past the deadline, and then it is some other proposal's. */
  lemma ExecuteIndexed(s: Dao, id: nat, now: nat, completion: Option<nat>)
    requires Sound(s) && Indexed(s) && Execute(s, id, now, completion).Some?
    ensures Indexed(Execute(s, id, now, completion).value) <==> !LateWithSuccessor(s, OpExecute(id, now, completion))
  {
    var t, action := Execute(s, id, now, completion).value, s.proposals[id].action;
    assert forall j :: IsOpen(t, j) <==> IsOpen(s, j);
    if LateWithSuccessor(s, OpExecute(id, now, completion)) {
      assert IsOpen(t, s.hashes[action]) && action !in t.hashes;
    }
  }

  /** The same open proposals with the same content, under the same index. */
  lemma SameOpenIndexed(s: Dao, t: Dao)
    requires Indexed(s) && t.hashes == s.hashes
    requires forall id :: IsOpen(t, id) ==> IsOpen(s, id) && t.proposals[id].action == s.proposals[id].action
    ensures Indexed(t)
  {
  }

  lemma VotingIndexed(s: Dao, op: Op)
    requires Sound(s) && FromOutside(op) && Indexed(s) && (op.OpVote? || op.OpVoteBatch?) && Try(s, op).Some?
    ensures Indexed(Try(s, op).value)
  {
    var t := Try(s, op).value;
    StepVotesOnly(s, op);
    forall id | IsOpen(t, id) ensures IsOpen(s, id) && t.proposals[id].action == s.proposals[id].action {
      assert OnlyCounted(s.proposals[id], t.proposals[id]);
    }
    SameOpenIndexed(s, t);
  }

  lemma ClosingIndexed(s: Dao, op: Op)
    requires Indexed(s) && Try(s, op).Some? && (op.OpFinalize? || op.OpFinalizeBatch? || op.OpReclaim? || op.OpCancel?)
    ensures Indexed(Try(s, op).value)
  {
    match op
    case OpFinalize(id, now) => FinalizeIndexed(s, id, now);
    case OpFinalizeBatch(ids, now) => FinalizeAllIndexed(s, ids, now);
    case OpReclaim(id, now) => ReclaimIndexed(s, id, now);
    case OpCancel(id) => CloseIndexed(s, id, s.proposals[id].(status := Cancelled), Some(s.proposals[id].deposit));
  }

  predicate OpensOrCloses(op: Op) {
    op.OpCreate? || op.OpFinalize? || op.OpFinalizeBatch? || op.OpReclaim? || op.OpCancel? || op.OpExecute?
  }

  lemma QuietIndexed(s: Dao, op: Op)
    requires Indexed(s) && Try(s, op).Some? && !OpensOrCloses(op) && !op.OpVote? && !op.OpVoteBatch?
    ensures Indexed(Try(s, op).value)
  {
    SameOpenIndexed(s, Try(s, op).value);
  }

  /** The index stays complete under every operation except one, and that one always breaks it: a late
      execution clears the entry by content, which by then belongs to the newer proposal. */
  lemma StaysIndexed(s: Dao, op: Op)
    requires Sound(s) && FromOutside(op) && Indexed(s)
    ensures Indexed(Step(s, op)) <==> !LateWithSuccessor(s, op)
  {
    if op.OpExecute? {
      if Try(s, op).Some? {
        ExecuteIndexed(s, op.id, op.now, op.completion);
      }
    } else if Try(s, op).Some? {
      if op.OpCreate? {
        CreateIndexed(s, op.proposer, op.draft, op.now);
      } else if op.OpVote? || op.OpVoteBatch? {
        VotingIndexed(s, op);
      } else if OpensOrCloses(op) {
        ClosingIndexed(s, op);
      } else {
        QuietIndexed(s, op);
      }
    }
  }

  /** After that step the same action can be proposed once more while the newer proposal is still open. */
  lemma DuplicateSlipsThrough(s: Dao, op: Op, proposer: Address, d: Draft, now: nat)
    requires Sound(s) && Indexed(s) && LateWithSuccessor(s, op) && proposer != SELF
    requires d.action == s.proposals[op.id].action && Create(Step(s, op), proposer, d, now).Some?
    ensures Create(s, proposer, d, now).None?
    ensures var t, open := Create(Step(s, op), proposer, d, now).value, s.hashes[d.action];
      && IsOpen(t, open) && IsOpen(t, s.nextId) && open != s.nextId
      && t.proposals[open].action == t.proposals[s.nextId].action == d.action
  {
  }

  // ----- Over runs -----

  /** The index was complete all along. */
  ghost predicate AlwaysIndexed(s: Dao, ops: seq<Op>) {
    Indexed(Run(s, ops)) && (ops != [] ==> AlwaysIndexed(s, ops[..|ops| - 1]))
  }

  /** No step executed late a proposal with a successor. */
  ghost predicate NeverLate(s: Dao, ops: seq<Op>) {
    ops != [] ==> NeverLate(s, ops[..|ops| - 1]) && !LateWithSuccessor(Run(s, ops[..|ops| - 1]), ops[|ops| - 1])
  }

  /** From deployment the index stays complete exactly in the runs without such a step. */
  lemma {:induction false} IndexedExactly(config: Config, ledger: map<Address, int>, ops: seq<Op>)
    requires Deployable(config, ledger) && forall i :: 0 <= i < |ops| ==> FromOutside(ops[i])
    ensures AlwaysIndexed(Deployed(config, ledger), ops) <==> NeverLate(Deployed(config, ledger), ops)
  {
    if ops != [] {
      var init := ops[..|ops| - 1];
      IndexedExactly(config, ledger, init);
      if AlwaysIndexed(Deployed(config, ledger), init) {
        AlwaysEnds(Deployed(config, ledger), init);
        ReachableSound(config, ledger, init);
        StaysIndexed(Run(Deployed(config, ledger), init), ops[|ops| - 1]);
      }
    }
  }

  lemma AlwaysEnds(s: Dao, ops: seq<Op>)
    requires AlwaysIndexed(s, ops)
    ensures Indexed(Run(s, ops))
  {
  }

  /** A proposal passes unanimously, the same content is proposed again, and the first one is executed a week
      late. */
  function Successor(): seq<Op> {
    [OpCreate(7, QUIET, 0), OpVote(8, 0, For, 0), OpFinalize(0, 10_000), OpCreate(7, QUIET, 20_000)]
  }

  lemma Unanimous(s: Dao)
    requires s.settings == Opened(10_000).settings && s.history == NO_HISTORY
    ensures Decide(s, Voted(0, 10_000))
  {
    assert QuorumNow(s).quorumBps == MAX_QUORUM_BPS;
    BusyPasses(10_000, MAX_QUORUM_BPS, 0);
  }

  lemma FirstFinalized(s: Dao)
    requires 0 in s.proposals && s.proposals[0] == Voted(0, 10_000) && s.settings.config.timelock == 0
    requires Decide(s, s.proposals[0])
    ensures Finalize(s, 0, 10_000).Some?
    ensures var t := Finalize(s, 0, 10_000).value;
      && t.proposals == s.proposals[0 := Voted(0, 10_000).(status := Passed, executionTime := 10_000)]
      && t.settings == s.settings && t.nextId == s.nextId && t.bank == s.bank && t.hashes == s.hashes - {QUIET.action}
  {
  }

  lemma SuccessorCreated(s: Dao, t: Dao)
    requires s.proposals == map[0 := Voted(0, 10_000).(status := Passed, executionTime := 10_000)] && s.nextId == 1
    requires s.settings == Opened(10_000).settings && QUIET.action !in s.hashes && Balance(s.bank.ledger, 7) >= 0
    requires t == Step(s, OpCreate(7, QUIET, 20_000))
    ensures t.proposals.Keys == {0, 1} && t.proposals[0] == s.proposals[0]
    ensures IsOpen(t, 1) && t.proposals[1].action == QUIET.action && QUIET.action in t.hashes
  {
    assert Threshold(s.settings, QUIET.kind, QUIET.action.target) == 0;
    assert Create(s, 7, QUIET, 20_000).Some?;
  }

  lemma FirstCreated(s: Dao)
    requires s == Step(Opened(10_000), OpCreate(7, QUIET, 0))
    ensures s.proposals == map[0 := Voted(0, 0)] && s.nextId == 1 && s.hashes == map[QUIET.action := 0]
    ensures s.settings == Opened(10_000).settings && s.history == NO_HISTORY
    ensures s.votes == map[] && s.swept == {} && s.delegations == Delegations(map[], map[]) && s.checkpoints == map[]
    ensures Balance(s.bank.ledger, 8) == 10_000 && Balance(s.bank.ledger, 7) == 0
  {
    assert Create(Opened(10_000), 7, QUIET, 0).Some?;
  }

  lemma FirstVoted(s: Dao, t: Dao)
    requires s.proposals == map[0 := Voted(0, 0)] && s.settings == Opened(10_000).settings
    requires s.votes == map[] && s.swept == {} && s.delegations == Delegations(map[], map[]) && s.checkpoints == map[]
    requires Balance(s.bank.ledger, 8) == 10_000
    requires t == Step(s, OpVote(8, 0, For, 0))
    ensures t.proposals == map[0 := Voted(0, 10_000)]
    ensures t.settings == s.settings && t.nextId == s.nextId && t.hashes == s.hashes && t.history == s.history
    ensures Balance(t.bank.ledger, 7) == Balance(s.bank.ledger, 7)
  {
    assert Pledge(s, 8) == 10_000 && Power(s, 8, 10_000, 0) == 10_000;
    assert DelegatorsOf(s.delegations, 8) == [];
    assert CastOn(s, 8, 0, For, 10_000, 0).Some?;
  }

  lemma SuccessorRuns(d: Dao)
    ensures Run(d, Successor()) ==
            Step(Step(Step(Step(d, OpCreate(7, QUIET, 0)), OpVote(8, 0, For, 0)), OpFinalize(0, 10_000)), OpCreate(7, QUIET, 20_000))
  {
    var one := [OpCreate(7, QUIET, 0)];
    var two := one + [OpVote(8, 0, For, 0)];
    var three := two + [OpFinalize(0, 10_000)];
    assert one == [] + one && Successor() == three + [OpCreate(7, QUIET, 20_000)];
    RunSnoc(d, [], OpCreate(7, QUIET, 0));
    RunSnoc(d, one, OpVote(8, 0, For, 0));
    RunSnoc(d, two, OpFinalize(0, 10_000));
    RunSnoc(d, three, OpCreate(7, QUIET, 20_000));
  }

  /** Proposal 0 passed, and proposal 1 has its content. */
  ghost predicate Succeeded(s: Dao) {
    && s.proposals.Keys == {0, 1} && s.proposals[0] == Voted(0, 10_000).(status := Passed, executionTime := 10_000)
    && IsOpen(s, 1) && s.proposals[1].action == QUIET.action && QUIET.action in s.hashes
  }

  lemma FirstElected(s: Dao)
    requires s == Step(Step(Opened(10_000), OpCreate(7, QUIET, 0)), OpVote(8, 0, For, 0))
    ensures s.proposals == map[0 := Voted(0, 10_000)] && s.nextId == 1 && s.hashes == map[QUIET.action := 0]
    ensures s.settings == Opened(10_000).settings && s.history == NO_HISTORY && Balance(s.bank.ledger, 7) == 0
  {
    var created := Step(Opened(10_000), OpCreate(7, QUIET, 0));
    FirstCreated(created);
    FirstVoted(created, s);
  }

  lemma FirstSettled(s: Dao)
    requires s.proposals == map[0 := Voted(0, 10_000)] && s.nextId == 1 && s.hashes == map[QUIET.action := 0]
    requires s.settings == Opened(10_000).settings && s.history == NO_HISTORY && Balance(s.bank.ledger, 7) == 0
    ensures var t := Step(s, OpFinalize(0, 10_000));
      && t.proposals == map[0 := Voted(0, 10_000).(status := Passed, executionTime := 10_000)] && t.nextId == 1
      && t.settings == Opened(10_000).settings && QUIET.action !in t.hashes && Balance(t.bank.ledger, 7) >= 0
  {
    Unanimous(s);
    FirstFinalized(s);
    FinalizeStep(s, 0, 10_000);
  }

  lemma FinalizeStep(s: Dao, id: nat, now: nat)
    requires Finalize(s, id, now).Some?
    ensures Step(s, OpFinalize(id, now)) == Finalize(s, id, now).value
  {
  }

  lemma SucceededIsLate(s: Dao, completion: Option<nat>)
    requires Succeeded(s)
    ensures LateWithSuccessor(s, OpExecute(0, 700_000, completion)) && IsOpen(s, 1) && s.proposals[1].action == s.proposals[0].action
  {
  }

  lemma SuccessorAllowed()
    ensures Deployable(OPENING, map[8 := 10_000]) && forall i :: 0 <= i < |Successor()| ==> FromOutside(Successor()[i])
  {
  }

  lemma SuccessorSucceeds()
    ensures Succeeded(Run(Opened(10_000), Successor()))
  {
    var a := Step(Opened(10_000), OpCreate(7, QUIET, 0));
    var b := Step(a, OpVote(8, 0, For, 0));
    var c := Step(b, OpFinalize(0, 10_000));
    SuccessorRuns(Opened(10_000));
    FirstElected(b);
    FirstSettled(b);
    SuccessorCreated(c, Step(c, OpCreate(7, QUIET, 20_000)));
  }

  /** Such a step can be reached: after this run executing proposal 0 clears the entry of proposal 1. */
  lemma LateReached(completion: Option<nat>)
    ensures Deployable(OPENING, map[8 := 10_000]) && forall i :: 0 <= i < |Successor()| ==> FromOutside(Successor()[i])
    ensures var s := Run(Opened(10_000), Successor());
      LateWithSuccessor(s, OpExecute(0, 700_000, completion)) && IsOpen(s, 1) && s.proposals[1].action == s.proposals[0].action
  {
    SuccessorAllowed();
    SuccessorSucceeds();
    SucceededIsLate(Run(Opened(10_000), Successor()), completion);
  }
}
