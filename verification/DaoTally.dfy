/** Every tally is the sum of the recorded ballots, whatever order and whichever entry point they came by. */
module DaoTally {
  import opened Arithmetic
  import opened Maps
  import opened Ledger
  import opened DaoDelegation
  import opened DaoBank
  import opened DaoState

  type Votes = map<Ballot, VoteRecord>

  function CastFor(votes: Votes, id: nat, choice: Choice): map<Ballot, int> {
    map k | k in votes && k.0 == id && votes[k].choice == choice :: votes[k].weight
  }

  ghost predicate TallyMatches(votes: Votes, id: nat, p: Proposal) {
    forall choice :: TallyOf(p, choice) == Total(CastFor(votes, id, choice))
  }

  ghost predicate TallySound(proposals: map<nat, Proposal>, votes: Votes) {
    forall id :: id in proposals ==> TallyMatches(votes, id, proposals[id])
  }

  lemma CastForRecorded(votes: Votes, k: Ballot, choice: Choice, weight: int, id: nat, c: Choice)
    requires k !in votes
    ensures Total(CastFor(votes[k := VoteRecord(choice, weight)], id, c))
            == Total(CastFor(votes, id, c)) + if id == k.0 && c == choice then weight else 0
  {
    var recorded := votes[k := VoteRecord(choice, weight)];
    if id == k.0 && c == choice {
      assert CastFor(recorded, id, c) == CastFor(votes, id, c)[k := weight];
      TotalUpdate(CastFor(votes, id, c), k, weight);
    } else {
      assert CastFor(recorded, id, c) == CastFor(votes, id, c);
    }
  }

  lemma RecordVote(proposals: map<nat, Proposal>, votes: Votes, k: Ballot, choice: Choice, weight: int)
    requires TallySound(proposals, votes) && k.0 in proposals && k !in votes
    ensures TallySound(proposals[k.0 := AddVotes(proposals[k.0], choice, weight)], votes[k := VoteRecord(choice, weight)])
  {
    var after, recorded := proposals[k.0 := AddVotes(proposals[k.0], choice, weight)], votes[k := VoteRecord(choice, weight)];
    forall id | id in after ensures TallyMatches(recorded, id, after[id]) {
      assert TallyMatches(votes, id, proposals[id]);
      forall c ensures TallyOf(after[id], c) == Total(CastFor(recorded, id, c)) {
        CastForRecorded(votes, k, choice, weight, id, c);
      }
    }
  }

  ghost predicate SameTallies(p: Proposal, q: Proposal) {
    p.votesFor == q.votesFor && p.votesAgainst == q.votesAgainst && p.votesAbstain == q.votesAbstain
  }

  lemma TallyUntouched(proposals: map<nat, Proposal>, votes: Votes, id: nat, q: Proposal)
    requires TallySound(proposals, votes) && id in proposals && SameTallies(proposals[id], q)
    ensures TallySound(proposals[id := q], votes)
  {
    var after := proposals[id := q];
    forall j | j in after ensures TallyMatches(votes, j, after[j]) {
      assert TallyMatches(votes, j, proposals[j]);
    }
  }

  lemma TallyStarts(proposals: map<nat, Proposal>, votes: Votes, id: nat, q: Proposal)
    requires TallySound(proposals, votes) && (forall k :: k in votes ==> k.0 != id)
    requires q.votesFor == q.votesAgainst == q.votesAbstain == 0
    ensures TallySound(proposals[id := q], votes)
  {
    var after := proposals[id := q];
    forall j | j in after ensures TallyMatches(votes, j, after[j]) {
      if j == id {
        forall c ensures TallyOf(q, c) == Total(CastFor(votes, id, c)) {
          assert CastFor(votes, id, c) == map[];
        }
      } else {
        assert TallyMatches(votes, j, proposals[j]);
      }
    }
  }

  // ----- One voter's ballots -----

  /** The same proposal but for its counts. */
  ghost predicate OnlyCounted(p: Proposal, q: Proposal) {
    q == p.(votesFor := q.votesFor, votesAgainst := q.votesAgainst, votesAbstain := q.votesAbstain)
  }

  /** What casting a voter's ballots on `ids` changes, and what it leaves alone. */
  ghost predicate CastBy(s: Dao, t: Dao, voter: Address, ids: seq<nat>) {
    && t == s.(proposals := t.proposals, votes := t.votes, swept := t.swept)
    && t.proposals.Keys == s.proposals.Keys
    && (forall id :: id in s.proposals ==> OnlyCounted(s.proposals[id], t.proposals[id]))
    && (forall id :: id in s.proposals && id !in ids ==> t.proposals[id] == s.proposals[id])
    && (forall k :: k in t.votes <==> k in s.votes || (k.1 == voter && k.0 in ids))
    && (forall k :: k in s.votes ==> t.votes[k] == s.votes[k])
    && (forall k :: k in t.votes && k !in s.votes ==> t.votes[k].weight > 0)
    && (forall i :: 0 <= i < |ids| ==> ids[i] in s.proposals)
    && s.swept <= t.swept
  }

  lemma {:induction false} CollectMarks(s: Dao, id: nat, delegators: seq<Address>, now: nat)
    ensures s.swept <= Collect(s, id, delegators, now).swept
    ensures forall k :: k in Collect(s, id, delegators, now).swept && k !in s.swept ==> k.0 == id && k.1 in delegators
    decreases |delegators|
  {
    if delegators != [] {
      CollectMarks(s, id, delegators[..|delegators| - 1], now);
    }
  }

  lemma CastOnBy(s: Dao, voter: Address, id: nat, choice: Choice, own: int, now: nat)
    requires TallySound(s.proposals, s.votes) && (id, voter) !in s.votes
    requires CastOn(s, voter, id, choice, own, now).Some?
    ensures var t := CastOn(s, voter, id, choice, own, now).value;
      CastBy(s, t, voter, [id]) && TallySound(t.proposals, t.votes)
  {
    CollectMarks(s, id, DelegatorsOf(s.delegations, voter), now);
    var weight := SatAdd(own, Collect(s, id, DelegatorsOf(s.delegations, voter), now).total);
    RecordVote(s.proposals, s.votes, (id, voter), choice, weight);
  }

  lemma CastByJoins(s: Dao, t: Dao, u: Dao, voter: Address, id: nat, ids: seq<nat>)
    requires CastBy(s, t, voter, [id]) && CastBy(t, u, voter, ids) && (id, voter) !in s.votes
    ensures CastBy(s, u, voter, [id] + ids)
  {
  }

  lemma {:induction false} CastAllBy(s: Dao, voter: Address, ids: seq<nat>, choice: Choice, own: int, now: nat)
    requires TallySound(s.proposals, s.votes) && AllDistinct(ids)
    requires forall i :: 0 <= i < |ids| ==> (ids[i], voter) !in s.votes
    requires CastAll(s, voter, ids, choice, own, now).Some?
    ensures var t := CastAll(s, voter, ids, choice, own, now).value;
      CastBy(s, t, voter, ids) && TallySound(t.proposals, t.votes)
    decreases |ids|
  {
    if ids != [] {
      CastOnBy(s, voter, ids[0], choice, own, now);
      var t, rest := CastOn(s, voter, ids[0], choice, own, now).value, ids[1..];
      forall i | 0 <= i < |rest| ensures (rest[i], voter) !in t.votes {
        assert rest[i] == ids[i + 1];
      }
      CastAllBy(t, voter, rest, choice, own, now);
      CastByJoins(s, t, CastAll(t, voter, rest, choice, own, now).value, voter, ids[0], rest);
      assert [ids[0]] + rest == ids;
    }
  }

  // ----- One pledge for a batch -----

  lemma {:induction false} ShareAllConserves(b: Bank, voter: Address, ids: seq<nat>)
    requires Conserved(b) && AllDistinct(ids)
    requires forall i :: 0 <= i < |ids| ==> (ids[i], voter) !in b.locked
    ensures var c := ShareAll(b, voter, ids);
      && Conserved(c) && c == b.(locked := c.locked)
      && (forall k :: k in c.locked <==> k in b.locked || (k.1 == voter && k.0 in ids))
      && (forall k :: k in c.locked ==> c.locked[k] == LockOf(b, k))
    decreases |ids|
  {
    if ids != [] {
      var before, last := ids[..|ids| - 1], ids[|ids| - 1];
      assert ids == before + [last];
      ShareAllConserves(b, voter, before);
      assert last !in before;
      ShareLockConserves(ShareAll(b, voter, before), (last, voter));
    }
  }
}
