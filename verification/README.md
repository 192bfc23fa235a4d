# Parashield contracts: a verified model

This project models four contracts of a parametric insurance protocol in Dafny and proves what they
promise: the oracle consensus that decides every payout, the governance DAO, and the settlement of claims by
the claims processor on top of the policy engine. Of the risk pool it models the capital locks, on which
payouts depend.

`dafny verify dfyconfig.toml` checks everything.

## How it is built

A panic of a contract rolls back the whole call. So each entry point is first a function from a state to an
optional state, where `None` is an abort. Runs are folds of operations in which an aborted one changes nothing.
Properties of these functions are lemmas: what every operation keeps, what holds over every run, and when
exactly an operation goes through. Beside each specification stands the contract itself as a class, with its
storage as fields, its loops as loops and its stack arrays as arrays; every method is proved to do what the
specification says, and to leave everything as it was when it returns false. Ghost fields hold history that
properties speak about: totals since deployment, deposits still held, transfers out, confirmed policies.

| part | specification and properties | contract |
|---|---|---|
| arithmetic, collections, ledger | `Arithmetic`, `Sequences`, `Maps`, `Ledger` | |
| oracle consensus | `WeightedMedian`, `Averages`, `TimeWeighting`, `OutlierFilter`, `FilterReference`, `TimedSurvivors`, `Consensus`, `Eligibility`, `ConsensusOrder`, `ConsensusRuns`, `Reporting`, `AverageReporting`, `OverflowTogether` | `OutlierRejection`, `OracleVerifier` |
| oracle storage | `OracleRegistry`, `OracleVault`, `OracleState`, `OracleRuns`, `OracleHistory`, `OracleAdmission`, `BatchEffects` | `OracleVerifier` |
| governance | `DaoQuorum`, `DaoDelegation`, `DaoBank`, `DaoState`, `DaoTally`, `DaoRuns`, `DaoEvolution`, `DaoOutcomes`, `DaoBatchOrder`, `DaoVoting`, `DaoLocking`, `DaoAdmission`, `DaoRecords`, `DaoHashIndex` | `GovernanceDao` |
| settlement | `Policies`, `PolicyOutcomes`, `Settlement`, `SettlementAdmission`, `SettlementRuns`, `SettlementOutcomes`, `SettlementLocks`, `DelayedPayouts`, `QueueSort`, `Installments` | `PolicyEngine`, `CapitalLocks`, `ClaimsProcessor` |

Signed division truncates toward zero (`Arithmetic.TruncDiv`), saturating and checked operations are written
out, and plain `+` on fixed-width integers aborts on overflow, as the release profile asks for.

## Where code and documentation disagree

The model follows the code. Each of these names the input that fails and the exact condition where there is one.

- Abstentions do not count toward quorum (`contracts/governance-dao/src/lib.rs:1174-1206`), although the
  comment above `finalize` says that they do: `DaoOutcomes.FinalizeDecidesExactly`.
- The median is not always a reported value (`WeightedMedian.MedianNotReported`), but exactly when the two medians
  are neighbours: `WeightedMedian.ReportedExactly`. The minority claim holds all the same, with one half as the
  exact limit: `WeightedMedian.BreakdownPoint`.
- The reported median can differ from the deciding one, because only the latter weighs by reputation
  (`contracts/oracle-verifier/src/lib.rs:2927-2930`): `Reporting.DisagreementReached`. By the default method without
  outlier filter they agree on all values exactly when both weightings have the same majorities:
  `OverflowTogether.MedianAgreesExactly`. By the weighted average without filter they agree on all values in the range
  of `submit_data` exactly when every oracle has the same share of both: `AverageReporting.AverageAgreesExactly`.
- The averages depend on the order in which readings arrive for values large enough to saturate, which only
  `submit_data_batch` admits: `ConsensusRuns.SaturationDecides`, exactly `Averages.MeanOrderFreeExactly`. The
  time-weighted average depends on it for readings of the same second (`ConsensusRuns.SameSecondDecides`) and for equal
  readings of which the filter drops some (`ConsensusRuns.SplitReadingsDecide`), exactly
  `TimedSurvivors.OneArrangementExactly`.
- The time-weighted average leaves the range of the reported values where value times weighted duration exceeds i128,
  exactly `TimeWeighting.HullExactly`.
- Removing an oracle a second time frees its global mark: `OracleRegistry.SameOracleTwice`, exactly
  `OracleRuns.UniqueExactly`.
- An override of a reputation score lasts until the next accuracy report only: `OracleHistory.ScoreAfterReport`.
- A recorded checkpoint amount was held since its start time except within one ledger second:
  `DaoQuorum.SameLedgerCheckpoints`, exactly `DaoQuorum.HeldSinceExactly`.
- In a batch vote only the first proposal holds the tokens: `DaoVoting.BatchLockFollowsFirst`. Locking keeps tokens
  from voting twice on a proposal as long as no vote on it counts delegated weight and no batch names it after its first
  entry: `DaoLocking.NoTokenVotesTwice`. Each of the two breaks it (`DaoLocking.DelegationCountsTwice`,
  `DaoLocking.BatchCountsTwice`), and without time weighting that is the exact condition: `DaoLocking.VotesTwiceExactly`.
- The order of a batch of settlements can decide it: `DaoBatchOrder.BatchOrderMatters`, exactly
  `DaoBatchOrder.OrderFreeExactly`.
- A late execution clears the duplicate entry of a newer proposal: `DaoHashIndex.LateReached`, exactly
  `DaoHashIndex.StaysIndexed`.
- A payout delay is meant as a window to stop a payment, but nothing done to the claim in that window stops it:
  `DelayedPayouts.OnlyThePolicyStopsPayout`.
- A partially paid claim pays the whole coverage: `SettlementOutcomes.ClaimPayoutExact` and `SettleExact`.
- Installments can be scheduled in a row but only one collection per policy succeeds, because each releases the
  policy's capital lock, which is released once: `SettlementLocks.OneSuccessPerPolicy`. Collecting before a delayed
  payout forfeits the payout: `SettlementLocks.CollectionForfeitsPayout`.
- A collection is commented as a transfer from the risk pool (`contracts/claims-processor/src/lib.rs:1530`), but the
  release it calls (`contracts/risk-pool/src/lib.rs:1456-1478`) moves no token. The amount is only reported to the caller:
  policies, ledger and outflows stay as they are, `SettlementLocks.CollectionExact`.
- The content hash is said to identify the action (`contracts/governance-dao/src/lib.rs:2762-2765`), but it hashes
  `Val::get_payload()` of each argument, which for an object argument is a host handle and not the content.

## Assumptions

- The governance, stake and premium tokens do not change. A transfer moves a non-negative covered amount or aborts.
  The supply of the governance token fits i128, as the configured `total_supply` does; only
  `DaoLocking.VotesTwiceExactly` needs it. Every product is priced in the token that claims are paid in.
- No contract signs for its own account: `FromOutside` in each run.
- Oracle verdicts, whether the risk pool has room for a new capital lock, the result of an executed proposal's target,
  and the cross-validation of a reading against other feeds are parameters of the operations. A target does not move
  the DAO's tokens.
- Arguments of a proposed action are small values, whose payload is the value; for these a content hash identifies its
  content. Duplicates among actions with object arguments are not modelled.
- Library sorts are a function whose result is proved to be the sorted permutation; the time-weighted results are
  stated for every time-ordered arrangement, since that sort is unstable.

## Model

| member | source | states |
|---|---|---|
| `Arithmetic.TruncDivExactly` | contracts/oracle-verifier/src/lib.rs:4015-4033 | the quotient is the one whose remainder is smaller than the divisor and has the sign of the dividend |
| `Arithmetic.SaturatesExactly` | contracts/oracle-verifier/src/lib.rs:4005-4033 | saturating sums and products are exact within i128 and stop at its nearer end |
| `WeightedMedian.ComputeWeightedMedian` | contracts/oracle-verifier/src/lib.rs:3962-3991 | the sorted cumulative scan returns the weighted median of an independent definition: the midpoint, truncated toward zero, of the lower and the upper weighted median; it aborts exactly when the sum of the two readings that meet at half overflows |
| `WeightedMedian.MiddleOfSorted` | contracts/oracle-verifier/src/lib.rs:3977-3990 | the scan over the sorted slice, exact-half branch included, meets that definition |
| `WeightedMedian.WeightedMedianUnique` | contracts/oracle-verifier/src/lib.rs:3962-3991 | the definition names at most one value, so the result is a function of the submissions |
| `WeightedMedian.TrueMedian` | contracts/oracle-verifier/src/lib.rs:3957-3991 | at most half of the weight lies strictly below the result and at most half strictly above, the averaged case included |
| `WeightedMedian.MajorityPinsMedian` | contracts/oracle-verifier/src/lib.rs:3957-3961 | readings in [lo, hi] with more than half of the weight pin the result into [lo, hi] whatever the rest report |
| `WeightedMedian.BreakdownPoint` | contracts/oracle-verifier/src/lib.rs:3957-3961 | the honest range withstands every report of the others if and only if the others carry strictly less weight; this is the exact form of "a minority cannot move the result" |
| `WeightedMedian.MajorityMoves` | contracts/oracle-verifier/src/lib.rs:3977-3990 | at half of the weight or more the others can push the result above the honest range |
| `WeightedMedian.MedianOfPermutation` | contracts/oracle-verifier/src/lib.rs:3962-3971 | the median does not depend on the order in which readings are stored |
| `WeightedMedian.ReportedExactly` | contracts/oracle-verifier/src/lib.rs:3959-3991 | the result is a value somebody reported if and only if the lower and the upper median differ by at most one; both are reported and nothing between them is |
| `WeightedMedian.MedianNotReported` | contracts/oracle-verifier/src/lib.rs:3959-3991 | two readings whose median nobody reported |
| `Averages.ComputeMean` | contracts/oracle-verifier/src/lib.rs:4017-4033 | the saturating loop and the final truncating division compute the accumulator form that the order and hull results are about |
| `Averages.ComputeWeightedAverage` | contracts/oracle-verifier/src/lib.rs:4005-4015 | the same for the weighted average, with its saturating products |
| `Averages.AccumulatorOrderIndependent` | contracts/oracle-verifier/src/lib.rs:4005-4033 | the saturating sum behind both averages depends only on the multiset of its terms if and only if it cannot saturate on terms of mixed sign |
| `Averages.AveragesExact` | contracts/oracle-verifier/src/lib.rs:4005-4033 | under the value, weight and count limits nothing saturates: both averages are the exact truncated quotients and lie between the least and the greatest value |
| `Averages.MeanOfPermutation` | contracts/oracle-verifier/src/lib.rs:4017-4033 | two orders of the same readings have the same mean whenever adding the positive values first and last gives the same quotient |
| `Averages.WeightedAverageOfPermutation` | contracts/oracle-verifier/src/lib.rs:4005-4015 | the same for the weighted average and its products |
| `Averages.MeanOrderMatters` | contracts/oracle-verifier/src/lib.rs:3200-3320 | for values that `submit_data_batch` admits unchecked, three readings in two orders have different means |
| `Averages.TotalBetween` | contracts/oracle-verifier/src/lib.rs:4005-4033 | in every order the saturating total lies between positives first and negatives first |
| `Averages.MeanOrderFreeExactly` | contracts/oracle-verifier/src/lib.rs:4017-4033 | the mean depends only on the multiset of readings if and only if these two totals have the same quotient |
| `Averages.WeightedAverageOrderFreeExactly` | contracts/oracle-verifier/src/lib.rs:4005-4015 | the same for the weighted average |
| `Averages.SteadyThoughSaturating` | contracts/oracle-verifier/src/lib.rs:4017-4033 | readings whose sum depends on the order and whose mean does not |
| `TimeWeighting.TimeAverageFormula` | contracts/oracle-verifier/src/lib.rs:4062-4078 | the average is the truncated quotient of the sum of value x weight x seconds held and the sum of weight x seconds held, both spelled out, within the stated limit |
| `TimeWeighting.TimeWeightedExactly` | contracts/oracle-verifier/src/lib.rs:4043-4080 | readings in storage order have an arrangement by time of which their average is that quotient |
| `TimeWeighting.ComputeTimeWeighted` | contracts/oracle-verifier/src/lib.rs:4043-4080 | the loop over the readings in a time order computes the average of which `TimeWeighting.TimeWeightedExactly` says what it is |
| `TimeWeighting.TimeAverageHull` | contracts/oracle-verifier/src/lib.rs:4043-4080 | as long as the largest value times the total weighted duration fits i128, nothing saturates and the result lies between the least and the greatest value, in whichever order the readings stand |
| `TimeWeighting.HullExactly` | contracts/oracle-verifier/src/lib.rs:4066-4078 | this limit is exact: the result stays between the least and the greatest value for all values up to a bound if and only if the bound times the total weighted duration fits i128 |
| `TimeWeighting.TimeOrderExactly` | contracts/oracle-verifier/src/lib.rs:4062-4063 | the time order of a set of readings is one sequence if and only if readings of the same second agree |
| `TimedSurvivors.SurvivorsSettledExactly` | contracts/oracle-verifier/src/lib.rs:3778-3820 | which readings survive with which times is the same for every storage order if and only if the cut never separates equal readings of different times |
| `TimedSurvivors.OneArrangementExactly` | contracts/oracle-verifier/src/lib.rs:4043-4063 | what the time-weighted average is computed from is independent of storage order and of how the sort leaves ties if and only if the cut is clean in that sense and survivors of the same second agree |
| `OutlierRejection.FilterOutliers` | contracts/oracle-verifier/src/lib.rs:3726-3821 | the in-place rejection leaves exactly the survivors of the mask that `FilterReference.FilterByCounting` is about, in order, each value still beside its timestamp, and aborts exactly when a plain sum or difference leaves i128 |
| `OutlierRejection.ComputeCenter` | contracts/oracle-verifier/src/lib.rs:3738-3748 | the sorted buffer yields the middle of the values by counting, or an abort exactly when the midpoint of the middle two overflows |
| `OutlierRejection.ComputeMad` | contracts/oracle-verifier/src/lib.rs:3750-3760 | it yields the middle of the distances by counting, or an abort exactly when a distance or their midpoint overflows |
| `OutlierRejection.ComputeOrder` | contracts/oracle-verifier/src/lib.rs:3778-3790 | the ranking lists every index once, by falling deviation, ties by value and then weight |
| `OutlierRejection.FlagOutliers` | contracts/oracle-verifier/src/lib.rs:3792-3807 | flagging from the worst deviation down stops exactly at the cut of the ranking |
| `OutlierRejection.Compact` | contracts/oracle-verifier/src/lib.rs:3812-3820 | compaction in place keeps the unflagged entries of both arrays, in order |
| `FilterReference.MiddleExactly` | contracts/oracle-verifier/src/lib.rs:3741-3748 | the middle of a sorted buffer is the midpoint of a lower and an upper middle value defined by counting, and nothing else is |
| `FilterReference.OddMiddle` | contracts/oracle-verifier/src/lib.rs:3744-3748 | for an odd number of values both are one value |
| `FilterReference.CenterExactly` | contracts/oracle-verifier/src/lib.rs:3738-3748 | the centre is the one midpoint, truncated toward zero, of a lower and an upper middle value singled out by counting: at most half of the values lie below and above each |
| `FilterReference.MadExactly` | contracts/oracle-verifier/src/lib.rs:3750-3760 | the MAD is the same of the distances from the centre, and nothing else is |
| `FilterReference.FilterByCounting` | contracts/oracle-verifier/src/lib.rs:3726-3821 | with these two, and the threshold test written out as a product: disabled or on too small a sample nothing is rejected; otherwise whatever is rejected is far and was farthest, the minimum sample stays, and a far reading stays only when exactly the minimum does |
| `FilterReference.FilterFitsExactly` | contracts/oracle-verifier/src/lib.rs:3738-3760 | it aborts exactly when it applies and a midpoint or a distance leaves i128 |
| `OutlierFilter.HalfSurvive` | contracts/oracle-verifier/src/lib.rs:3733-3821 | with a threshold of at least one MAD at least half of the readings survive |
| `OutlierFilter.SurvivorsOfPermutation` | contracts/oracle-verifier/src/lib.rs:3726-3821 | two storage orders of the same readings leave the same multiset of survivors |
| `OutlierFilter.SurvivingValues` | contracts/oracle-verifier/src/lib.rs:3733-3821 | which values survive depends on the values alone, not on weights or order |
| `OutlierFilter.FitsByValues` | contracts/oracle-verifier/src/lib.rs:3738-3760 | whether the filter overflows depends on the reported values alone |
| `Consensus.DecisionWithinHull` | contracts/oracle-verifier/src/lib.rs:3883-3954 | in every sound state the decided value lies between the least and the greatest eligible value |
| `Eligibility.DisregardedPlayNoPart` | contracts/oracle-verifier/src/lib.rs:3896-3930 | a reading too old, below the minimum confidence, of an oracle unregistered or inactive, or of one silent too long can be added, removed or replaced by another such one without changing decision or report |
| `Eligibility.OthersAreWeighed` | contracts/oracle-verifier/src/lib.rs:3896-3930 | every other reading among the first hundred is weighed |
| `Eligibility.DecisionExactly` | contracts/oracle-verifier/src/lib.rs:3883-3954 | a decision in stored fields: too few readings left after the rejection, or what the configured method makes of those left, weighed by registered weight x score / 1000 and at least 1 |
| `Eligibility.ReportExactly` | contracts/oracle-verifier/src/lib.rs:2886-2942 | a report is the same of registered weights |
| `ConsensusOrder.DecisionIgnoresOrder` | contracts/oracle-verifier/src/lib.rs:3883-3954 | for any two orders of the stored points the decision is the same, by every method: for the median always, for the averages when the survivors have a steady quotient, for TimeWeightedAverage when the cut is clean and survivors of the same second agree |
| `ConsensusOrder.GuardedIsOrderSafe` | contracts/oracle-verifier/src/lib.rs:3883-3954 | this is so for values in the submission range, and for TimeWeightedAverage when equal times mean equal readings and equal readings mean equal times or the filter does not apply |
| `ConsensusRuns.SplitReadingsDecide` | contracts/oracle-verifier/src/lib.rs:3778-3820 | five registrations and five submissions at five different times that TimeWeightedAverage decides as 8, and as 7 when the first two arrive in the other order |
| `ConsensusRuns.SameSecondDecides` | contracts/oracle-verifier/src/lib.rs:4043-4080 | two readings of the same second, decided as 90 or as 9 by which arrived first |
| `ConsensusRuns.SaturationDecides` | contracts/oracle-verifier/src/lib.rs:3200-3320 | three readings beyond the range of `submit_data`, submitted in batches, whose mean depends on the order of arrival |
| `Reporting.ReportEqualsDecision` | contracts/oracle-verifier/src/lib.rs:2886-2942 | reported and decided value agree for every method when all eligible oracles have full reputation |
| `Reporting.MeanReportEqualsDecision` | contracts/oracle-verifier/src/lib.rs:2886-2942 | for Mean they agree whatever the reputations, outlier filter included, for guarded values and wherever the order of the survivors cannot change their mean |
| `Reporting.SameMediansExactly` | contracts/oracle-verifier/src/lib.rs:3962-3991 | two weightings of the same oracles have the same median for all reported values if and only if they give the same sets of oracles a majority and split in half for the same sets |
| `OverflowTogether.MedianAgreesExactly` | contracts/oracle-verifier/src/lib.rs:2886-2942 | by the default method without filter, reported and decided value agree, aborts included, for all values the eligible oracles may report if and only if registered and reputation-adjusted weights give the same sets a majority and split in half for the same sets |
| `OverflowTogether.OverflowAlike` | contracts/oracle-verifier/src/lib.rs:3977-3990 | weightings with the same majorities overflow in the midpoint on the same values, because the same two values meet at half |
| `AverageReporting.AverageAgreesExactly` | contracts/oracle-verifier/src/lib.rs:2886-2942 | by the weighted average without filter, reported and decided value agree for all values within the submission range if and only if every oracle has the same share of both total weights |
| `Reporting.ReportCanDisagree` | contracts/oracle-verifier/src/lib.rs:2927-2930 | a state in which the reported median differs from the decided one, against the comment that it never can |
| `Reporting.DisagreementReached` | contracts/oracle-verifier/src/lib.rs:2886-2942 | six calls from deployment after which 20 is reported and 10 decides |
| `OracleRegistry.DeactivateKeepsUnique` | contracts/oracle-verifier/src/lib.rs:3531-3558 | removing an oracle keeps "one data type per address" exactly when it does not free the mark of an oracle still active elsewhere |
| `OracleRegistry.AddKeepsUnique` | contracts/oracle-verifier/src/lib.rs:311-405 | registration keeps it always |
| `OracleRegistry.SameOracleTwice` | contracts/oracle-verifier/src/lib.rs:447-455 | a reachable run after which one address is active for two data types |
| `OracleRuns.UniqueExactly` | contracts/oracle-verifier/src/lib.rs:447-455 | from deployment an address stays active for one data type at most in exactly the runs that never remove an inactive entry of an address active elsewhere |
| `OracleRegistry.UpdateWeightConsistent` | contracts/oracle-verifier/src/lib.rs:419-444 | a weight update keeps the list exactly the active oracles and every weight within 1 to 100000 |
| `OracleRegistry.AddConsistent` | contracts/oracle-verifier/src/lib.rs:311-405 | after registration the list is still exactly the active oracles, without repetition, at most ten |
| `OracleRegistry.PruneConsistent` | contracts/oracle-verifier/src/lib.rs:3531-3558 | the same after pruning |
| `OracleVault.WithdrawalExact` | contracts/oracle-verifier/src/lib.rs:1763-1821 | a withdrawal goes through exactly when its guards hold, never for want of tokens, at or after the unlock time, and pays the smaller of the stake and the requested amount less admin slashes since |
| `OracleVault.SlashExact` | contracts/oracle-verifier/src/lib.rs:1828-1859 | a slash goes through exactly when there is something to slash and takes no more than the stake |
| `OracleVault.DepositExact` | contracts/oracle-verifier/src/lib.rs:1474-1508 | a deposit goes through exactly when positive and covered; exactly that amount leaves the owner, reaches the contract and is added to the stake and its total, and nothing else changes |
| `OracleVault.StaleSlashExact` | contracts/oracle-verifier/src/lib.rs:2087-2113 | the automatic penalty never fails, takes from the stake alone and leaves requests as they are |
| `OracleVault.RequestExact` | contracts/oracle-verifier/src/lib.rs:1696-1760 | one request at a time, for the whole stake; taking it back needs one |
| `OracleVault.StakeCovered` | contracts/oracle-verifier/src/lib.rs:1474-1508 | every stake is covered by the contract balance |
| `OracleVault.WithdrawConserves` | contracts/oracle-verifier/src/lib.rs:1763-1821 | deposited = staked + withdrawn + slashed for every stake, and the balance covers all stakes: kept by withdrawal |
| `OracleVault.SlashConserves` | contracts/oracle-verifier/src/lib.rs:1828-1859 | the same, kept by a slash, with the pending request shrinking by what was taken |
| `OracleVault.DepositConserves` | contracts/oracle-verifier/src/lib.rs:1474-1508 | the same, kept by a deposit |
| `OracleVault.StaleSlashConserves` | contracts/oracle-verifier/src/lib.rs:2087-2113 | the same, kept by the automatic penalty |
| `OracleRuns.ReachableSound` | contracts/oracle-verifier/src/lib.rs:311-3880 | in every reachable state, over all ways of registering, staking, slashing and submitting (single, both batches, encrypted): stake conservation, exact oracle lists, at most one point per oracle carrying its last timestamp, reputation within 1000 |
| `OracleRuns.RoomForOneMore` | contracts/oracle-verifier/src/lib.rs:3839-3880 | the retained points always leave room, so the eviction at the point limit drops nothing |
| `OracleRuns.EffectiveWeightBounded` | contracts/oracle-verifier/src/lib.rs:3416-3428 | the effective weight lies in [1, registered weight] and equals it at full reputation |
| `OracleRuns.RunAdvances` | contracts/oracle-verifier/src/lib.rs:3468-3507 | over any run each oracle's last reading timestamp only grows and registrations only accumulate |
| `OracleRuns.SubmitStores` | contracts/oracle-verifier/src/lib.rs:3839-3880 | an accepted fresh reading becomes the newest point of its stream, beside exactly the other oracles' fresh and active points |
| `OracleRuns.ReplayRejected` | contracts/oracle-verifier/src/lib.rs:3468-3489 | no later run accepts a reading as old as one accepted before from the same oracle, alone or inside a batch of either kind |
| `OracleRuns.RegistrationIsFinal` | contracts/oracle-verifier/src/lib.rs:311-330 | an address once registered for a data type can never be added to it again |
| `OracleAdmission.AddExact` | contracts/oracle-verifier/src/lib.rs:311-405 | registration goes through exactly with a weight of 1 to 100000 for an address unknown everywhere, room for a tenth oracle and a required stake; what it writes |
| `OracleAdmission.RegistryExact` | contracts/oracle-verifier/src/lib.rs:419-455 | the same for a new weight and for removal |
| `OracleAdmission.StakeRequestsExact` | contracts/oracle-verifier/src/lib.rs:1696-1821 | a stake is requested and paid back only while its oracle does not serve, after the challenge period |
| `OracleAdmission.SlashOracleExact` | contracts/oracle-verifier/src/lib.rs:1828-1910 | a slash takes an oracle below a required minimum out of service and no other |
| `OracleAdmission.StaleExact` | contracts/oracle-verifier/src/lib.rs:2038-2157 | every stale submission is counted, and from the threshold on stake and score shrink by the configured amounts as far as they reach |
| `OracleAdmission.SetReputationExact` | contracts/oracle-verifier/src/lib.rs:1982-2000 | an override up to 1000 replaces the score alone |
| `OracleAdmission.SubmitExact` | contracts/oracle-verifier/src/lib.rs:2318-2450 | a submission is accepted exactly on its written-out conditions on value, time, oracle, rate limit, replay and other feeds; a stale one is counted and any other stored |
| `OracleAdmission.EncryptedExact` | contracts/oracle-verifier/src/lib.rs:2501-2610 | the same for an encrypted one, which stores no reading |
| `OracleAdmission.BatchExact` | contracts/oracle-verifier/src/lib.rs:3103-3320 | a batch of either kind goes through exactly when every item is in order and later than all the batch stores in its stream before it |
| `BatchEffects.BatchLeaves` | contracts/oracle-verifier/src/lib.rs:3103-3320 | an accepted batch leaves in every stream the last item it stores there behind the others that stay, penalizes the oracle as often as it holds stale items, and touches no other stream |
| `OracleHistory.CountsAreReports` | contracts/oracle-verifier/src/lib.rs:3378-3412 | in every run the counts behind a score are exactly the accuracy reports so far: overrides and penalties never enter them |
| `OracleHistory.ScoreAfterReport` | contracts/oracle-verifier/src/lib.rs:1982-2000 | after a report the score is the share of favourable reports in thousandths, so an override by the admin or a penalty lasts until the next report only |
| `OracleHistory.CancelUndoesRequest` | contracts/oracle-verifier/src/lib.rs:1745-1760 | taking a withdrawal request back restores stakes, requests and balances, and a new one waits the whole period again |
| `OracleHistory.InvalidatedButNotForgotten` | contracts/oracle-verifier/src/lib.rs:2477-2490 | invalidating a stream leaves nothing to decide by, yet in no later run is a reading as old as one accepted before accepted |
| `OracleVerifier.Verifier.AddOracle` | contracts/oracle-verifier/src/lib.rs:311-415 | checks and writes of registration, with the duplicate search as a loop |
| `OracleVerifier.Verifier.PruneOracle` | contracts/oracle-verifier/src/lib.rs:3531-3558 | the list rebuilt without the oracle, its entry inactive |
| `OracleVerifier.Verifier.DeactivateOracle` | contracts/oracle-verifier/src/lib.rs:447-455 | removal, which also frees the global mark |
| `OracleVerifier.Verifier.DepositStake` | contracts/oracle-verifier/src/lib.rs:1474-1508 | tokens in, stake up by the same amount |
| `OracleVerifier.Verifier.RequestStakeWithdrawal` | contracts/oracle-verifier/src/lib.rs:1696-1740 | a request for the whole stake of an inactive oracle |
| `OracleVerifier.Verifier.WithdrawStake` | contracts/oracle-verifier/src/lib.rs:1763-1821 | payment and removal of an emptied stake |
| `OracleVerifier.Verifier.SlashOracle` | contracts/oracle-verifier/src/lib.rs:1828-1910 | stake to the treasury, request reduced, oracle dropped below the minimum |
| `OracleVerifier.Verifier.HandleStaleSubmission` | contracts/oracle-verifier/src/lib.rs:2038-2157 | count, and at the threshold slash, reputation penalty and reset |
| `OracleVerifier.Verifier.StorePlainReading` | contracts/oracle-verifier/src/lib.rs:3839-3880 | one point per oracle, stale and inactive ones dropped |
| `OracleVerifier.Verifier.SubmitData` | contracts/oracle-verifier/src/lib.rs:2318-2450 | the guards in order, then the stale gate or the write |
| `OracleVerifier.Verifier.SubmitDataBatch` | contracts/oracle-verifier/src/lib.rs:3200-3320 | all readings or none under one rate-limit charge |
| `OracleVerifier.Verifier.BatchSubmitData` | contracts/oracle-verifier/src/lib.rs:3103-3180 | the other batch entry point: bounded values, no check for a time of zero, the stale count kept |
| `OracleVerifier.Verifier.SubmitEncryptedData` | contracts/oracle-verifier/src/lib.rs:2501-2610 | what an encrypted submission does to rate limit, stale count, stake and reputation |
| `OracleVerifier.Verifier.Collect` | contracts/oracle-verifier/src/lib.rs:3903-3930 | the eligible points, characterised by `Eligibility.EligibleExactly`, in the stack buffers, with effective or registered weight |
| `OracleVerifier.Verifier.GetMedianValue` | contracts/oracle-verifier/src/lib.rs:3883-3954 | the decision path computes the decision that `Eligibility.DecisionExactly` characterises |
| `OracleVerifier.Verifier.GetAggregatedValue` | contracts/oracle-verifier/src/lib.rs:2848-2942 | the reporting path computes the report that `Eligibility.ReportExactly` characterises |
| `DaoQuorum.ComputeAverage` | contracts/governance-dao/src/lib.rs:2580-2592 | the loop computes the truncated average of the window, or none when it is empty |
| `DaoQuorum.AverageBounded` | contracts/governance-dao/src/lib.rs:2580-2592 | with recorded turnouts of at most 100% the average is at most 100% |
| `DaoRecords.SettlingRecordsTurnout` | contracts/governance-dao/src/lib.rs:2656-2684 | finalizing and reclaiming record floor(10000 x all recorded ballot weights / supply), capped, abstentions included, and drop the oldest turnout beyond the window |
| `DaoRecords.QuorumExactly` | contracts/governance-dao/src/lib.rs:2602-2649 | the quorum in force in terms of the mean of the kept turnouts and whole steps of the shortfall |
| `DaoRecords.PowerExactly` | contracts/governance-dao/src/lib.rs:2533-2555 | checkpointed tokens count at a share growing in proportion to the time held, others at the minimum share, each part rounded down |
| `DaoRecords.CheckpointExact` | contracts/governance-dao/src/lib.rs:1831-1846 | a checkpoint records the balance, and starts over exactly when it grew |
| `DaoRecords.StartVotingExact` | contracts/governance-dao/src/lib.rs:1703-1733 | discussion ends exactly when its period is over |
| `DaoRecords.VetoExact` | contracts/governance-dao/src/lib.rs:2398-2440 | a guardian vetoes once, and anything not yet executed |
| `DaoRecords.PruneExact` | contracts/governance-dao/src/lib.rs:1917-1927 | pruning keeps the newest turnouts, at most twenty |
| `DaoRecords.SettersExact` | contracts/governance-dao/src/lib.rs:1745-2205 | what each setter accepts and that it replaces that one setting |
| `DaoQuorum.QuorumNeverBelowMinimum` | contracts/governance-dao/src/lib.rs:2602-2649 | decay never takes the requirement below 10% |
| `DaoQuorum.DecayedClosedForm` | contracts/governance-dao/src/lib.rs:2633-2640 | decayed quorum = max(floor, average + shortfall mod step) |
| `DaoQuorum.QuorumMonotone` | contracts/governance-dao/src/lib.rs:2602-2649 | higher average turnout never lowers the requirement while the floor is at most the base |
| `DaoQuorum.PassesExactly` | contracts/governance-dao/src/lib.rs:1196-1224 | without overflow: passes iff partisan > 0, partisan >= floor(supply*q/10000) and 10000*for >= majority*partisan |
| `DaoQuorum.MoreForStillPasses` | contracts/governance-dao/src/lib.rs:1196-1224 | more For votes never undo a pass |
| `DaoQuorum.WeightWithinBalance` | contracts/governance-dao/src/lib.rs:2533-2552 | time-weighted weight lies in [0, balance] |
| `DaoQuorum.WeightGrowsWithTime` | contracts/governance-dao/src/lib.rs:2533-2552 | it never falls as time passes |
| `DaoQuorum.FreshTokensAtMinimum` | contracts/governance-dao/src/lib.rs:2533-2552 | tokens above the checkpointed amount raise it by their minimum share, rounded up at most |
| `DaoQuorum.CheckpointHeldThroughout` | contracts/governance-dao/src/lib.rs:1831-1846 | after any run of checkpoints the recorded amount is at most every balance observed from some checkpoint at the start time on |
| `DaoQuorum.HeldSinceExactly` | contracts/governance-dao/src/lib.rs:1831-1846 | every balance observed at or after the start time reaches the recorded amount if and only if no checkpoint of that very second observed less |
| `DaoQuorum.HeldSinceBetweenLedgers` | contracts/governance-dao/src/lib.rs:1831-1846 | so it does whenever checkpoints are made in different seconds |
| `DaoQuorum.SameLedgerCheckpoints` | contracts/governance-dao/src/lib.rs:1831-1846 | two checkpoints in one second for which it fails by the clock |
| `DaoDelegation.DelegateForest` | contracts/governance-dao/src/lib.rs:619-684 | delegating, first or re-pointed, keeps both indexes agreeing on a depth-one forest with lists of at most 50 |
| `DaoDelegation.DetachExact` | contracts/governance-dao/src/lib.rs:738-753 | revoking keeps it |
| `DaoDelegation.DelegateExact` | contracts/governance-dao/src/lib.rs:619-669 | the guards refuse exactly an edge that exists, a full list, or one that would break the depth-one shape |
| `DaoDelegation.RootsAndLeaves` | contracts/governance-dao/src/lib.rs:628-652 | nobody both delegates and is delegated to, and nobody to themselves |
| `DaoDelegation.RevokeUndoesDelegate` | contracts/governance-dao/src/lib.rs:738-753 | revoking a first-time delegation restores both indexes |
| `DaoDelegation.RepointIsRevokeThenDelegate` | contracts/governance-dao/src/lib.rs:654-666 | re-pointing equals revoking and delegating afresh |
| `DaoBank.RefundIsProportional` | contracts/governance-dao/src/lib.rs:1481-1482 | the split refund equals floor(deposit*bps/10000) and never exceeds the deposit |
| `DaoBank.Covered` | contracts/governance-dao/src/lib.rs:1105-1128 | every deposit and every lock is covered by the contract balance |
| `DaoTally.RecordVote` | contracts/governance-dao/src/lib.rs:910-926 | recording a ballot keeps every tally equal to the sum of recorded weights by choice |
| `DaoTally.CastAllBy` | contracts/governance-dao/src/lib.rs:1032-1079 | casting a whole batch keeps it, adds exactly one ballot per proposal and changes nothing else of the proposals |
| `DaoRuns.ReachableSound` | contracts/governance-dao/src/lib.rs:311-2760 | in every reachable state: balance = external + held deposits + locks, held deposits by status, tallies = ballot sums, delegation forest, quorum settings and history in range, hash index naming only open proposals |
| `DaoRuns.StepSound` | contracts/governance-dao/src/lib.rs:311-2760 | every single operation keeps all of these |
| `DaoEvolution.RunEvolves` | contracts/governance-dao/src/lib.rs:311-2760 | over any run proposals only move forward through the life cycle, ballots and sweeps are final, and locks stay while their proposal is Active |
| `DaoEvolution.DepositLeavesOnce` | contracts/governance-dao/src/lib.rs:1233-1239 | once a proposal is settled no run moves any more of its deposit or changes its outcome |
| `DaoEvolution.VetoIsFinal` | contracts/governance-dao/src/lib.rs:2395-2440 | a vetoed proposal is never executed afterwards |
| `DaoOutcomes.VetoStopsExecution` | contracts/governance-dao/src/lib.rs:2398-2440 | after a guardian's veto execution is refused for ever |
| `DaoOutcomes.CreateExact` | contracts/governance-dao/src/lib.rs:311-453 | a proposal is accepted exactly when well formed, not a known duplicate and covered; it opens without votes and its deposit is held |
| `DaoOutcomes.CreateThenCancel` | contracts/governance-dao/src/lib.rs:1661-1694 | cancelling right away returns the deposit and frees the content |
| `DaoOutcomes.DiscussionHasNoBallots` | contracts/governance-dao/src/lib.rs:1703-1733 | in every reachable state a proposal under discussion has no ballots and empty tallies |
| `DaoEvolution.SweptNeverVotes` | contracts/governance-dao/src/lib.rs:853-872 | once a delegate's vote counted a holder, the holder's own vote on that proposal is refused for ever |
| `DaoOutcomes.FinalizeExact` | contracts/governance-dao/src/lib.rs:1155-1255 | finalizing goes through exactly when its guards hold, passes exactly when the decision is positive, and refunds the whole deposit exactly when not |
| `DaoOutcomes.CancelExact` | contracts/governance-dao/src/lib.rs:1661-1694 | cancelling goes through exactly while open and refunds in full |
| `DaoOutcomes.ReclaimExact` | contracts/governance-dao/src/lib.rs:1377-1417 | reclaiming goes through exactly after 14 days on an Active proposal and refunds in full |
| `DaoOutcomes.ExecuteExact` | contracts/governance-dao/src/lib.rs:1426-1500 | executing pays floor(deposit*bps/10000); past the deadline the proposal expires and keeps its deposit |
| `DaoOutcomes.FinalizeDecidesExactly` | contracts/governance-dao/src/lib.rs:1174-1224 | the decision in terms of the recorded ballots: quorum and majority on For and Against only |
| `DaoOutcomes.ApprovedHadQuorum` | contracts/governance-dao/src/lib.rs:1196-1224 | in every reachable state a passed, executed or expired proposal had partisan votes of at least 10% of its supply |
| `DaoOutcomes.BatchAbortsWithAStep` | contracts/governance-dao/src/lib.rs:1268-1363 | a batch aborts exactly when some step of finalizing one after the other aborts |
| `DaoOutcomes.BatchExact` | contracts/governance-dao/src/lib.rs:1268-1363 | a batch goes through if and only if it names distinct proposals, each finalizable at the start, and the end of the timelock fits u64 or none of them passes |
| `DaoOutcomes.FinalizeBatchExact` | contracts/governance-dao/src/lib.rs:1268-1363 | the entry point does so for 1 to 20 proposals and leaves what finalizing one after the other leaves |
| `DaoBatchOrder.OrderFreeExactly` | contracts/governance-dao/src/lib.rs:1258-1267 | under given settings the order of a batch never matters, in any state and for any batch, if and only if decay is off or cannot move the quorum, or nothing can pass; the states then agree but for the order of recorded turnouts |
| `DaoBatchOrder.OrderMattersInARun` | contracts/governance-dao/src/lib.rs:1258-1267 | otherwise a run from deployment to just these settings reaches two proposals whose outcome depends on the order |
| `DaoBatchOrder.ReachableSettable` | contracts/governance-dao/src/lib.rs:1745-1826 | the settings of every reachable state are among those considered |
| `DaoBatchOrder.SteadyBatch` | contracts/governance-dao/src/lib.rs:1268-1363 | where decay cannot move the quorum any two orders both abort or lead to the same state |
| `DaoBatchOrder.BatchOrderMatters` | contracts/governance-dao/src/lib.rs:1258-1267 | a run after which the same proposal passes in one order and fails in the other |
| `DaoVoting.CollectExact` | contracts/governance-dao/src/lib.rs:2718-2760 | a sweep counts exactly the delegators not counted before, with their time-weighted live balances |
| `DaoAdmission.VoteExact` | contracts/governance-dao/src/lib.rs:827-925 | a vote is accepted exactly when the proposal is Active and not past its deadline, the voter neither voted nor was swept nor delegated and holds tokens, and the ballot weighs something its tally has room for; all that it changes |
| `DaoAdmission.VoteBatchExact` | contracts/governance-dao/src/lib.rs:948-1081 | the same for every proposal of a batch of distinct ones, with the tokens put in once and locked under the first |
| `DaoAdmission.NoLateBallots` | contracts/governance-dao/src/lib.rs:842-844 | after its deadline no run adds, changes or removes a ballot on a proposal or moves its tallies |
| `DaoVoting.VoteWeighs` | contracts/governance-dao/src/lib.rs:874-894 | the recorded weight is the voter's own power plus that of exactly those delegators, who are then marked |
| `DaoVoting.VoteWithinTokens` | contracts/governance-dao/src/lib.rs:874-894 | a ballot never weighs more than the tokens behind it |
| `DaoVoting.SingletonBatch` | contracts/governance-dao/src/lib.rs:948-1079 | a batch of one equals a single vote, although it moves tokens before it sums delegated weight |
| `DaoVoting.WithdrawExact` | contracts/governance-dao/src/lib.rs:1088-1131 | a withdrawal never fails for want of tokens, pays back exactly the lock, and only once |
| `DaoVoting.VoteUndone` | contracts/governance-dao/src/lib.rs:896-908 | voting takes the pledge and cancelling lets the voter take all of it back, beside the deposit of a proposal of its own |
| `DaoVoting.LockHeldWhileActive` | contracts/governance-dao/src/lib.rs:1096-1099 | no run returns a lock while its proposal is Active |
| `DaoVoting.BatchLockFollowsFirst` | contracts/governance-dao/src/lib.rs:1059-1066 | for a batch only the first proposal holds the lock: once it is cancelled all tokens are free while other ballots still count |
| `DaoLocking.BallotBesideLock` | contracts/governance-dao/src/lib.rs:868-905 | every accepted ballot, alone or anywhere in a batch, weighs the voter's own power plus what it sweeps, beside a lock of the pledge, or of nothing after the first of a batch |
| `DaoLocking.NoTokenVotesTwice` | contracts/governance-dao/src/lib.rs:820-826 | in every run in which no vote on a proposal counts delegated weight and no batch names it after its first entry, all ballots on it weigh at most the tokens locked under it while it is Active, whatever happens on other proposals, time weighting or not |
| `DaoLocking.VotesTwiceExactly` | contracts/governance-dao/src/lib.rs:820-826 | without time weighting this is exact: the ballots never weigh less than the locks, and no more if and only if no vote on the proposal did either |
| `DaoLocking.DelegationCountsTwice` | contracts/governance-dao/src/lib.rs:848-905 | one delegation is enough for the same tokens to count twice: a run whose ballots outweigh all tokens |
| `DaoLocking.BatchCountsTwice` | contracts/governance-dao/src/lib.rs:1059-1066 | one batch vote is enough as well |
| `DaoHashIndex.StaysIndexed` | contracts/governance-dao/src/lib.rs:2793-2804 | the duplicate index stays complete under every operation if and only if it is not a late execution whose content was proposed again |
| `DaoHashIndex.IndexedMeansNoDuplicates` | contracts/governance-dao/src/lib.rs:345-366 | while complete, no two open proposals have the same content |
| `DaoHashIndex.DuplicateSlipsThrough` | contracts/governance-dao/src/lib.rs:1452-1465 | after such a late execution a second open proposal with the same content is accepted |
| `DaoHashIndex.IndexedExactly` | contracts/governance-dao/src/lib.rs:2793-2804 | from deployment the index is complete all along in exactly the runs without such a late execution |
| `DaoHashIndex.LateReached` | contracts/governance-dao/src/lib.rs:1452-1465 | a run from deployment to such a late execution |
| `GovernanceDao.Governance.CreateProposal` | contracts/governance-dao/src/lib.rs:311-453 | the checks, the deposit and the index entry |
| `GovernanceDao.Governance.StartVoting` | contracts/governance-dao/src/lib.rs:1703-1733 | Discussion to Active after the period |
| `GovernanceDao.Governance.TimeWeighted` | contracts/governance-dao/src/lib.rs:2533-2552 | the ramped weight of an amount |
| `GovernanceDao.Governance.CollectDelegatedWeight` | contracts/governance-dao/src/lib.rs:2718-2760 | the loop over delegators with its marks |
| `GovernanceDao.Governance.Vote` | contracts/governance-dao/src/lib.rs:827-925 | guards, tally, record, lock, as `DaoAdmission.VoteExact` characterises them; an abort undoes the marks |
| `GovernanceDao.Governance.HasRepeats` | contracts/governance-dao/src/lib.rs:963-970 | the pairwise search finds a repeated id exactly when there is one |
| `GovernanceDao.Governance.VoteBatch` | contracts/governance-dao/src/lib.rs:948-1081 | validation of all, one transfer, tallies with the lock on the first, as `DaoAdmission.VoteBatchExact` characterises them |
| `GovernanceDao.Governance.WithdrawTokens` | contracts/governance-dao/src/lib.rs:1088-1131 | refund of a lock, or nothing for a shared one |
| `GovernanceDao.Governance.CurrentQuorum` | contracts/governance-dao/src/lib.rs:2602-2649 | the quorum in force |
| `GovernanceDao.Governance.RecordParticipation` | contracts/governance-dao/src/lib.rs:2656-2684 | turnout pushed, oldest dropped to the window |
| `GovernanceDao.Governance.Finalize` | contracts/governance-dao/src/lib.rs:1155-1255 | settling one proposal |
| `GovernanceDao.Governance.FinalizeBatch` | contracts/governance-dao/src/lib.rs:1268-1363 | the batch loop with its own copy of the settling code equals the fold of single finalizations, all or nothing |
| `GovernanceDao.Governance.ReclaimDeposit` | contracts/governance-dao/src/lib.rs:1377-1417 | settling an abandoned proposal as Failed |
| `GovernanceDao.Governance.Execute` | contracts/governance-dao/src/lib.rs:1426-1515 | refund by completion, or expiry |
| `GovernanceDao.Governance.Cancel` | contracts/governance-dao/src/lib.rs:1661-1694 | cancellation with refund |
| `GovernanceDao.Governance.VetoProposal` | contracts/governance-dao/src/lib.rs:2398-2440 | the veto mark |
| `GovernanceDao.Governance.RemoveDelegator` | contracts/governance-dao/src/lib.rs:2687-2711 | list rebuilt by a loop, removed when empty |
| `GovernanceDao.Governance.Delegate` | contracts/governance-dao/src/lib.rs:619-684 | edge written to both indexes, old one detached first |
| `GovernanceDao.Governance.RevokeDelegation` | contracts/governance-dao/src/lib.rs:738-753 | edge removed from both |
| `GovernanceDao.Governance.CheckpointVotingPower` | contracts/governance-dao/src/lib.rs:1831-1846 | checkpoint kept or restarted |
| `GovernanceDao.Governance.PruneParticipationHistory` | contracts/governance-dao/src/lib.rs:1917-1927 | history cut to the newest entries |
| `Policies.RefundBounds` | contracts/policy-engine/src/lib.rs:1120-1135 | the cancel refund lies in [0, premium], is the whole premium before the start and nothing at the end |
| `Policies.RefundShrinks` | contracts/policy-engine/src/lib.rs:1120-1135 | cancelling later never refunds more |
| `Policies.RefundIsProRata` | contracts/policy-engine/src/lib.rs:1120-1135 | the refund is the one amount that leaves the elapsed share of the premium, rounded down, with the pool: a refund is pro rata if and only if it is this one |
| `Policies.CancelExact` | contracts/policy-engine/src/lib.rs:1095-1157 | a policy is cancelled exactly by its holder while active, with a reason of 1 to 256 bytes and a covered pro-rata refund; exactly that refund moves from the pool to the holder and is recorded |
| `Policies.PremiumIsProRata` | contracts/policy-engine/src/lib.rs:994-999 | the premium is coverage x rate x days over a year, rounded down once |
| `PolicyOutcomes.BuyExact` | contracts/policy-engine/src/lib.rs:900-1090 | a purchase goes through exactly when the order meets the written-out terms and the buyer covers a positive premium, which the pool receives; all that it changes |
| `PolicyOutcomes.TransferExact` | contracts/policy-engine/src/lib.rs:1160-1217 | a policy is handed on exactly by its holder while active, and keeps its terms |
| `PolicyOutcomes.ExpireExact` | contracts/policy-engine/src/lib.rs:1263-1283 | the engine expires any active policy, whatever the time, and pays nothing |
| `Policies.PayClaimExact` | contracts/policy-engine/src/lib.rs:1223-1257 | a claim is payable exactly when its policy is active and the pool covers it; the coverage goes to the holder |
| `Policies.CancelSound` | contracts/policy-engine/src/lib.rs:1095-1157 | cancelling keeps user lists exact, the one-transfer rule and the pool balance |
| `Policies.TransferSound` | contracts/policy-engine/src/lib.rs:1160-1217 | so does a transfer of the policy |
| `Policies.PayClaimSound` | contracts/policy-engine/src/lib.rs:1223-1257 | so does a payout |
| `Policies.BuySound` | contracts/policy-engine/src/lib.rs:900-1090 | so does a purchase |
| `SettlementRuns.ReachableSound` | contracts/claims-processor/src/lib.rs:530-2753 | in every reachable state of both contracts: user lists exact, queue exactly the pending claims, one claim per policy, paid claims backed by a claimed policy |
| `SettlementRuns.StepSound` | contracts/claims-processor/src/lib.rs:530-2753 | every operation keeps all of these and never changes an ended policy |
| `SettlementRuns.SettleSound` | contracts/claims-processor/src/lib.rs:2655-2749 | settling with any verdict, ratio and delay keeps them |
| `SettlementRuns.QueueSorted` | contracts/claims-processor/src/lib.rs:1101-1132 | the queue rebuild permutes the queue into first-in-first-out order |
| `SettlementOutcomes.PaidExactlyOnce` | contracts/policy-engine/src/lib.rs:1095-1283 | in every reachable state the coverage left the pool exactly once iff the policy is claimed, and never beside a refund |
| `DelayedPayouts.PaidOnlyOnVerdict` | contracts/claims-processor/src/lib.rs:2655-2749 | the coverage of a policy was paid only if some operation of the run settled the claim on it with a true verdict |
| `SettlementOutcomes.PaidMeansPaid` | contracts/claims-processor/src/lib.rs:2280-2328 | a Paid or PartiallyPaid claim without a payout time has been paid |
| `SettlementOutcomes.EndedForGood` | contracts/policy-engine/src/lib.rs:1223-1283 | once a policy ended no run of disputes, resolutions and settlements moves another token for it |
| `SettlementOutcomes.PoolConserved` | contracts/policy-engine/src/lib.rs:1095-1283 | pool balance = all inflow less all recorded transfers out, each for a known policy |
| `SettlementOutcomes.ClaimPayoutExact` | contracts/claims-processor/src/lib.rs:2280-2328 | a delayed payout goes through exactly when due, on an active and covered policy whose capital lock is still held, whatever the claim status; it pays the full coverage to the holder and only once |
| `SettlementOutcomes.EndedBeforePayout` | contracts/claims-processor/src/lib.rs:2280-2328 | an approved claim whose policy ends during the delay is never paid |
| `DelayedPayouts.OnlyThePolicyStopsPayout` | contracts/claims-processor/src/lib.rs:2280-2328 | after any run in which an approved claim was neither paid nor approved once more, rejected or disputed as it may be, its payout goes through exactly when due, on an active and covered policy with its lock held |
| `DelayedPayouts.DisputePostponesPayout` | contracts/claims-processor/src/lib.rs:1268-1387 | a dispute resolved by another true verdict makes the payout wait the whole delay again |
| `SettlementOutcomes.SettleExact` | contracts/claims-processor/src/lib.rs:2655-2749 | without delay a true verdict settles exactly when the claimant still holds the active, covered policy and its lock is held; the claimant receives the whole coverage |
| `SettlementAdmission.FileExact` | contracts/claims-processor/src/lib.rs:530-683 | a claim is filed exactly by the holder of an active policy without one, in time, a minute after the account's last, when admitted; all that it changes |
| `SettlementAdmission.RefusalExact` | contracts/claims-processor/src/lib.rs:2655-2685 | a false verdict refuses exactly the pending claims of the policy's holder |
| `SettlementAdmission.ApprovalExact` | contracts/claims-processor/src/lib.rs:2655-2749 | with a delay a true verdict approves exactly those, without asking whether policy, pool or lock allow a payment; share and payout time spelled out |
| `SettlementAdmission.PaymentExact` | contracts/claims-processor/src/lib.rs:2655-2749 | without a delay the claim is approved the same way and the coverage paid |
| `SettlementAdmission.ReadingsExact` | contracts/claims-processor/src/lib.rs:860-927 | several readings decide as all of them or any of them, and none decide nothing |
| `SettlementAdmission.ProcessExact` | contracts/claims-processor/src/lib.rs:746-778 | processing settles pending claims and reports back all others |
| `SettlementAdmission.CooldownExact` | contracts/claims-processor/src/lib.rs:932-960 | automatic processing attends to a policy again only after the cooldown |
| `SettlementAdmission.AttendExact` | contracts/claims-processor/src/lib.rs:932-1064 | it leaves decided claims and inactive policies alone, and expires a policy past its cover exactly when the lock is held |
| `SettlementAdmission.AttendSettles` | contracts/claims-processor/src/lib.rs:932-1064 | otherwise it settles the pending claim, opening one for the holder if there is none |
| `SettlementAdmission.DisputeExact` | contracts/claims-processor/src/lib.rs:1268-1345 | exactly who may dispute which claim until when |
| `SettlementAdmission.ReviewExact` | contracts/claims-processor/src/lib.rs:1353-1405 | exactly when a claim is resolved, rejected or escalated, and what that changes |
| `SettlementAdmission.LockExact` | contracts/risk-pool/src/lib.rs:1391-1512 | capital is locked for a policy at most once, released or not, and released once |
| `SettlementAdmission.ScheduleExact` | contracts/claims-processor/src/lib.rs:1430-1486 | 1 to 12 equal positive amounts within the coverage are accepted exactly for an approved claim |
| `SettlementAdmission.DueExactly` | contracts/claims-processor/src/lib.rs:1514-1530 | from the first time on one installment more is due than whole intervals have passed, up to all of them |
| `SettlementAdmission.CollectExact` | contracts/claims-processor/src/lib.rs:1508-1530 | installments are collected exactly when the next uncollected one has fallen due, all that have at once and none that has not |
| `SettlementOutcomes.ProcessIsSettle` | contracts/claims-processor/src/lib.rs:746-778 | the coverage recorded with a claim always agrees with its policy, so processing a pending claim is settling it |
| `SettlementOutcomes.EscalatedOnlyRejected` | contracts/claims-processor/src/lib.rs:2346-2400 | an escalated claim leaves that status only by rejection |
| `SettlementOutcomes.FiledOnce` | contracts/claims-processor/src/lib.rs:531-534 | after a claim was filed no run makes room for another on the same policy |
| `SettlementOutcomes.DisputeThenResolve` | contracts/claims-processor/src/lib.rs:1268-1387 | a dispute takes a pending claim out of the queue and its resolution puts it back, unchanged, at the end |
| `QueueSort.BubbleSort` | contracts/claims-processor/src/lib.rs:1109-1122 | the bubble sort yields the first-in-first-out arrangement |
| `QueueSort.FirstInFirstOutUnique` | contracts/claims-processor/src/lib.rs:1101-1132 | there is only one: sorted by time, equal times in queue order |
| `QueueSort.ExchangeKeepsOrder` | contracts/claims-processor/src/lib.rs:1112-1121 | an exchange of out-of-order neighbours keeps equal times in order |
| `Installments.CollectedTelescopes` | contracts/claims-processor/src/lib.rs:1494-1560 | whatever the calls, the total reported is amount times installments paid, within the coverage |
| `Installments.OnlyTheFirstCallPays` | contracts/claims-processor/src/lib.rs:1494-1560 | the capital lock allows one collection, so the total is what was due at the first productive call: the whole plan, or what is due at the last call, exactly when nothing fell due in between |
| `Installments.WaitingPays` | contracts/claims-processor/src/lib.rs:1494-1560 | a later first call never reports less |
| `Installments.ZeroIntervalPaysNothing` | contracts/claims-processor/src/lib.rs:1514-1521 | an interval of zero can be scheduled but every collection aborts |
| `SettlementLocks.CollectionExact` | contracts/claims-processor/src/lib.rs:1494-1560 | an installment is collected exactly when the claimant calls at or after the first installment time while the lock is held; the policy was then neither paid nor expired, all that is due is reported, within the coverage, and policies, ledger and outflows stay as they are |
| `SettlementLocks.OneSuccessPerPolicy` | contracts/risk-pool/src/lib.rs:1456-1478 | of all operations in a run at most one settles a policy at once, pays it after the delay, lets it expire or collects an installment of it |
| `SettlementLocks.ReleasedForGood` | contracts/risk-pool/src/lib.rs:1456-1512 | once the lock is released no later run collects, pays or expires anything for the policy, whatever is scheduled or settled again |
| `SettlementLocks.ReportedWithinCoverage` | contracts/claims-processor/src/lib.rs:1430-1560 | over any run the installments of a policy come to at most its coverage, and to nothing if the coverage itself was paid |
| `SettlementLocks.CollectionForfeitsPayout` | contracts/claims-processor/src/lib.rs:1532-1538 | an installment collected before a delayed payout blocks that payout for ever: the coverage never leaves the pool |
| `SettlementLocks.NoInstallmentAfterSettling` | contracts/claims-processor/src/lib.rs:2690-2717 | after a settlement at once every later collection is refused |
| `PolicyEngine.Pool.BuyPolicy` | contracts/policy-engine/src/lib.rs:900-1090 | purchase with computed premium |
| `PolicyEngine.Pool.RemovePolicyFromUser` | contracts/policy-engine/src/lib.rs:1886-1905 | first occurrence found by a loop and removed |
| `PolicyEngine.Pool.CancelPolicy` | contracts/policy-engine/src/lib.rs:1095-1157 | final status, unlisting and the refund that `Policies.CancelExact` characterises |
| `PolicyEngine.Pool.TransferPolicy` | contracts/policy-engine/src/lib.rs:1160-1217 | new holder in the policy and in both lists |
| `PolicyEngine.Pool.PayClaim` | contracts/policy-engine/src/lib.rs:1223-1257 | coverage out, policy claimed |
| `PolicyEngine.Pool.ExpirePolicy` | contracts/policy-engine/src/lib.rs:1263-1283 | policy expired and unlisted |
| `ClaimsProcessor.Processor.FileClaim` | contracts/claims-processor/src/lib.rs:530-683 | guards, new claim, both indexes and the queue |
| `ClaimsProcessor.Processor.RemoveFromPending` | contracts/claims-processor/src/lib.rs:2783-2791 | the claim leaves the queue |
| `ClaimsProcessor.Processor.SettleClaim` | contracts/claims-processor/src/lib.rs:2655-2749 | rejection, or approval with payment now or later |
| `ClaimsProcessor.Processor.ProcessClaim` | contracts/claims-processor/src/lib.rs:746-778 | settling a pending claim; others are reported back unchanged |
| `ClaimsProcessor.Processor.Combine` | contracts/claims-processor/src/lib.rs:898-913 | the early-exit loops decide all-of or any-of |
| `ClaimsProcessor.Processor.ProcessMultiReadingClaim` | contracts/claims-processor/src/lib.rs:860-927 | settling on several readings |
| `ClaimsProcessor.Processor.AutoProcess` | contracts/claims-processor/src/lib.rs:932-1064 | expiry of an ended policy, or a claim opened and settled |
| `ClaimsProcessor.Processor.DisputeClaim` | contracts/claims-processor/src/lib.rs:1268-1345 | dispute within the windows |
| `ClaimsProcessor.Processor.ResolveDispute` | contracts/claims-processor/src/lib.rs:1353-1387 | back to Pending and to the end of the queue |
| `ClaimsProcessor.Processor.RejectClaim` | contracts/claims-processor/src/lib.rs:1390-1405 | rejection from any status |
| `ClaimsProcessor.Processor.EscalateClaim` | contracts/claims-processor/src/lib.rs:2346-2404 | escalation of an overdue claim |
| `ClaimsProcessor.Processor.ClaimPayout` | contracts/claims-processor/src/lib.rs:2280-2328 | release of a delayed payout |
| `ClaimsProcessor.Processor.SortPending` | contracts/claims-processor/src/lib.rs:1101-1132 | the queue rebuilt in sorted order |
| `ClaimsProcessor.Processor.ScheduleInstallments` | contracts/claims-processor/src/lib.rs:1430-1486 | a schedule for an approved claim |
| `ClaimsProcessor.Processor.ClaimInstallment` | contracts/claims-processor/src/lib.rs:1494-1560 | collection of what is due, refused once the capital lock is released |

## Left out

- Events, storage lifetimes, authorization, pause switches, address and symbol format checks: no invariant depends on them.
- Contract upgrades, migrations, guardians' approvals and admin rotation: repeated boilerplate that would add easy members.
- Proposal comments, templates, evidence, the ciphertexts of encrypted readings, identity attestation, claim references and category registries: keyed writes.
- The risk pool beyond the capital lock of each policy: deposits, shares, utilization and reinsurance. Whether a new lock is covered is a parameter.
- `get_aggregated_for_region`, the confidence interval, freshness and staleness reports: heuristics or queries beside the deciding path.
- Range configuration and minimum counts per data type beyond those in `OracleState.Settings`.
- The re-entrant call in `batch_auto_process`: only the sort and rebuild of the queue are modelled.
- The admin's setters of the DAO and of the oracle verifier are functions on the settings, without methods of their own.
- `deactivate_inactive_oracles`, which repeats the single removal, and the comparison of a decided value with a trigger threshold.
- The `for` loops of `batch_submit_claims`, `batch_process_claims` and `batch_buy_policy`, which repeat the single entry points.
- Expiry of delegations: it is stored but votes never read it, so an expired delegation still lends its weight.
- Fraud scoring of submissions: its verdict is one of the admission checks of `FileClaim`.
- Product deprecation counters and the admin's product settings beyond the terms a purchase reads.
- Overflow of 128-bit policy and claim counters.
- TimeWeighting.ComputeTimeWeighted: its sort leaves readings of the same second in storage order, where the sort of the source leaves them either way; `TimeWeighting.TimeAverageHull` and `TimedSurvivors.OneArrangementExactly` are stated for every arrangement.
- AverageReporting.AverageAgreesExactly: for values within the submission range; beyond it the sums saturate.
- Consensus.DecisionWithinHull: for TimeWeightedAverage stated for readings spread over at most 1700000 seconds, where no value in the submission range saturates; the exact limit is `TimeWeighting.HullExactly`.
