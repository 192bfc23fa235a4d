/** The capital locks of the risk pool: at most one per policy, never renewed, released once. */
module CapitalLocks {
  import opened Arithmetic

  datatype Lock = Held | Released

  type Locks = map<nat, Lock>

  predicate IsHeld(locks: Locks, policy: nat) {
    policy in locks && locks[policy].Held?
  }

  predicate IsReleased(locks: Locks, policy: nat) {
    policy in locks && locks[policy].Released?
  }

  /** `lock_for_policy`; `covered` stands for a positive amount within the free deposits and the utilization
      ceiling. */
  function Take(locks: Locks, policy: nat, covered: bool): Option<Locks> {
    if !covered || policy in locks then None else Some(locks[policy := Held])
  }

  /** `release_for_claim` and `release_for_expiry`. */
  function Release(locks: Locks, policy: nat): Option<Locks> {
    if !IsHeld(locks, policy) then None else Some(locks[policy := Released])
  }

  /** No lock disappears, and a released one stays released. */
  ghost predicate LocksEvolve(before: Locks, after: Locks) {
    forall policy :: policy in before ==>
      policy in after && (before[policy].Released? ==> after[policy].Released?)
  }

  class RiskPool {
    var locks: Locks

    constructor ()
      ensures locks == map[]
    {
      locks := map[];
    }

    method LockForPolicy(policy: nat, covered: bool) returns (ok: bool)
      modifies `locks
      ensures ok <==> Take(old(locks), policy, covered).Some?
      ensures locks == Take(old(locks), policy, covered).GetOr(old(locks))
    {
      if !covered || policy in locks { return false; }
      locks := locks[policy := Held];
      return true;
    }

    /** Both releases of the source, which differ in the event they publish. */
    method ReleaseLock(policy: nat) returns (ok: bool)
      modifies `locks
      ensures ok <==> Release(old(locks), policy).Some?
      ensures locks == Release(old(locks), policy).GetOr(old(locks))
    {
      if policy !in locks { return false; }
      if locks[policy] == Released { return false; }
      locks := locks[policy := Released];
      return true;
    }
  }
}
