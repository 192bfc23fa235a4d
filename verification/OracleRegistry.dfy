/** Which oracles may report for which data type. */
module OracleRegistry {
  import opened Arithmetic
  import opened Sequences
  import opened Ledger

  const MAX_ORACLES_PER_KEY: nat := 10
  const MAX_REGISTERED_WEIGHT: nat := 100_000

  datatype OracleEntry = OracleEntry(weight: nat, active: bool)

  datatype Registry = Registry(
    oracles: map<(Symbol, Address), OracleEntry>,
    globalOracles: set<Address>,
    oracleList: map<Symbol, seq<Address>>)

  function ListOf(r: Registry, dt: Symbol): seq<Address> {
    Get(r.oracleList, dt, [])
  }

  predicate IsActive(r: Registry, dt: Symbol, oracle: Address) {
    (dt, oracle) in r.oracles && r.oracles[(dt, oracle)].active
  }

  /** `staked` is the oracle's stake for the data type and `minStake` the configured minimum. */
  function Add(r: Registry, oracle: Address, dt: Symbol, weight: nat, staked: int, minStake: int): Option<Registry> {
    var list := ListOf(r, dt);
    if weight == 0 || weight > MAX_REGISTERED_WEIGHT then None
    else if (dt, oracle) in r.oracles || oracle in r.globalOracles then None
    else if |list| >= MAX_ORACLES_PER_KEY then None
    else if minStake > 0 && (staked <= 0 || staked < minStake) then None
    else Some(Registry(
      r.oracles[(dt, oracle) := OracleEntry(weight, true)],
      r.globalOracles + {oracle},
      if oracle in list then r.oracleList else r.oracleList[dt := list + [oracle]]))
  }

  function UpdateWeight(r: Registry, oracle: Address, dt: Symbol, weight: nat): Option<Registry> {
    if weight == 0 || weight > MAX_REGISTERED_WEIGHT || (dt, oracle) !in r.oracles then None
    else Some(r.(oracles := r.oracles[(dt, oracle) := r.oracles[(dt, oracle)].(weight := weight)]))
  }

  /** Marks the entry inactive and prunes the list; the entry itself stays. */
  function Prune(r: Registry, oracle: Address, dt: Symbol): Registry
    requires (dt, oracle) in r.oracles
  {
    r.(oracles := r.oracles[(dt, oracle) := r.oracles[(dt, oracle)].(active := false)],
       oracleList := r.oracleList[dt := Filter(ListOf(r, dt), OtherThan(oracle))])
  }

  /** Removal by the admin or for inactivity: also frees the global registration mark. */
  function Deactivate(r: Registry, oracle: Address, dt: Symbol): Option<Registry> {
    if (dt, oracle) !in r.oracles then None
    else Some(Prune(r, oracle, dt).(globalOracles := r.globalOracles - {oracle}))
  }

  /** Slashing below the minimum stake prunes an active oracle but keeps its global mark. */
  function DropUnderstaked(r: Registry, oracle: Address, dt: Symbol, remaining: int, minStake: int): Registry {
    if minStake > 0 && remaining < minStake && IsActive(r, dt, oracle) then Prune(r, oracle, dt) else r
  }

  // ----- The list is exactly the active oracles -----

  ghost predicate ListExact(r: Registry, dt: Symbol) {
    && |ListOf(r, dt)| <= MAX_ORACLES_PER_KEY
    && Distinct(ListOf(r, dt))
    && forall a :: a in ListOf(r, dt) <==> IsActive(r, dt, a)
  }

  ghost predicate Consistent(r: Registry) {
    && (forall dt :: ListExact(r, dt))
    && (forall k :: k in r.oracles ==> 1 <= r.oracles[k].weight <= MAX_REGISTERED_WEIGHT)
  }

  lemma AddConsistent(r: Registry, oracle: Address, dt: Symbol, weight: nat, staked: int, minStake: int)
    requires Consistent(r) && Add(r, oracle, dt, weight, staked, minStake).Some?
    ensures Consistent(Add(r, oracle, dt, weight, staked, minStake).value)
  {
    var t := Add(r, oracle, dt, weight, staked, minStake).value;
    forall d ensures ListExact(t, d) {
      assert ListExact(r, d);
      if d == dt {
        assert !IsActive(r, dt, oracle);
        forall a ensures a in ListOf(t, d) <==> IsActive(t, d, a) {
          assert a in ListOf(r, d) <==> IsActive(r, d, a);
        }
      } else {
        assert forall a :: IsActive(t, d, a) <==> IsActive(r, d, a);
      }
    }
  }

  lemma PruneConsistent(r: Registry, oracle: Address, dt: Symbol)
    requires Consistent(r) && (dt, oracle) in r.oracles
    ensures Consistent(Prune(r, oracle, dt))
  {
    var t := Prune(r, oracle, dt);
    forall d ensures ListExact(t, d) {
      assert ListExact(r, d);
      if d == dt {
        FilterDistinct(ListOf(r, dt), OtherThan(oracle));
        forall a ensures a in ListOf(t, d) <==> IsActive(t, d, a) {
          assert a in ListOf(r, d) <==> IsActive(r, d, a);
        }
      } else {
        assert forall a :: IsActive(t, d, a) <==> IsActive(r, d, a);
      }
    }
  }

  lemma WithoutGlobalConsistent(r: Registry, globals: set<Address>)
    requires Consistent(r)
    ensures Consistent(r.(globalOracles := globals))
  {
    var t := r.(globalOracles := globals);
    forall d ensures ListExact(t, d) {
      assert ListExact(r, d);
      assert forall a :: IsActive(t, d, a) <==> IsActive(r, d, a);
    }
  }

  lemma DeactivateConsistent(r: Registry, oracle: Address, dt: Symbol)
    requires Consistent(r) && Deactivate(r, oracle, dt).Some?
    ensures Consistent(Deactivate(r, oracle, dt).value)
  {
    PruneConsistent(r, oracle, dt);
    WithoutGlobalConsistent(Prune(r, oracle, dt), r.globalOracles - {oracle});
  }

  lemma UpdateWeightConsistent(r: Registry, oracle: Address, dt: Symbol, weight: nat)
    requires Consistent(r) && UpdateWeight(r, oracle, dt, weight).Some?
    ensures Consistent(UpdateWeight(r, oracle, dt, weight).value)
  {
    var t := UpdateWeight(r, oracle, dt, weight).value;
    forall d ensures ListExact(t, d) {
      assert ListExact(r, d);
      assert forall a :: IsActive(t, d, a) <==> IsActive(r, d, a);
    }
  }

  // ----- One registration per address -----

  /** An active oracle carries the global mark and is active for one data type only. */
  ghost predicate GloballyUnique(r: Registry) {
    && (forall dt, a :: IsActive(r, dt, a) ==> a in r.globalOracles)
    && (forall d, e, a :: IsActive(r, d, a) && IsActive(r, e, a) ==> d == e)
  }

  lemma AddKeepsUnique(r: Registry, oracle: Address, dt: Symbol, weight: nat, staked: int, minStake: int)
    requires GloballyUnique(r) && Add(r, oracle, dt, weight, staked, minStake).Some?
    ensures GloballyUnique(Add(r, oracle, dt, weight, staked, minStake).value)
  {
    var t := Add(r, oracle, dt, weight, staked, minStake).value;
    assert forall d, a :: IsActive(t, d, a) ==> IsActive(r, d, a) || (d == dt && a == oracle);
  }

  /** Removal keeps addresses unique exactly when it does not free the mark of an oracle that is still
      active for another data type, which happens when an already inactive entry is removed again. */
  lemma DeactivateKeepsUnique(r: Registry, oracle: Address, dt: Symbol)
    requires GloballyUnique(r) && Deactivate(r, oracle, dt).Some?
    ensures GloballyUnique(Deactivate(r, oracle, dt).value) <==>
            IsActive(r, dt, oracle) || forall e :: !IsActive(r, e, oracle)
  {
    var t := Deactivate(r, oracle, dt).value;
    assert forall d, a :: IsActive(t, d, a) <==> IsActive(r, d, a) && !(d == dt && a == oracle);
    if e :| IsActive(r, e, oracle) && e != dt {
      assert IsActive(t, e, oracle) && oracle !in t.globalOracles;
    }
  }

  /** The failing case is reachable: registered for 1, removed, registered for 2, removed from 1 again,
      registered for 3. The same address is then active for both 2 and 3. */
  lemma SameOracleTwice(a: Address)
    ensures var r0 := Registry(map[], {}, map[]);
      var r1 := Add(r0, a, 1, 1, 0, 0).value;
      var r2 := Deactivate(r1, a, 1).value;
      var r3 := Add(r2, a, 2, 1, 0, 0).value;
      var r4 := Deactivate(r3, a, 1).value;
      var r5 := Add(r4, a, 3, 1, 0, 0);
      r5.Some? && IsActive(r5.value, 2, a) && IsActive(r5.value, 3, a)
  {
    var none: seq<Address> := [];
    assert Filter([a], OtherThan(a)) == Filter(none, OtherThan(a)) == none;
  }
}
