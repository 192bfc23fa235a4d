/** Who votes for whom: one-hop delegation, kept by two indexes that must agree. */
module DaoDelegation {
  import opened Arithmetic
  import opened Maps
  import opened Sequences
  import opened Ledger

  const MAX_DELEGATORS: nat := 50

  datatype Delegations = Delegations(delegateOf: map<Address, Address>, delegators: map<Address, seq<Address>>)

  function DelegatorsOf(g: Delegations, e: Address): seq<Address> {
    Get(g.delegators, e, [])
  }

  predicate IsEdge(g: Delegations, d: Address, e: Address) {
    d in g.delegateOf && g.delegateOf[d] == e
  }

  /** Drops `d` from the list of `e`; an emptied list is removed from storage. */
  function Detach(g: Delegations, e: Address, d: Address): Delegations {
    var remaining := Filter(DelegatorsOf(g, e), OtherThan(d));
    g.(delegators := if remaining == [] then g.delegators - {e} else g.delegators[e := remaining])
  }

  function Delegate(g: Delegations, d: Address, e: Address): Option<Delegations> {
    if d == e || e in g.delegateOf || DelegatorsOf(g, d) != [] || IsEdge(g, d, e) then None
    else
      var detached := if d in g.delegateOf then Detach(g, g.delegateOf[d], d) else g;
      var list := DelegatorsOf(detached, e);
      if |list| >= MAX_DELEGATORS then None
      else Some(Delegations(g.delegateOf[d := e], detached.delegators[e := list + [d]]))
  }

  function Revoke(g: Delegations, d: Address): Option<Delegations> {
    if d !in g.delegateOf then None
    else Some(Detach(g, g.delegateOf[d], d).(delegateOf := g.delegateOf - {d}))
  }

  // ----- A depth-one forest -----

  /** The list of `e` is exactly who delegates to `e`, each once, and is stored only when it is not empty. */
  ghost predicate ListExact(g: Delegations, e: Address) {
    var list := DelegatorsOf(g, e);
    && Distinct(list) && |list| <= MAX_DELEGATORS
    && (e in g.delegators ==> list != [])
    && forall d :: d in list <==> IsEdge(g, d, e)
  }

  /** A delegate has not delegated: no chains, no cycles, no self edges. */
  ghost predicate DepthOne(delegateOf: map<Address, Address>) {
    forall d :: d in delegateOf ==> delegateOf[d] !in delegateOf
  }

  ghost predicate Forest(g: Delegations) {
    && (forall e :: ListExact(g, e))
    && DepthOne(g.delegateOf)
  }

  /** In a forest nobody both delegates and is delegated to, and nobody delegates to themselves. */
  lemma RootsAndLeaves(g: Delegations, d: Address)
    requires Forest(g) && d in g.delegateOf
    ensures DelegatorsOf(g, d) == [] && g.delegateOf[d] != d && d in DelegatorsOf(g, g.delegateOf[d])
  {
    assert ListExact(g, d) && ListExact(g, g.delegateOf[d]) && IsEdge(g, d, g.delegateOf[d]);
    if DelegatorsOf(g, d) != [] {
      FirstDelegates(g, d);
    }
  }

  lemma FirstDelegates(g: Delegations, e: Address)
    requires ListExact(g, e) && DelegatorsOf(g, e) != []
    ensures IsEdge(g, DelegatorsOf(g, e)[0], e)
  {
    assert DelegatorsOf(g, e)[0] in DelegatorsOf(g, e);
  }

  /** Taking an edge out of both indexes. */
  lemma DetachExact(g: Delegations, d: Address)
    requires Forest(g) && d in g.delegateOf
    ensures Forest(Revoke(g, d).value) && Revoke(g, d).value.delegateOf == g.delegateOf - {d}
  {
    var h, former := Revoke(g, d).value, g.delegateOf[d];
    forall e ensures ListExact(h, e) {
      assert ListExact(g, e);
      if e == former {
        FilterDistinct(DelegatorsOf(g, e), OtherThan(d));
        assert DelegatorsOf(h, e) == Filter(DelegatorsOf(g, e), OtherThan(d));
      } else {
        assert DelegatorsOf(h, e) == DelegatorsOf(g, e);
      }
      forall x ensures x in DelegatorsOf(h, e) <==> IsEdge(h, x, e) {
        assert x in DelegatorsOf(g, e) <==> IsEdge(g, x, e);
      }
    }
  }

  /** A first-time delegation adds one edge to both indexes. */
  lemma AttachForest(g: Delegations, d: Address, e: Address)
    requires Forest(g) && d !in g.delegateOf && Delegate(g, d, e).Some?
    ensures Forest(Delegate(g, d, e).value)
  {
    var h := Delegate(g, d, e).value;
    forall f ensures ListExact(h, f) {
      assert ListExact(g, f);
      assert d !in DelegatorsOf(g, f);
      assert DelegatorsOf(h, f) == DelegatorsOf(g, f) + if f == e then [d] else [];
      forall x ensures x in DelegatorsOf(h, f) <==> IsEdge(h, x, f) {
        assert x in DelegatorsOf(g, f) <==> IsEdge(g, x, f);
      }
    }
    assert ListExact(g, d);
    forall x | x in h.delegateOf ensures h.delegateOf[x] !in h.delegateOf {
      assert x in DelegatorsOf(g, d) <==> IsEdge(g, x, d);
    }
  }

  /** Re-pointing is revoking and delegating afresh. */
  lemma RepointIsRevokeThenDelegate(g: Delegations, d: Address, e: Address)
    requires Forest(g) && d in g.delegateOf && e != g.delegateOf[d]
    ensures Delegate(g, d, e) == Delegate(Revoke(g, d).value, d, e)
  {
    var h := Revoke(g, d).value;
    RootsAndLeaves(g, d);
    assert DelegatorsOf(h, d) == [];
    assert h.delegateOf[d := e] == g.delegateOf[d := e];
  }

  lemma DelegateForest(g: Delegations, d: Address, e: Address)
    requires Forest(g) && Delegate(g, d, e).Some?
    ensures Forest(Delegate(g, d, e).value)
  {
    if d in g.delegateOf {
      RepointIsRevokeThenDelegate(g, d, e);
      DetachExact(g, d);
      AttachForest(Revoke(g, d).value, d, e);
    } else {
      AttachForest(g, d, e);
    }
  }

  /** The guards refuse exactly what would not be new, would not fit, or would break the depth-one shape. */
  lemma DelegateExact(g: Delegations, d: Address, e: Address)
    requires Forest(g)
    ensures Delegate(g, d, e).Some? <==>
            (!IsEdge(g, d, e) && |DelegatorsOf(g, e)| < 50 && DepthOne(g.delegateOf[d := e]))
    ensures Delegate(g, d, e).Some? ==> Delegate(g, d, e).value.delegateOf == g.delegateOf[d := e]
  {
    var m := g.delegateOf[d := e];
    assert ListExact(g, d);
    if DelegatorsOf(g, d) != [] {
      var x := DelegatorsOf(g, d)[0];
      assert x in DelegatorsOf(g, d) && IsEdge(g, x, d);
      assert x != d && m[x] == d;
    } else {
      forall x | x in m && x != d ensures m[x] != d {
        assert IsEdge(g, x, d) <==> x in DelegatorsOf(g, d);
      }
    }
    assert m[d] == e;
  }

  /** Dropping the element just appended restores the stored list. */
  lemma DetachAppended(g: Delegations, m: map<Address, Address>, d: Address, e: Address)
    requires ListExact(g, e) && d !in DelegatorsOf(g, e)
    ensures Detach(Delegations(m, g.delegators[e := DelegatorsOf(g, e) + [d]]), e, d) == Delegations(m, g.delegators)
  {
    var list := DelegatorsOf(g, e);
    FilterSnoc(list, d, OtherThan(d));
    FilterAll(list, OtherThan(d));
    assert Filter(list + [d], OtherThan(d)) == list;
    PutBack(g.delegators, e, list + [d]);
    assert list != [] <==> e in g.delegators;
  }

  /** Revoking a first-time delegation restores both indexes. */
  lemma RevokeUndoesDelegate(g: Delegations, d: Address, e: Address)
    requires Forest(g) && d !in g.delegateOf && Delegate(g, d, e).Some?
    ensures Revoke(Delegate(g, d, e).value, d) == Some(g)
  {
    assert ListExact(g, e);
    DetachAppended(g, g.delegateOf[d := e], d, e);
    assert g.delegateOf[d := e] - {d} == g.delegateOf;
  }
}
