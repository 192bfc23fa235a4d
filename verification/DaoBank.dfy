/** The governance tokens the DAO holds: proposal deposits, locked votes, and what others sent it. */
module DaoBank {
  import opened Arithmetic
  import opened Maps
  import opened Ledger

  /** A proposal and a voter. */
  type Ballot = (nat, Address)

  /** `escrow` and `external` are history: how much of each proposal's deposit has not left again, and the
      tokens that reached the contract by any other way than its own entry points. */
  datatype Bank = Bank(ledger: map<Address, int>, escrow: map<nat, int>, locked: map<Ballot, int>, external: int)

  function Held(b: Bank, id: nat): int {
    Get(b.escrow, id, 0)
  }

  function LockOf(b: Bank, k: Ballot): int {
    Get(b.locked, k, 0)
  }

  function TakeDeposit(b: Bank, id: nat, from: Address, amount: int): Option<Bank> {
    var moved := Transfer(b.ledger, from, SELF, amount);
    if moved.None? then None else Some(b.(ledger := moved.value, escrow := b.escrow[id := amount]))
  }

  function Release(b: Bank, id: nat, to: Address, amount: int): Option<Bank> {
    var moved := Transfer(b.ledger, SELF, to, amount);
    if moved.None? then None else Some(b.(ledger := moved.value, escrow := b.escrow[id := Held(b, id) - amount]))
  }

  function Lock(b: Bank, k: Ballot, amount: int): Option<Bank> {
    var moved := Transfer(b.ledger, k.1, SELF, amount);
    if moved.None? then None else Some(b.(ledger := moved.value, locked := b.locked[k := amount]))
  }

  /** A further vote of a batch, which shares the lock of the first one. */
  function ShareLock(b: Bank, k: Ballot): Bank {
    b.(locked := b.locked[k := 0])
  }

  function Unlock(b: Bank, k: Ballot): Option<Bank> {
    var moved := Transfer(b.ledger, SELF, k.1, LockOf(b, k));
    if moved.None? then None else Some(b.(ledger := moved.value, locked := b.locked - {k}))
  }

  /** A transfer that does not involve the contract's code. */
  function Outside(b: Bank, from: Address, to: Address, amount: int): Option<Bank> {
    var moved := Transfer(b.ledger, from, to, amount);
    if moved.None? then None
    else Some(b.(ledger := moved.value, external := b.external + if to == SELF then amount else 0))
  }

  // ----- Custody -----

  ghost predicate NonNegative<K(!new)>(m: map<K, int>) {
    forall k :: k in m ==> m[k] >= 0
  }

  /** The contract holds exactly the deposits not yet released, the locked votes, and the external tokens. */
  ghost predicate Conserved(b: Bank) {
    && Balance(b.ledger, SELF) == b.external + Total(b.escrow) + Total(b.locked)
    && NonNegative(b.escrow) && NonNegative(b.locked) && b.external >= 0
  }

  lemma DepositConserves(b: Bank, id: nat, from: Address, amount: int)
    requires Conserved(b) && from != SELF && id !in b.escrow && TakeDeposit(b, id, from, amount).Some?
    ensures Conserved(TakeDeposit(b, id, from, amount).value)
  {
    TotalUpdate(b.escrow, id, amount);
  }

  lemma ReleaseConserves(b: Bank, id: nat, to: Address, amount: int)
    requires Conserved(b) && to != SELF && id in b.escrow && amount <= b.escrow[id]
    requires Release(b, id, to, amount).Some?
    ensures Conserved(Release(b, id, to, amount).value)
  {
    TotalUpdate(b.escrow, id, b.escrow[id] - amount);
  }

  lemma LockConserves(b: Bank, k: Ballot, amount: int)
    requires Conserved(b) && k.1 != SELF && k !in b.locked && Lock(b, k, amount).Some?
    ensures Conserved(Lock(b, k, amount).value)
  {
    TotalUpdate(b.locked, k, amount);
  }

  lemma ShareLockConserves(b: Bank, k: Ballot)
    requires Conserved(b) && k !in b.locked
    ensures Conserved(ShareLock(b, k))
  {
    TotalUpdate(b.locked, k, 0);
  }

  lemma UnlockConserves(b: Bank, k: Ballot)
    requires Conserved(b) && k.1 != SELF && k in b.locked && Unlock(b, k).Some?
    ensures Conserved(Unlock(b, k).value)
  {
    TotalRemove(b.locked, k);
  }

  lemma OutsideConserves(b: Bank, from: Address, to: Address, amount: int)
    requires Conserved(b) && from != SELF && Outside(b, from, to, amount).Some?
    ensures Conserved(Outside(b, from, to, amount).value)
  {
  }

  /** Every promise is covered: no refund or withdrawal can fail for want of tokens. */
  lemma Covered(b: Bank, id: nat, k: Ballot)
    requires Conserved(b)
    ensures 0 <= Held(b, id) <= Balance(b.ledger, SELF)
    ensures 0 <= LockOf(b, k) <= Balance(b.ledger, SELF)
  {
    TotalNonNegative(b.escrow);
    TotalNonNegative(b.locked);
    if id in b.escrow {
      TotalCovers(b.escrow, id);
    }
    if k in b.locked {
      TotalCovers(b.locked, k);
    }
  }

  // ----- The proportional refund -----

  /** Computed in two parts so that the product cannot overflow. */
  function RefundOf(deposit: nat, bps: nat): nat {
    deposit / BPS * bps + deposit % BPS * bps / BPS
  }

  /** The split formula is the exact proportional share, and never exceeds the deposit. */
  lemma RefundIsProportional(deposit: nat, bps: nat)
    requires bps <= BPS
    ensures RefundOf(deposit, bps) == deposit * bps / BPS
    ensures RefundOf(deposit, bps) <= deposit
    ensures bps == BPS ==> RefundOf(deposit, bps) == deposit
  {
    var q, r := deposit / BPS, deposit % BPS;
    assert deposit * bps == (q * bps) * BPS + r * bps by {
      assert deposit == q * BPS + r;
    }
    ShiftQuotient(r * bps, q * bps);
    MulMono(bps, BPS, q);
    MulMono(bps, BPS, r);
    TruncDivHull(r * bps, BPS, 0, r);
  }

  lemma ShiftQuotient(a: int, k: int)
    ensures (k * BPS + a) / BPS == k + a / BPS
  {
  }
}
