/** Oracle stakes: deposits, slashing, and withdrawal after a challenge period. */
module OracleVault {
  import opened Arithmetic
  import opened Maps
  import opened Ledger

  /** A stake is held per data type and oracle. */
  type Key = (Symbol, Address)

  datatype WithdrawalRequest = WithdrawalRequest(amount: int, unlockAt: nat)

  /** Totals since deployment for one stake, and what its latest request asked for and has since lost to
      slashing by the admin. */
  datatype StakeLog = StakeLog(deposited: int, withdrawn: int, slashed: int, requested: int, slashedSince: int)

  const NO_LOG := StakeLog(0, 0, 0, 0, 0)

  datatype Vault = Vault(
    stakes: map<Key, int>,
    withdrawals: map<Key, WithdrawalRequest>,
    ledger: map<Address, int>,
    log: map<Key, StakeLog>)

  function Staked(v: Vault, k: Key): int {
    Get(v.stakes, k, 0)
  }

  function LogOf(v: Vault, k: Key): StakeLog {
    Get(v.log, k, NO_LOG)
  }

  function Deposit(v: Vault, k: Key, amount: int): Option<Vault> {
    var moved, log := Transfer(v.ledger, k.1, SELF, amount), LogOf(v, k);
    if amount <= 0 || moved.None? || !FitsI128(Staked(v, k) + amount) then None
    else Some(v.(
      ledger := moved.value,
      stakes := v.stakes[k := Staked(v, k) + amount],
      log := v.log[k := log.(deposited := log.deposited + amount)]))
  }

  function Request(v: Vault, k: Key, unlockAt: nat): Option<Vault> {
    if Staked(v, k) <= 0 || k in v.withdrawals then None
    else Some(v.(
      withdrawals := v.withdrawals[k := WithdrawalRequest(Staked(v, k), unlockAt)],
      log := v.log[k := LogOf(v, k).(requested := Staked(v, k), slashedSince := 0)]))
  }

  function Cancel(v: Vault, k: Key): Option<Vault> {
    if k !in v.withdrawals then None else Some(v.(withdrawals := v.withdrawals - {k}))
  }

  function Withdraw(v: Vault, k: Key, now: nat): Option<Vault> {
    if k !in v.withdrawals || now < v.withdrawals[k].unlockAt || Staked(v, k) <= 0 then None
    else
      var current, log := Staked(v, k), LogOf(v, k);
      var paid := Min(current, v.withdrawals[k].amount);
      var moved := Transfer(v.ledger, SELF, k.1, paid);
      if moved.None? then None
      else Some(v.(
        stakes := if current == paid then v.stakes - {k} else v.stakes[k := current - paid],
        withdrawals := v.withdrawals - {k},
        ledger := moved.value,
        log := v.log[k := log.(withdrawn := log.withdrawn + paid)]))
  }

  /** Takes up to `amount` from a stake. The tokens go to the treasury when one is set and stay in the
      contract otherwise. */
  function TakeStake(v: Vault, k: Key, amount: int, treasury: Option<Address>): Option<Vault> {
    var slashed, log := Min(amount, Staked(v, k)), LogOf(v, k);
    var moved := if treasury.None? then Some(v.ledger) else Transfer(v.ledger, SELF, treasury.value, slashed);
    if moved.None? then None
    else Some(v.(
      stakes := v.stakes[k := Staked(v, k) - slashed],
      ledger := moved.value,
      log := v.log[k := log.(slashed := log.slashed + slashed)]))
  }

  /** The pending request shrinks by what was slashed and disappears when nothing is left of it. */
  function ShrinkRequest(v: Vault, k: Key, slashed: int): Vault {
    var log := LogOf(v, k);
    v.(withdrawals := if k !in v.withdrawals then v.withdrawals
                      else if v.withdrawals[k].amount - slashed <= 0 then v.withdrawals - {k}
                      else v.withdrawals[k := v.withdrawals[k].(amount := v.withdrawals[k].amount - slashed)],
       log := v.log[k := log.(slashedSince := log.slashedSince + slashed)])
  }

  /** The admin's slash. */
  function Slash(v: Vault, k: Key, amount: int, treasury: Option<Address>): Option<Vault> {
    if amount <= 0 || Staked(v, k) <= 0 then None
    else
      var taken := TakeStake(v, k, amount, treasury);
      if taken.None? then None else Some(ShrinkRequest(taken.value, k, Min(amount, Staked(v, k))))
  }

  /** The automatic penalty for stale submissions, which leaves a pending request alone. */
  function StaleSlash(v: Vault, k: Key, amount: int, treasury: Option<Address>): Option<Vault> {
    if amount <= 0 || Staked(v, k) <= 0 then Some(v) else TakeStake(v, k, amount, treasury)
  }

  // ----- Conservation -----

  /** Every deposited token is still staked, was withdrawn, or was slashed; and a pending request is what
      was asked for minus what slashing took since. */
  ghost predicate KeyConserved(v: Vault, k: Key) {
    var log := LogOf(v, k);
    && (k in v.stakes ==> k in v.log)
    && log.deposited == Staked(v, k) + log.withdrawn + log.slashed
    && Staked(v, k) >= 0 && log.withdrawn >= 0 && log.slashed >= 0 && log.slashedSince >= 0
    && (k in v.withdrawals ==> 0 < v.withdrawals[k].amount == log.requested - log.slashedSince)
  }

  /** So for each stake, and the contract holds at least the sum of all stakes. */
  ghost predicate Conserved(v: Vault) {
    && (forall k :: KeyConserved(v, k))
    && Balance(v.ledger, SELF) >= Total(v.stakes)
  }

  ghost predicate SameElsewhere(v: Vault, w: Vault, k: Key) {
    && v.stakes - {k} == w.stakes - {k}
    && v.log - {k} == w.log - {k}
    && v.withdrawals - {k} == w.withdrawals - {k}
  }

  lemma TotalSplit(m: map<Key, int>, k: Key)
    ensures Total(m) == Get(m, k, 0) + Total(m - {k})
  {
    if k in m {
      TotalRemove(m, k);
    } else {
      assert m - {k} == m;
    }
  }

  lemma KeyElsewhere<V>(m: map<Key, V>, n: map<Key, V>, k: Key, j: Key)
    requires m - {k} == n - {k} && j != k
    ensures j in m <==> j in n
    ensures j in m ==> m[j] == n[j]
  {
    assert j in m <==> j in m - {k};
    assert j in n <==> j in n - {k};
    assert j in m ==> (m - {k})[j] == m[j] && (n - {k})[j] == n[j];
  }

  /** A step that touches one stake only has to account for that stake and for the tokens it moved. */
  lemma OneStakeChanged(v: Vault, w: Vault, k: Key)
    requires Conserved(v) && KeyConserved(w, k) && SameElsewhere(v, w, k)
    requires Balance(w.ledger, SELF) - Staked(w, k) >= Balance(v.ledger, SELF) - Staked(v, k)
    ensures Conserved(w)
  {
    forall j ensures KeyConserved(w, j) {
      assert KeyConserved(v, j);
      if j != k {
        KeyElsewhere(v.stakes, w.stakes, k, j);
        KeyElsewhere(v.log, w.log, k, j);
        KeyElsewhere(v.withdrawals, w.withdrawals, k, j);
      }
    }
    TotalSplit(v.stakes, k);
    TotalSplit(w.stakes, k);
  }

  lemma DepositConserves(v: Vault, k: Key, amount: int)
    requires Conserved(v) && k.1 != SELF && Deposit(v, k, amount).Some?
    ensures Conserved(Deposit(v, k, amount).value)
  {
    assert KeyConserved(v, k);
    OneStakeChanged(v, Deposit(v, k, amount).value, k);
  }

  lemma RequestConserves(v: Vault, k: Key, unlockAt: nat)
    requires Conserved(v) && Request(v, k, unlockAt).Some?
    ensures Conserved(Request(v, k, unlockAt).value)
  {
    assert KeyConserved(v, k);
    OneStakeChanged(v, Request(v, k, unlockAt).value, k);
  }

  lemma CancelConserves(v: Vault, k: Key)
    requires Conserved(v) && Cancel(v, k).Some?
    ensures Conserved(Cancel(v, k).value)
  {
    assert KeyConserved(v, k);
    OneStakeChanged(v, Cancel(v, k).value, k);
  }

  lemma WithdrawConserves(v: Vault, k: Key, now: nat)
    requires Conserved(v) && Withdraw(v, k, now).Some?
    ensures Conserved(Withdraw(v, k, now).value)
  {
    assert KeyConserved(v, k);
    OneStakeChanged(v, Withdraw(v, k, now).value, k);
  }

  lemma SlashConserves(v: Vault, k: Key, amount: int, treasury: Option<Address>)
    requires Conserved(v) && Slash(v, k, amount, treasury).Some?
    ensures Conserved(Slash(v, k, amount, treasury).value)
  {
    assert KeyConserved(v, k);
    OneStakeChanged(v, Slash(v, k, amount, treasury).value, k);
  }

  lemma StaleSlashConserves(v: Vault, k: Key, amount: int, treasury: Option<Address>)
    requires Conserved(v) && StaleSlash(v, k, amount, treasury).Some?
    ensures Conserved(StaleSlash(v, k, amount, treasury).value)
  {
    assert KeyConserved(v, k);
    if amount > 0 && Staked(v, k) > 0 {
      OneStakeChanged(v, StaleSlash(v, k, amount, treasury).value, k);
    }
  }

  lemma ExternalTransferConserves(v: Vault, ledger: map<Address, int>)
    requires Conserved(v) && Balance(ledger, SELF) >= Balance(v.ledger, SELF)
    ensures Conserved(v.(ledger := ledger))
  {
    forall k ensures KeyConserved(v.(ledger := ledger), k) {
      assert KeyConserved(v, k);
    }
  }

  // ----- What conservation buys -----

  lemma StakeCovered(v: Vault, k: Key)
    requires Conserved(v)
    ensures 0 <= Staked(v, k) <= Balance(v.ledger, SELF)
  {
    forall j | j in v.stakes ensures v.stakes[j] >= 0 {
      assert KeyConserved(v, j);
    }
    TotalNonNegative(v.stakes);
    if k in v.stakes {
      TotalCovers(v.stakes, k);
    }
  }

  /** A deposit goes through exactly when it is positive, the owner covers it and the stake stays within i128. Exactly
      that amount leaves the owner, reaches the contract and is added to the stake and to its total; no other stake,
      balance or request changes. */
  lemma DepositExact(v: Vault, k: Key, amount: int)
    requires k.1 != SELF
    ensures Deposit(v, k, amount).Some? <==>
            0 < amount <= Balance(v.ledger, k.1) && FitsI128(Staked(v, k) + amount)
    ensures Deposit(v, k, amount).Some? ==>
              var w := Deposit(v, k, amount).value;
              && Balance(w.ledger, k.1) == Balance(v.ledger, k.1) - amount
              && Balance(w.ledger, SELF) == Balance(v.ledger, SELF) + amount
              && Staked(w, k) == Staked(v, k) + amount
              && LogOf(w, k) == LogOf(v, k).(deposited := LogOf(v, k).deposited + amount)
              && w.withdrawals == v.withdrawals
              && (forall a :: a != k.1 && a != SELF ==> Balance(w.ledger, a) == Balance(v.ledger, a))
              && (forall j :: j != k ==> Staked(w, j) == Staked(v, j) && LogOf(w, j) == LogOf(v, j))
  {
  }

  /** A withdrawal goes through exactly when its guards hold, never failing for want of tokens. It happens
      at or after the unlock time and pays the smaller of the current stake and the requested amount less
      every slash by the admin since the request. */
  lemma WithdrawalExact(v: Vault, k: Key, now: nat)
    requires Conserved(v) && k.1 != SELF
    ensures Withdraw(v, k, now).Some? <==>
            (k in v.withdrawals && now >= v.withdrawals[k].unlockAt && Staked(v, k) > 0)
    ensures Withdraw(v, k, now).Some? ==>
              var w, log := Withdraw(v, k, now).value, LogOf(v, k);
              var paid := Balance(w.ledger, k.1) - Balance(v.ledger, k.1);
              && 0 < paid == Min(Staked(v, k), log.requested - log.slashedSince)
              && Staked(w, k) == Staked(v, k) - paid
              && Balance(w.ledger, SELF) == Balance(v.ledger, SELF) - paid
              && w.withdrawals == v.withdrawals - {k}
              && (forall a :: a != k.1 && a != SELF ==> Balance(w.ledger, a) == Balance(v.ledger, a))
              && (forall j :: j != k ==> Staked(w, j) == Staked(v, j) && LogOf(w, j) == LogOf(v, j))
  {
    StakeCovered(v, k);
    assert KeyConserved(v, k);
  }

  /** Where slashed tokens go: to the treasury when one is set, and nowhere otherwise. */
  ghost predicate Slashed(v: Vault, w: Vault, k: Key, amount: int, treasury: Option<Address>) {
    && Staked(w, k) == Staked(v, k) - amount && LogOf(w, k).slashed == LogOf(v, k).slashed + amount
    && (treasury.None? || treasury.value == SELF ==> forall a :: Balance(w.ledger, a) == Balance(v.ledger, a))
    && (treasury.Some? && treasury.value != SELF ==>
          && Balance(w.ledger, treasury.value) == Balance(v.ledger, treasury.value) + amount
          && Balance(w.ledger, SELF) == Balance(v.ledger, SELF) - amount
          && (forall a :: a != treasury.value && a != SELF ==> Balance(w.ledger, a) == Balance(v.ledger, a)))
    && (forall j :: j != k ==> Staked(w, j) == Staked(v, j) && LogOf(w, j) == LogOf(v, j))
  }

  /** A slash goes through exactly when there is something to slash. It takes the amount or the whole stake if that is
      less, and as much from a pending request, which disappears when nothing is left of it. */
  lemma SlashExact(v: Vault, k: Key, amount: int, treasury: Option<Address>)
    requires Conserved(v)
    ensures Slash(v, k, amount, treasury).Some? <==> amount > 0 && Staked(v, k) > 0
    ensures Slash(v, k, amount, treasury).Some? ==>
              var w, taken := Slash(v, k, amount, treasury).value, if amount < Staked(v, k) then amount else Staked(v, k);
              && Slashed(v, w, k, taken, treasury)
              && w.withdrawals - {k} == v.withdrawals - {k}
              && (k in w.withdrawals <==> k in v.withdrawals && v.withdrawals[k].amount > taken)
              && (k in w.withdrawals ==>
                    w.withdrawals[k] == WithdrawalRequest(v.withdrawals[k].amount - taken, v.withdrawals[k].unlockAt))
  {
    StakeCovered(v, k);
  }

  /** The automatic penalty never fails; it takes from the stake alone and leaves requests as they are. */
  lemma StaleSlashExact(v: Vault, k: Key, amount: int, treasury: Option<Address>)
    requires Conserved(v)
    ensures StaleSlash(v, k, amount, treasury).Some?
    ensures var w := StaleSlash(v, k, amount, treasury).value;
      && w.withdrawals == v.withdrawals
      && (amount <= 0 || Staked(v, k) <= 0 ==> w == v)
      && (amount > 0 && Staked(v, k) > 0 ==> Slashed(v, w, k, if amount < Staked(v, k) then amount else Staked(v, k), treasury))
  {
    StakeCovered(v, k);
  }

  /** A request is for the whole stake, and there is one at a time; taking it back needs one. */
  lemma RequestExact(v: Vault, k: Key, unlockAt: nat)
    ensures Request(v, k, unlockAt).Some? <==> Staked(v, k) > 0 && k !in v.withdrawals
    ensures Request(v, k, unlockAt).Some? ==>
              var w := Request(v, k, unlockAt).value;
              && w == v.(withdrawals := v.withdrawals[k := WithdrawalRequest(Staked(v, k), unlockAt)], log := w.log)
              && LogOf(w, k) == LogOf(v, k).(requested := Staked(v, k), slashedSince := 0)
              && (forall j :: j != k ==> LogOf(w, j) == LogOf(v, j))
    ensures Cancel(v, k).Some? <==> k in v.withdrawals
    ensures Cancel(v, k).Some? ==> Cancel(v, k).value == v.(withdrawals := v.withdrawals - {k})
  {
  }
}
