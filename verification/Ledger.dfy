/** Token balances and keyed storage, as the contracts see them. */
module Ledger {
  import opened Arithmetic

  type Address = nat
  type Symbol = nat

  /** The account of the contract under consideration. */
  const SELF: Address := 0

  /** A storage read with a default for a missing key. */
  function Get<K, V>(m: map<K, V>, k: K, default: V): V {
    if k in m then m[k] else default
  }

  function Balance(ledger: map<Address, int>, account: Address): int {
    Get(ledger, account, 0)
  }

  /** A token transfer: aborts on a negative amount or an uncovered one. */
  function Transfer(ledger: map<Address, int>, from: Address, to: Address, amount: int): (after: Option<map<Address, int>>)
    ensures after.Some? <==> 0 <= amount <= Balance(ledger, from)
    ensures after.Some? && from != to ==>
              && Balance(after.value, from) == Balance(ledger, from) - amount
              && Balance(after.value, to) == Balance(ledger, to) + amount
    ensures after.Some? && from == to ==> Balance(after.value, from) == Balance(ledger, from)
    ensures after.Some? ==>
              forall a :: a != from && a != to ==> Balance(after.value, a) == Balance(ledger, a)
  {
    if amount < 0 || Balance(ledger, from) < amount then None
    else
      var debited := ledger[from := Balance(ledger, from) - amount];
      Some(debited[to := Balance(debited, to) + amount])
  }
}
