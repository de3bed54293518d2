/**
 The account-balance ledger the evaluators credit and debit. It is kept
 outside this core (database::adjust_balance); here it is a finite map in
 which a missing entry reads as a zero balance.
 */
module Ledger {
  import opened Types

  type Balances = map<(Account, AssetId), int>

  /** `get_balance(a, id)`: an account with no entry holds nothing. */
  function Balance(b: Balances, a: Account, id: AssetId): int
  {
    if (a, id) in b then b[(a, id)] else 0
  }

  /** What a transfer of `x` to account `to` adds to the balance `(a, id)`. */
  function Credited(x: Asset, to: Account, a: Account, id: AssetId): int
  {
    if a == to && id == x.assetId then x.amount else 0
  }

  /** `adjust_balance(a, delta)`: a negative delta is a debit. */
  function Adjust(b: Balances, to: Account, delta: Asset): (r: Balances)
    ensures forall a, id :: Balance(r, a, id) == Balance(b, a, id) + Credited(delta, to, a, id)
  {
    b[(to, delta.assetId) := Balance(b, to, delta.assetId) + delta.amount]
  }

  /** The opposite movement: a credit becomes a debit of the same quantity. */
  function Negate(x: Asset): Asset
  {
    Asset(-x.amount, x.assetId)
  }

  /** Two ledgers that report the same balance for every account and asset. */
  ghost predicate SameBalances(b1: Balances, b2: Balances)
  {
    forall a, id :: Balance(b1, a, id) == Balance(b2, a, id)
  }

  /** A debit undoes the credit of the same asset to the same account. */
  lemma AdjustThenNegate(b: Balances, to: Account, x: Asset)
    ensures SameBalances(Adjust(Adjust(b, to, x), to, Negate(x)), b)
  {
  }
}
