/** The balance bookkeeping underneath the token: accounts, balances and
    their sum. */
module Ledger {

  /** An address. Zero is the zero address. */
  type Account = nat

  const ZERO_ADDRESS: Account := 0

  /** The largest value a `uint256` holds. */
  const MAX_UINT256: nat := 0xFFFF_FFFF_FFFF_FFFF_FFFF_FFFF_FFFF_FFFF_FFFF_FFFF_FFFF_FFFF_FFFF_FFFF_FFFF_FFFF

  /** Balances; an account that is not a key holds nothing. */
  type Balances = map<Account, nat>

  function BalanceOf(b: Balances, a: Account): nat
  {
    if a in b then b[a] else 0
  }

  /** The sum of all balances. */
  ghost function Total(b: Balances): nat
    decreases |b|
  {
    if b == map[] then 0
    else
      var a :| a in b;
      b[a] + Total(b - {a})
  }

  /** Any key can be taken out first: the sum does not depend on the order. */
  lemma {:induction false} TotalRemove(b: Balances, a: Account)
    requires a in b
    ensures Total(b) == b[a] + Total(b - {a})
    decreases |b|
  {
    var x :| x in b && Total(b) == b[x] + Total(b - {x});
    if x != a {
      TotalRemove(b - {x}, a);
      TotalRemove(b - {a}, x);
      assert b - {x} - {a} == b - {a} - {x};
    }
  }

  /** Overwriting one balance changes the sum by the difference. */
  lemma TotalUpdate(b: Balances, a: Account, v: nat)
    ensures Total(b[a := v]) + BalanceOf(b, a) == Total(b) + v
  {
    TotalRemove(b[a := v], a);
    if a in b {
      TotalRemove(b, a);
      assert b[a := v] - {a} == b - {a};
    } else {
      assert b[a := v] - {a} == b;
    }
  }

  /** No single balance exceeds the sum of all of them. */
  lemma BalanceWithinTotal(b: Balances, a: Account)
    ensures BalanceOf(b, a) <= Total(b)
  {
    if a in b {
      TotalRemove(b, a);
    }
  }

  /** Moves `amount` from `from` to `to`: the debit is written before the
      credit is read, so a transfer to oneself leaves every balance as it was. */
  function Move(b: Balances, from: Account, to: Account, amount: nat): (r: Balances)
    requires amount <= BalanceOf(b, from)
    ensures from != to ==> BalanceOf(r, from) == BalanceOf(b, from) - amount
    ensures from != to ==> BalanceOf(r, to) == BalanceOf(b, to) + amount
    ensures from == to ==> BalanceOf(r, from) == BalanceOf(b, from)
    ensures forall a :: a != from && a != to ==> BalanceOf(r, a) == BalanceOf(b, a)
    ensures Total(r) == Total(b)
  {
    var debited := b[from := BalanceOf(b, from) - amount];
    TotalUpdate(b, from, BalanceOf(b, from) - amount);
    TotalUpdate(debited, to, BalanceOf(debited, to) + amount);
    debited[to := BalanceOf(debited, to) + amount]
  }

  /** Adds `amount` to `to`'s balance, as minting does. */
  function Credit(b: Balances, to: Account, amount: nat): (r: Balances)
    ensures BalanceOf(r, to) == BalanceOf(b, to) + amount
    ensures forall a :: a != to ==> BalanceOf(r, a) == BalanceOf(b, a)
    ensures Total(r) == Total(b) + amount
  {
    TotalUpdate(b, to, BalanceOf(b, to) + amount);
    b[to := BalanceOf(b, to) + amount]
  }

  /** The sum of a list of amounts. */
  function SumOf(amounts: seq<nat>): nat
  {
    if amounts == [] then 0 else amounts[0] + SumOf(amounts[1..])
  }
}
