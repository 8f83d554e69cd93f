/** The token contract as an object: its fields are updated in place, and
    every method is tied to the operation of the same name in TokenSpec. */
module Token {
  import opened Results
  import opened Ledger
  import TokenSpec

  class BaseToken {
    const address: Account
    const owner: Account
    const cap: Option<nat>
    var minters: set<Account>
    var operators: set<Account>
    var mintingFinished: bool
    var balances: Balances
    var allowances: map<(Account, Account), nat>
    var totalSupply: nat

    /** The contract's storage as a value. */
    function State(): TokenSpec.TokenState
      reads this
    {
      TokenSpec.TokenState(owner, minters, operators, mintingFinished, balances, allowances,
                           totalSupply, cap)
    }

    ghost predicate Valid()
      reads this
    {
      TokenSpec.Invariant(State())
    }

    /** Deploys the token at `address` for `owner`; `cap` is the optional
        token cap. */
    constructor (address: Account, owner: Account, cap: Option<nat>)
      requires address != ZERO_ADDRESS
      ensures Valid()
      ensures this.address == address
      ensures State() == TokenSpec.Deploy(owner, cap)
    {
      this.address := address;
      this.owner := owner;
      this.cap := cap;
      minters := {owner};
      operators := {};
      mintingFinished := false;
      balances := map[];
      allowances := map[];
      totalSupply := 0;
    }

    function BalanceOf(a: Account): (n: nat)
      reads this
      ensures n == Ledger.BalanceOf(State().balances, a)
    {
      Ledger.BalanceOf(balances, a)
    }

    function HasRole(a: Account, role: TokenSpec.Role): (b: bool)
      reads this
      ensures b == TokenSpec.HasRole(State(), a, role)
    {
      match role
      case Minter => a in minters
      case Operator => a in operators
    }

    method AddMinter(caller: Account, account: Account) returns (r: Outcome)
      requires Valid()
      modifies this
      ensures Valid()
      ensures Applied(old(State()), TokenSpec.AddMinter(old(State()), caller, account), State(), r)
    {
      if caller != owner {
        return Fail(Unauthorized);
      }
      minters := minters + {account};
      r := Pass;
    }

    method AddOperator(caller: Account, account: Account) returns (r: Outcome)
      requires Valid()
      modifies this
      ensures Valid()
      ensures Applied(old(State()), TokenSpec.AddOperator(old(State()), caller, account), State(), r)
    {
      if caller != owner {
        return Fail(Unauthorized);
      }
      operators := operators + {account};
      r := Pass;
    }

    method RemoveOperator(caller: Account, account: Account) returns (r: Outcome)
      requires Valid()
      modifies this
      ensures Valid()
      ensures Applied(old(State()), TokenSpec.RemoveOperator(old(State()), caller, account), State(), r)
    {
      if caller != owner {
        return Fail(Unauthorized);
      }
      operators := operators - {account};
      r := Pass;
    }

    method Mint(caller: Account, to: Account, amount: nat) returns (r: Outcome)
      requires Valid()
      modifies this
      ensures Valid()
      ensures Applied(old(State()), TokenSpec.Mint(old(State()), caller, to, amount), State(), r)
    {
      if caller !in minters {
        return Fail(Unauthorized);
      }
      if mintingFinished {
        return Fail(MintingClosed);
      }
      if !TokenSpec.WithinSupplyLimits(cap, totalSupply + amount) {
        return Fail(Overflow);
      }
      totalSupply := totalSupply + amount;
      balances := balances[to := Ledger.BalanceOf(balances, to) + amount];
      assert State() == TokenSpec.Mint(old(State()), caller, to, amount).value;
      r := Pass;
    }

    method FinishMinting(caller: Account) returns (r: Outcome)
      requires Valid()
      modifies this
      ensures Valid()
      ensures Applied(old(State()), TokenSpec.FinishMinting(old(State()), caller), State(), r)
    {
      if caller != owner {
        return Fail(Unauthorized);
      }
      if mintingFinished {
        return Fail(AlreadyFinished);
      }
      mintingFinished := true;
      r := Pass;
    }

    method Approve(caller: Account, spender: Account, amount: nat)
      requires Valid()
      modifies this
      ensures Valid()
      ensures State() == TokenSpec.Approve(old(State()), caller, spender, amount)
    {
      allowances := allowances[(caller, spender) := amount];
    }

    method Transfer(caller: Account, to: Account, amount: nat) returns (r: Outcome)
      requires Valid()
      modifies this
      ensures Valid()
      ensures Applied(old(State()), TokenSpec.Transfer(old(State()), caller, to, amount), State(), r)
    {
      if !(mintingFinished || caller in operators) {
        return Fail(TransferRestricted);
      }
      var fromBalance := Ledger.BalanceOf(balances, caller);
      if amount > fromBalance {
        return Fail(InsufficientBalance);
      }
      balances := balances[caller := fromBalance - amount];
      balances := balances[to := Ledger.BalanceOf(balances, to) + amount];
      assert State() == TokenSpec.Transfer(old(State()), caller, to, amount).value;
      r := Pass;
    }

    method TransferFrom(caller: Account, from: Account, to: Account, amount: nat) returns (r: Outcome)
      requires Valid()
      modifies this
      ensures Valid()
      ensures Applied(old(State()), TokenSpec.TransferFrom(old(State()), caller, from, to, amount), State(), r)
    {
      if !(mintingFinished || from in operators) {
        return Fail(TransferRestricted);
      }
      var fromBalance := Ledger.BalanceOf(balances, from);
      if amount > fromBalance {
        return Fail(InsufficientBalance);
      }
      var allowed := if (from, caller) in allowances then allowances[(from, caller)] else 0;
      if amount > allowed {
        return Fail(InsufficientAllowance);
      }
      balances := balances[from := fromBalance - amount];
      balances := balances[to := Ledger.BalanceOf(balances, to) + amount];
      allowances := allowances[(from, caller) := allowed - amount];
      assert State() == TokenSpec.TransferFrom(old(State()), caller, from, to, amount).value;
      r := Pass;
    }

    /** The receiver's answer to the notification is `acknowledged`; a
        refusal reverts the transfer already made. */
    method TransferAndCall(caller: Account, to: Account, amount: nat, acknowledged: bool) returns (r: Outcome)
      requires Valid()
      modifies this
      ensures Valid()
      ensures Applied(old(State()), TokenSpec.TransferAndCall(old(State()), caller, to, amount, acknowledged),
                      State(), r)
    {
      var before := balances;
      r := Transfer(caller, to, amount);
      if r.Pass? && !acknowledged {
        balances := before;
        r := Fail(ReceiverRejected);
      }
    }

    method TransferFromAndCall(caller: Account, from: Account, to: Account, amount: nat,
                               acknowledged: bool) returns (r: Outcome)
      requires Valid()
      modifies this
      ensures Valid()
      ensures Applied(old(State()),
                      TokenSpec.TransferFromAndCall(old(State()), caller, from, to, amount, acknowledged),
                      State(), r)
    {
      var before, allowedBefore := balances, allowances;
      r := TransferFrom(caller, from, to, amount);
      if r.Pass? && !acknowledged {
        balances, allowances := before, allowedBefore;
        r := Fail(ReceiverRejected);
      }
    }
  }
}
