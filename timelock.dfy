/** The vault contract as an object holding a reference to the token. */
module Timelock {
  import opened Results
  import opened Ledger
  import TimelockSpec
  import opened Token

  class TokenTimelock {
    const token: BaseToken
    const beneficiary: Account
    const releaseTime: nat
    const address: Account

    /** The getters `token`, `beneficiary` and `releaseTime` return what
        was given here, for the vault's whole life. */
    constructor (token: BaseToken, beneficiary: Account, releaseTime: nat, address: Account)
      ensures this.token == token && this.beneficiary == beneficiary
      ensures this.releaseTime == releaseTime && this.address == address
    {
      this.token := token;
      this.beneficiary := beneficiary;
      this.releaseTime := releaseTime;
      this.address := address;
    }

    function Parameters(): TimelockSpec.Lock
    {
      TimelockSpec.Lock(token.address, beneficiary, releaseTime, address)
    }

    method Release(now: nat) returns (r: Outcome)
      requires token.Valid()
      modifies token
      ensures token.Valid()
      ensures Applied(old(token.State()), TimelockSpec.Release(Parameters(), old(token.State()), now),
                      token.State(), r)
    {
      if now < releaseTime {
        return Fail(ReleaseTooEarly);
      }
      var amount := token.BalanceOf(address);
      if amount == 0 {
        return Fail(NothingToRelease);
      }
      r := token.Transfer(address, beneficiary, amount);
    }
  }
}
