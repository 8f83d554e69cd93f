/** The distributor contract as an object holding a reference to the
    token; its batch send moves value only through the token's own
    `transfer`. */
module Delivery {
  import opened Results
  import opened Ledger
  import DeliverySpec
  import opened Token

  class CappedDelivery {
    const owner: Account
    const address: Account
    const token: BaseToken
    const cap: nat
    const allowMultipleSend: bool
    var totalSent: nat
    var sentTo: set<Account>

    /** The contract's storage as a value. */
    function State(): DeliverySpec.DeliveryState
      reads this
    {
      DeliverySpec.DeliveryState(owner, address, token.address, cap, allowMultipleSend, totalSent, sentTo)
    }

    ghost predicate Valid()
      reads this, token
    {
      DeliverySpec.Invariant(State()) && token.Valid()
    }

    /** Stores the arguments once `Deploy` has checked them. */
    constructor (owner: Account, address: Account, token: BaseToken, cap: nat, allowMultipleSend: bool)
      requires token.address != ZERO_ADDRESS && cap > 0
      ensures this.token == token
      ensures State() == DeliverySpec.Deploy(owner, address, token.address, cap, allowMultipleSend).value
    {
      this.owner := owner;
      this.address := address;
      this.token := token;
      this.cap := cap;
      this.allowMultipleSend := allowMultipleSend;
      totalSent := 0;
      sentTo := {};
    }

    /** Deployment: a null `token` is the zero address. */
    static method Deploy(owner: Account, address: Account, token: BaseToken?, cap: nat,
                         allowMultipleSend: bool) returns (r: Outcome, d: CappedDelivery?)
      requires token != null ==> token.Valid()
      ensures var res := DeliverySpec.Deploy(owner, address, if token == null then ZERO_ADDRESS else token.address,
                                             cap, allowMultipleSend);
              r == OutcomeOf(res) && (d != null <==> res.Ok?)
              && (d != null ==> fresh(d) && d.token == token && d.Valid() && d.State() == res.value)
    {
      if token == null || token.address == ZERO_ADDRESS {
        return Fail(InvalidToken), null;
      }
      if cap == 0 {
        return Fail(InvalidCap), null;
      }
      d := new CappedDelivery(owner, address, token, cap, allowMultipleSend);
      r := Pass;
    }

    /** Every check is made before the first transfer, and the bookkeeping
        is written before the transfers are made; the transfers then go out
        one at a time through the token. */
    method MultiSend(caller: Account, recipients: seq<Account>, amounts: seq<nat>) returns (r: Outcome)
      requires Valid()
      modifies this, token
      ensures Valid()
      ensures var res := DeliverySpec.MultiSend(old(State()), old(token.State()), caller, recipients, amounts);
              r == OutcomeOf(res)
              && (res.Ok? ==> State() == res.value.0 && token.State() == res.value.1)
              && (res.Err? ==> State() == old(State()) && token.State() == old(token.State()))
    {
      if caller != owner {
        return Fail(Unauthorized);
      }
      if |recipients| != |amounts| {
        return Fail(LengthMismatch);
      }
      if !token.mintingFinished {
        return Fail(IssuanceNotFinished);
      }
      var batchTotal := SumOf(amounts);
      if totalSent + batchTotal > cap {
        return Fail(CapExceeded);
      }
      if !allowMultipleSend && !DeliverySpec.FirstTimeRecipients(sentTo, recipients) {
        return Fail(AlreadyReceived);
      }
      var planned := DeliverySpec.DeliverAll(token.State(), address, recipients, amounts);
      if planned.Err? {
        return Fail(planned.error);
      }
      totalSent := totalSent + batchTotal;
      sentTo := sentTo + DeliverySpec.Recipients(recipients);
      var i := 0;
      while i < |recipients|
        invariant 0 <= i <= |recipients|
        invariant token.Valid()
        invariant DeliverySpec.DeliverAll(token.State(), address, recipients[i..], amounts[i..]) == planned
        invariant totalSent == old(totalSent) + batchTotal
        invariant sentTo == old(sentTo) + DeliverySpec.Recipients(recipients)
      {
        assert recipients[i..][1..] == recipients[i + 1..] && amounts[i..][1..] == amounts[i + 1..];
        var sent := token.Transfer(address, recipients[i], amounts[i]);
        i := i + 1;
      }
      r := Pass;
    }
  }
}
