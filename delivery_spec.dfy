/** The capped batch distributor (CappedDelivery) as values: construction,
    the batch send and what holds of every sequence of batches. */
module DeliverySpec {
  import opened Results
  import opened Ledger
  import TokenSpec

  datatype DeliveryState = DeliveryState(
    owner: Account,
    address: Account,
    token: Account,
    cap: nat,
    allowMultipleSend: bool,
    totalSent: nat,
    sentTo: set<Account>)

  /** A deployed distributor names a token, has a positive cap and has
      never sent more than its cap. */
  predicate Invariant(d: DeliveryState)
  {
    d.token != ZERO_ADDRESS && d.cap > 0 && d.totalSent <= d.cap
  }

  /** Construction rejects the zero token address and a zero cap; either
      policy for repeated sends is accepted. */
  function Deploy(owner: Account, address: Account, token: Account, cap: nat,
                  allowMultipleSend: bool): (r: Result<DeliveryState>)
    ensures r.Ok? <==> token != ZERO_ADDRESS && cap > 0
    ensures r.Err? ==> r.error == (if token == ZERO_ADDRESS then InvalidToken else InvalidCap)
    ensures r.Ok? ==> Invariant(r.value) && r.value.totalSent == 0 && r.value.sentTo == {}
    ensures r.Ok? ==> r.value.owner == owner && r.value.address == address && r.value.token == token
                      && r.value.cap == cap && r.value.allowMultipleSend == allowMultipleSend
  {
    if token == ZERO_ADDRESS then Err(InvalidToken)
    else if cap == 0 then Err(InvalidCap)
    else Ok(DeliveryState(owner, address, token, cap, allowMultipleSend, 0, {}))
  }

  /** No account appears twice in the batch. */
  predicate Distinct(recipients: seq<Account>)
  {
    forall i, j :: 0 <= i < j < |recipients| ==> recipients[i] != recipients[j]
  }

  /** Every recipient of the batch is new: none appears twice and none has
      received before. */
  predicate FirstTimeRecipients(sentTo: set<Account>, recipients: seq<Account>)
  {
    Distinct(recipients) && forall i :: 0 <= i < |recipients| ==> recipients[i] !in sentTo
  }

  function Recipients(recipients: seq<Account>): set<Account>
  {
    set a | a in recipients
  }

  /** How much of the batch is addressed to `a`. */
  function Received(recipients: seq<Account>, amounts: seq<nat>, a: Account): nat
    requires |recipients| == |amounts|
  {
    if recipients == [] then 0
    else (if recipients[0] == a then amounts[0] else 0) + Received(recipients[1..], amounts[1..], a)
  }

  /** The batch's transfers out of `from`, made one after the other
      through the token's own `transfer`; the first that reverts reverts
      them all. When `from` is not among the recipients this succeeds
      exactly when the gate lets `from` send and its balance covers the
      whole batch, and then `from` pays the batch total and every other
      account gains what the batch addresses to it. */
  function DeliverAll(t: TokenSpec.TokenState, from: Account, recipients: seq<Account>,
                      amounts: seq<nat>): (r: Result<TokenSpec.TokenState>)
    requires |recipients| == |amounts|
    ensures from !in recipients ==>
              (r.Ok? <==> (recipients == [] || TokenSpec.CanTransfer(t, from))
                          && SumOf(amounts) <= BalanceOf(t.balances, from))
    ensures r.Ok? && from !in recipients ==>
              BalanceOf(r.value.balances, from) == BalanceOf(t.balances, from) - SumOf(amounts)
    ensures r.Ok? && from !in recipients ==>
              forall a :: a != from ==>
                BalanceOf(r.value.balances, a) == BalanceOf(t.balances, a) + Received(recipients, amounts, a)
    ensures r.Err? ==> r.error == TransferRestricted || r.error == InsufficientBalance
    ensures r.Ok? ==> Total(r.value.balances) == Total(t.balances)
    ensures r.Ok? ==> r.value.(balances := t.balances) == t
    ensures TokenSpec.Invariant(t) && r.Ok? ==> TokenSpec.Invariant(r.value)
    decreases |recipients|
  {
    if recipients == [] then Ok(t)
    else
      match TokenSpec.Transfer(t, from, recipients[0], amounts[0])
      case Err(e) => Err(e)
      case Ok(next) => DeliverAll(next, from, recipients[1..], amounts[1..])
  }

  /** `multiSend`: owner-only; the lists must pair up; the token's minting
      must be finished; the lifetime total must stay within the cap; under
      the single-send policy every recipient must be new; then every
      transfer must go through. Any failure reverts the whole batch. */
  function MultiSend(d: DeliveryState, t: TokenSpec.TokenState, caller: Account,
                     recipients: seq<Account>, amounts: seq<nat>)
    : (r: Result<(DeliveryState, TokenSpec.TokenState)>)
    ensures caller != d.owner ==> r == Err(Unauthorized)
    ensures caller == d.owner && |recipients| != |amounts| ==> r == Err(LengthMismatch)
    ensures caller == d.owner && |recipients| == |amounts| && !t.mintingFinished ==>
              r == Err(IssuanceNotFinished)
    ensures (caller == d.owner && |recipients| == |amounts| && t.mintingFinished
             && d.totalSent + SumOf(amounts) > d.cap) ==> r == Err(CapExceeded)
    ensures (caller == d.owner && |recipients| == |amounts| && t.mintingFinished
             && d.totalSent + SumOf(amounts) <= d.cap
             && !d.allowMultipleSend && !FirstTimeRecipients(d.sentTo, recipients)) ==> r == Err(AlreadyReceived)
    ensures (caller == d.owner && |recipients| == |amounts| && t.mintingFinished
             && d.totalSent + SumOf(amounts) <= d.cap
             && (d.allowMultipleSend || FirstTimeRecipients(d.sentTo, recipients))) ==>
              OutcomeOf(r) == OutcomeOf(DeliverAll(t, d.address, recipients, amounts))
    ensures r.Ok? ==> caller == d.owner && |recipients| == |amounts| && t.mintingFinished
    ensures r.Ok? ==> r.value.0.totalSent == d.totalSent + SumOf(amounts) <= d.cap
    ensures r.Ok? ==> r.value.0.sentTo == d.sentTo + Recipients(recipients)
    ensures r.Ok? && !d.allowMultipleSend ==> FirstTimeRecipients(d.sentTo, recipients)
    ensures r.Ok? ==> r.value.0.(totalSent := d.totalSent, sentTo := d.sentTo) == d
    ensures r.Ok? ==> r.value.1.(balances := t.balances) == t
    ensures r.Ok? ==> Total(r.value.1.balances) == Total(t.balances)
    ensures r.Ok? && d.address !in recipients ==>
              BalanceOf(r.value.1.balances, d.address) == BalanceOf(t.balances, d.address) - SumOf(amounts)
    ensures r.Ok? && d.address !in recipients ==>
              forall a :: a != d.address ==>
                BalanceOf(r.value.1.balances, a) == BalanceOf(t.balances, a) + Received(recipients, amounts, a)
    ensures Invariant(d) && r.Ok? ==> Invariant(r.value.0)
    ensures TokenSpec.Invariant(t) && r.Ok? ==> TokenSpec.Invariant(r.value.1)
  {
    if caller != d.owner then Err(Unauthorized)
    else if |recipients| != |amounts| then Err(LengthMismatch)
    else if !t.mintingFinished then Err(IssuanceNotFinished)
    else if d.totalSent + SumOf(amounts) > d.cap then Err(CapExceeded)
    else if !d.allowMultipleSend && !FirstTimeRecipients(d.sentTo, recipients) then Err(AlreadyReceived)
    else
      match DeliverAll(t, d.address, recipients, amounts)
      case Err(e) => Err(e)
      case Ok(next) =>
        Ok((d.(totalSent := d.totalSent + SumOf(amounts), sentTo := d.sentTo + Recipients(recipients)), next))
  }

  /** While the token's minting is open, `multiSend` reverts, however well
      the distributor is funded. */
  lemma BlockedUntilMintingFinished(d: DeliveryState, t: TokenSpec.TokenState,
                                    recipients: seq<Account>, amounts: seq<nat>)
    requires !t.mintingFinished && |recipients| == |amounts|
    requires SumOf(amounts) <= BalanceOf(t.balances, d.address)
    ensures MultiSend(d, t, d.owner, recipients, amounts) == Err(IssuanceNotFinished)
  {
  }

  /** A distributor funded with at least what remains of its cap can make
      every batch its checks admit, after minting is finished, and stays
      funded for the rest of its cap. */
  lemma FundedBatchSucceeds(d: DeliveryState, t: TokenSpec.TokenState,
                                              recipients: seq<Account>, amounts: seq<nat>)
    requires Invariant(d) && t.mintingFinished && |recipients| == |amounts|
    requires d.totalSent + SumOf(amounts) <= d.cap
    requires d.allowMultipleSend || FirstTimeRecipients(d.sentTo, recipients)
    requires d.address !in recipients
    requires d.cap - d.totalSent <= BalanceOf(t.balances, d.address)
    ensures var r := MultiSend(d, t, d.owner, recipients, amounts);
            r.Ok? && r.value.0.cap - r.value.0.totalSent <= BalanceOf(r.value.1.balances, d.address)
  {
    assert SumOf(amounts) <= BalanceOf(t.balances, d.address);
    assert DeliverAll(t, d.address, recipients, amounts).Ok?;
  }

  /** One call to the distributor. */
  datatype Batch = Batch(caller: Account, recipients: seq<Account>, amounts: seq<nat>)

  /** Distributor and token after a batch; a batch that reverts changes
      neither. */
  function Apply(d: DeliveryState, t: TokenSpec.TokenState, b: Batch): (DeliveryState, TokenSpec.TokenState)
  {
    match MultiSend(d, t, b.caller, b.recipients, b.amounts)
    case Ok(after) => after
    case Err(_) => (d, t)
  }

  /** Distributor and token after a sequence of batches. */
  function RunBatches(d: DeliveryState, t: TokenSpec.TokenState, bs: seq<Batch>)
    : (DeliveryState, TokenSpec.TokenState)
    decreases |bs|
  {
    if bs == [] then (d, t)
    else
      var after := Apply(d, t, bs[0]);
      RunBatches(after.0, after.1, bs[1..])
  }

  /** Over any sequence of batches the lifetime total never passes the cap
      and never goes down, the policy never changes, and an account that
      has received stays marked. */
  lemma {:induction false} RunKeepsCap(d: DeliveryState, t: TokenSpec.TokenState, bs: seq<Batch>)
    requires Invariant(d)
    ensures var (d', _) := RunBatches(d, t, bs);
            Invariant(d') && d.totalSent <= d'.totalSent && d.sentTo <= d'.sentTo
            && d'.cap == d.cap && d'.allowMultipleSend == d.allowMultipleSend && d'.owner == d.owner
    decreases |bs|
  {
    if bs != [] {
      var after := Apply(d, t, bs[0]);
      RunKeepsCap(after.0, after.1, bs[1..]);
    }
  }

  /** Under the single-send policy an account that has received once is
      refused in every later batch, whatever happened in between. */
  lemma NoAccountServedTwice(d: DeliveryState, t: TokenSpec.TokenState, bs: seq<Batch>,
                             caller: Account, recipients: seq<Account>, amounts: seq<nat>, a: Account)
    requires Invariant(d) && !d.allowMultipleSend
    requires a in d.sentTo && a in recipients
    ensures var (d', t') := RunBatches(d, t, bs);
            MultiSend(d', t', caller, recipients, amounts).Err?
  {
    RunKeepsCap(d, t, bs);
    var (d', t') := RunBatches(d, t, bs);
    var i :| 0 <= i < |recipients| && recipients[i] == a;
    assert !FirstTimeRecipients(d'.sentTo, recipients);
  }

  /** The cap bounds the lifetime total, not one batch: after an accepted
      batch, a second batch that would take the total past the cap by any
      amount reverts, and one that reaches the cap exactly is not refused
      for the cap. */
  lemma CapIsCumulative(d: DeliveryState, t: TokenSpec.TokenState, first: Batch,
                        recipients: seq<Account>, amounts: seq<nat>)
    requires MultiSend(d, t, first.caller, first.recipients, first.amounts).Ok?
    requires |recipients| == |amounts|
    ensures var (d1, t1) := MultiSend(d, t, first.caller, first.recipients, first.amounts).value;
            d.totalSent + SumOf(first.amounts) + SumOf(amounts) > d.cap ==>
              MultiSend(d1, t1, d.owner, recipients, amounts) == Err(CapExceeded)
    ensures var (d1, t1) := MultiSend(d, t, first.caller, first.recipients, first.amounts).value;
            d.totalSent + SumOf(first.amounts) + SumOf(amounts) <= d.cap ==>
              MultiSend(d1, t1, d.owner, recipients, amounts) != Err(CapExceeded)
  {
    var (d1, t1) := MultiSend(d, t, first.caller, first.recipients, first.amounts).value;
    assert d1.owner == d.owner && d1.cap == d.cap && t1.mintingFinished;
    assert d1.totalSent == d.totalSent + SumOf(first.amounts);
  }

  /** The deployment the distributor's tests set up: a token capped at
      100000, a distributor capped at 20000 under either policy, the whole
      token cap minted to the distributor. Sending 100 to a receiver
      reverts while minting is open and goes through once the token owner
      has finished it. */
  lemma CappedDeliveryScenario(tokenOwner: Account, deliveryOwner: Account,
                                                 deliveryAddress: Account, tokenAddress: Account,
                                                 receiver: Account, allowMultipleSend: bool)
    requires tokenAddress != ZERO_ADDRESS && receiver != deliveryAddress
    ensures Deploy(deliveryOwner, deliveryAddress, ZERO_ADDRESS, 20000, allowMultipleSend) == Err(InvalidToken)
    ensures Deploy(deliveryOwner, deliveryAddress, tokenAddress, 0, allowMultipleSend) == Err(InvalidCap)
    ensures var d := Deploy(deliveryOwner, deliveryAddress, tokenAddress, 20000, allowMultipleSend);
            var minted := TokenSpec.Mint(TokenSpec.Deploy(tokenOwner, Some(100000)), tokenOwner, deliveryAddress, 100000);
            d.Ok? && minted.Ok?
            && MultiSend(d.value, minted.value, deliveryOwner, [receiver], [100]) == Err(IssuanceNotFinished)
            && TokenSpec.FinishMinting(minted.value, tokenOwner).Ok?
            && var finished := TokenSpec.FinishMinting(minted.value, tokenOwner).value;
               var sent := MultiSend(d.value, finished, deliveryOwner, [receiver], [100]);
               sent.Ok? && sent.value.0.totalSent == 100
               && BalanceOf(sent.value.1.balances, receiver) == 100
  {
    var d := Deploy(deliveryOwner, deliveryAddress, tokenAddress, 20000, allowMultipleSend).value;
    var minted := TokenSpec.Mint(TokenSpec.Deploy(tokenOwner, Some(100000)), tokenOwner, deliveryAddress, 100000).value;
    var finished := TokenSpec.FinishMinting(minted, tokenOwner).value;
    assert SumOf([100]) == 100;
    assert Distinct([receiver]);
    FundedBatchSucceeds(d, finished, [receiver], [100]);
    assert Received([receiver], [100], receiver) == 100;
  }
}
