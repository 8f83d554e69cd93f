# ico-maker token, distributor and timelock — a Dafny model

This project models three small contracts of the ico-maker repository, as
their tests pin them down:

- **BaseToken**, a mintable token whose transfers are gated. It has an owner
  and a role table with the `minter` and `operator` roles. It keeps balances,
  allowances, a total supply with an optional cap, and a one-way
  `mintingFinished` flag. Until minting is finished, value may leave an
  account only when that account holds `operator`. After `finishMinting`
  the token is a standard token for everybody.
- **CappedDelivery**, a batch distributor. It holds a token reference, a
  lifetime `cap`, an `allowMultipleSend` policy, the running total it has
  sent and the set of accounts it has served. `multiSend` refuses to run
  while the token's minting is open, and it pays out of the distributor's
  own token balance.
- **TokenTimelock**, a vault with a fixed token, beneficiary and release
  time. `release()` hands everything the vault holds to the beneficiary once
  the release time has come.

Each contract appears twice:

- A specification module (`TokenSpec`, `DeliverySpec`, `TimelockSpec`)
  states the contract as values. Every public call is a function from the
  state before the call to the state after it, or to the reason it reverts
  (`Results.Error`). The lemmas there are about single calls and about every
  sequence of calls.
- An object module (`Token`, `Delivery`, `Timelock`) holds a class whose
  fields the methods update in place. Each method's contract ties the new
  state to the specification function:
  `Applied(old(State()), Spec(old(State()), …), State(), r)` says that a
  reverted call changes nothing and a successful one leaves exactly the
  specified state.

`CappedDelivery.MultiSend` sends its transfers in a loop through the token
object's own `Transfer`. The loop invariant says that the remaining
transfers, applied to the token's current state, reach the planned final
state.

The contracts' Solidity sources are not part of this model; their behaviour
is taken from the repository's tests. Two choices are forced by those tests:

- **The transfer gate is checked on the account whose value moves, not on
  the caller.** A gate on the caller would make the non-operator spender's
  `transferFrom` at `test/token/BaseToken.test.js:201-204` (and
  `transferFromAndCall` at `:258-264`) revert. Those calls succeed because
  the holder (`owner`) is an operator, so the gate is on `from`.
- **The deployer holds `minter` from deployment.**
  `test/distribution/CappedDelivery.test.js:61` mints from the token owner
  without an `addMinter` call.

The rest are modelling choices that no test in
`test/token/BaseToken.test.js`, `test/distribution/CappedDelivery.test.js`
or `test/token/behaviours/TokenTimelock.behaviour.js` decides:

- **`addMinter` is owner-only.** The tests only show the owner calling it
  (`test/token/BaseToken.test.js:44`).
- **`finishMinting` is owner-only and can be called once.** A second call
  reverts with `AlreadyFinished`. No test calls it twice.
- **`mint` reverts with `Overflow` when the new supply would pass the token
  cap or the `uint256` range.**
- **Release happens only once because the vault is emptied, not because of
  a stored flag.** `release` reverts before the release time and when the
  vault holds nothing. Otherwise it transfers the vault's whole balance.
- **`multiSend` checks the token's `mintingFinished` flag itself.** The
  revert at `test/distribution/CappedDelivery.test.js:64-69` would happen
  just as well through the token's transfer gate, since the distributor is
  no operator there. The two readings differ for a distributor that holds
  the operator role: through the gate alone it could send before minting is
  finished, while this model refuses it with `IssuanceNotFinished`. The
  order of checks is: caller (owner only), lengths, the flag, the lifetime
  cap, then (when `allowMultipleSend` is false) that no recipient has
  received before and none appears twice. Only then are the transfers sent.
  Every check is made before the first transfer, and a batch whose
  transfers would not all succeed reverts as a whole.

## Model

| member | source | states |
|---|---|---|
| `Ledger.Move` | test/token/BaseToken.test.js:197-199 | a transfer debits the sender and credits the receiver by the amount. No other balance changes. The sum of all balances is unchanged. A transfer to oneself changes nothing. |
| `TokenSpec.Deploy` | test/token/BaseToken.test.js:34-36 | a new token has nothing minted and minting open. The deployer is the only minter and nobody is an operator. The supply invariant holds. |
| `TokenSpec.AddMinter` | test/token/BaseToken.test.js:84 | succeeds exactly for the owner and reverts with `Unauthorized` otherwise. Afterwards the account is a minter and nothing else changed. |
| `TokenSpec.AddOperator` | test/token/BaseToken.test.js:89-92 | succeeds exactly for the owner and reverts with `Unauthorized` otherwise. Afterwards `hasRole(account, operator)` is true, every other account's role is as before, and nothing else changed. |
| `TokenSpec.RemoveOperator` | test/token/BaseToken.test.js:94-96 | succeeds exactly for the owner and reverts with `Unauthorized` otherwise. Afterwards `hasRole(account, operator)` is false, every other account's role is as before, and nothing else changed. |
| `TokenSpec.Mint` | test/token/BaseToken.test.js:84-85 | succeeds exactly for a minter, while minting is open, when the new supply stays within the cap and `uint256`. It names the guard that failed. It credits exactly the amount to the recipient and to the supply, and keeps the supply invariant. |
| `TokenSpec.FinishMinting` | test/token/BaseToken.test.js:64-69 | succeeds exactly for the owner while minting is open, and reverts with `AlreadyFinished` after that. Afterwards every account may transfer. Only the flag changes. |
| `TokenSpec.Approve` | test/token/BaseToken.test.js:117-118 | is never gated. It sets exactly the caller-to-spender allowance and leaves everything else. |
| `TokenSpec.Transfer` | test/token/BaseToken.test.js:111-115 | succeeds if and only if the gate lets the caller send and its balance covers the amount; otherwise it reverts with `TransferRestricted` or `InsufficientBalance`. It debits and credits exactly the amount and conserves the balance sum. |
| `TokenSpec.TransferFrom` | test/token/BaseToken.test.js:201-204 | the gate is applied to `from`, not to the spender. Succeeds if and only if the gate is open for `from`, `from`'s balance covers the amount, and so does the allowance. It names the failing check, moves exactly the amount, lowers that one allowance by it and leaves every other allowance as it was. |
| `TokenSpec.TransferAndCall` | test/token/BaseToken.test.js:122-152 | succeeds if and only if the transfer succeeds and the receiver acknowledges. A gate failure is reported as such, and a refusal by the receiver reverts the transfer. |
| `TokenSpec.TransferFromAndCall` | test/token/BaseToken.test.js:154-189 | succeeds if and only if the delegated transfer succeeds and the receiver acknowledges. Otherwise it reverts entirely. |
| `TokenSpec.Step` | test/token/BaseToken.test.js:82-86 | no call changes the owner or the cap, every call keeps the supply invariant, no call unfinishes minting, and only the owner's `finishMinting` finishes it. |
| `TokenSpec.RunKeepsInvariant` | test/distribution/CappedDelivery.test.js:26-31 | after any sequence of calls, the supply equals the sum of the balances and is within the cap and `uint256`. |
| `TokenSpec.BalancesFitUint256` | test/token/BaseToken.test.js:32 | in every reachable state no balance exceeds the supply, which fits a `uint256`. So crediting a balance cannot wrap. |
| `TokenSpec.FinishedIsPermanent` | test/token/BaseToken.test.js:64-71 | once minting is finished, no sequence of calls reopens it. |
| `TokenSpec.OnlyOwnerFinishes` | test/token/BaseToken.test.js:68 | if minting went from open to finished over a sequence of calls, one of them was `finishMinting` sent by the owner. |
| `TokenSpec.MintClosedForever` | test/token/BaseToken.test.js:64-69 | once minting is finished, every later mint reverts, whatever happened in between. For a minter the reason is `MintingClosed`. |
| `TokenSpec.UnrestrictedForever` | test/token/BaseToken.test.js:64-71 | once minting is finished, in every later state a transfer succeeds if and only if the balance covers it. A delegated transfer succeeds if and only if balance and allowance cover it. |
| `TokenSpec.OwnerGrantsAndRevokesOperator` | test/token/BaseToken.test.js:89-97 | the owner grants `operator` (the role is then held) and revokes it (the role is then not held). |
| `TokenSpec.NonOperatorCannotTransfer` | test/token/BaseToken.test.js:113-152 | before minting is finished, an account without `operator` gets `TransferRestricted` from `transfer` and from `transferAndCall`, whatever it holds and whatever the receiver answers. |
| `TokenSpec.NonOperatorCannotBeDrawnFrom` | test/token/BaseToken.test.js:154-189 | before minting is finished, approving still works, but `transferFrom` and `transferFromAndCall` against that approval revert with `TransferRestricted` when the holder is no operator (also lines 117-120). |
| `TokenSpec.OperatorCanTransfer` | test/token/BaseToken.test.js:192-204 | before minting is finished, an operator's `transfer` of up to its balance succeeds. So does a spender's `transferFrom` of it after approval. |
| `TokenSpec.OperatorTransfersInTwoParts` | test/token/BaseToken.test.js:206-265 | an operator's balance sent in two parts, by `transferAndCall` or by `transferFromAndCall` on one approval, succeeds both times. The receiver gains both parts and the approval is used up. |
| `TokenSpec.MintUpToCap` | test/distribution/CappedDelivery.test.js:61 | a token deployed with cap `c` mints, in one call, exactly the amounts up to `c`. |
| `Token.BaseToken.constructor` | test/token/BaseToken.test.js:35 | the new object's state is `TokenSpec.Deploy(owner, cap)` and satisfies the supply invariant. |
| `Token.BaseToken.BalanceOf` | test/token/behaviours/TokenTimelock.behaviour.js:31 | the query returns the account's balance in the specified state. |
| `Token.BaseToken.HasRole` | test/token/BaseToken.test.js:91 | the query returns role membership in the specified state. |
| `Token.BaseToken.AddMinter` | test/token/BaseToken.test.js:84 | updates the role table in place as `TokenSpec.AddMinter` specifies, or reverts with nothing changed. |
| `Token.BaseToken.AddOperator` | test/token/BaseToken.test.js:90 | updates the role table in place as `TokenSpec.AddOperator` specifies, or reverts with nothing changed. |
| `Token.BaseToken.RemoveOperator` | test/token/BaseToken.test.js:94 | updates the role table in place as `TokenSpec.RemoveOperator` specifies, or reverts with nothing changed. |
| `Token.BaseToken.Mint` | test/token/BaseToken.test.js:85 | updates the balances and supply in place as `TokenSpec.Mint` specifies, keeping the supply invariant, or reverts with nothing changed. |
| `Token.BaseToken.FinishMinting` | test/token/BaseToken.test.js:68 | sets the flag as `TokenSpec.FinishMinting` specifies, or reverts with nothing changed. |
| `Token.BaseToken.Approve` | test/token/BaseToken.test.js:118 | sets the allowance as `TokenSpec.Approve` specifies. |
| `Token.BaseToken.Transfer` | test/token/BaseToken.test.js:114 | moves value in place as `TokenSpec.Transfer` specifies, keeping the supply invariant, or reverts with nothing changed. |
| `Token.BaseToken.TransferFrom` | test/token/BaseToken.test.js:119 | moves value and lowers the allowance in place as `TokenSpec.TransferFrom` specifies, or reverts with nothing changed. |
| `Token.BaseToken.TransferAndCall` | test/token/BaseToken.test.js:145-151 | as `TokenSpec.TransferAndCall`. A refusal by the receiver restores the balances that the transfer changed. |
| `Token.BaseToken.TransferFromAndCall` | test/token/BaseToken.test.js:178-188 | as `TokenSpec.TransferFromAndCall`. A refusal by the receiver restores the balances and the allowance. |
| `DeliverySpec.Deploy` | test/distribution/CappedDelivery.test.js:35-59 | construction succeeds if and only if the token is not the zero address and the cap is positive, under either policy. Otherwise it reverts with `InvalidToken`, or `InvalidCap`. A new distributor has sent nothing to nobody. |
| `DeliverySpec.DeliverAll` | test/distribution/CappedDelivery.test.js:67 | the batch's transfers, made one after another through the token, succeed if and only if the gate lets the distributor send and its balance covers the batch total (when it is not its own recipient). The distributor pays the total, each other account gains what the batch addresses to it, and the balance sum is unchanged. A failure is one of the token's transfer errors. |
| `DeliverySpec.MultiSend` | test/distribution/CappedDelivery.test.js:64-78 | gives the revert reason of each check in order. On success the lifetime total grows by the batch total and stays within the cap. Every recipient is marked as served, and under the single-send policy every recipient was new and distinct. A batch that passes every check succeeds or fails exactly as its transfers (`DeliverAll`) do. Balances move as `DeliverAll` states, and both invariants are kept. |
| `DeliverySpec.BlockedUntilMintingFinished` | test/distribution/CappedDelivery.test.js:64-69 | while the token's minting is open, the owner's `multiSend` reverts with `IssuanceNotFinished`, even when the distributor holds enough. |
| `DeliverySpec.FundedBatchSucceeds` | test/distribution/CappedDelivery.test.js:72-78 | after minting is finished, a distributor funded with what remains of its cap makes every batch that its checks admit, and stays funded for the rest of the cap. |
| `DeliverySpec.RunKeepsCap` | test/distribution/CappedDelivery.test.js:28 | over any sequence of batches, the lifetime total stays within the cap and never decreases. Served accounts stay marked, and the cap, policy and owner never change. |
| `DeliverySpec.NoAccountServedTwice` | test/distribution/CappedDelivery.test.js:88-90 | under the single-send policy, any later batch that includes an account already served reverts, whatever happened in between. |
| `DeliverySpec.CapIsCumulative` | test/distribution/CappedDelivery.test.js:28 | after an accepted batch, a second batch that would take the lifetime total past the cap reverts with `CapExceeded`, and one that only reaches it is not refused for the cap. |
| `DeliverySpec.CappedDeliveryScenario` | test/distribution/CappedDelivery.test.js:26-78 | the test deployment, step by step. A zero token address or a zero cap is refused, and minting the token cap of 100000 to the distributor succeeds. Sending 100 then reverts while minting is open. After the owner finishes minting it succeeds: the receiver holds 100 and the total sent is 100. |
| `Delivery.CappedDelivery.constructor` | test/distribution/CappedDelivery.test.js:54-59 | stores the checked arguments, with nothing sent. |
| `Delivery.CappedDelivery.Deploy` | test/distribution/CappedDelivery.test.js:36-59 | allocates a distributor exactly when `DeliverySpec.Deploy` accepts the arguments (a null token is the zero address). Otherwise it reports the same error. |
| `Delivery.CappedDelivery.MultiSend` | test/distribution/CappedDelivery.test.js:64-78 | leaves the distributor and the token object exactly as `DeliverySpec.MultiSend` specifies, sending one transfer at a time through the token. A reverted batch changes neither. |
| `TimelockSpec.Release` | test/token/behaviours/TokenTimelock.behaviour.js:19-45 | reverts with `ReleaseTooEarly` before the release time and with `NothingToRelease` when the vault is empty. It succeeds if and only if the time has come, the vault holds something, and the gate lets it send. The beneficiary then gains everything the vault held, the vault is left empty, and every other balance is unchanged. |
| `TimelockSpec.ReleaseAfterTimeDelivers` | test/token/behaviours/TokenTimelock.behaviour.js:28-38 | any time after the release time, the beneficiary ends up holding exactly the locked amount. |
| `TimelockSpec.ReleasesOnce` | test/token/behaviours/TokenTimelock.behaviour.js:40-45 | after a release, a second release reverts at any time, so the beneficiary keeps exactly the amount. |
| `Timelock.TokenTimelock.constructor` | test/token/behaviours/TokenTimelock.behaviour.js:13-17 | `token`, `beneficiary` and `releaseTime` are the values given at construction. They are constants and never change. |
| `Timelock.TokenTimelock.Release` | test/token/behaviours/TokenTimelock.behaviour.js:19-45 | changes the token object exactly as `TimelockSpec.Release` specifies, or reverts with nothing changed. |

## Left out

- Token metadata (`name`, `symbol`, `decimals`) is not modelled; these are constants with no behaviour.
- The receiver notification of `transferAndCall` and `transferFromAndCall` is not modelled as a call into the receiver. The receiver's answer is the boolean `acknowledged`. The optional `data` bytes only reach the receiver, so they are dropped; calls with and without data behave alike.
- Reentrancy from a receiver callback is not modelled. Each call is one atomic step, and the distributor writes its bookkeeping before its first transfer.
- `removeMinter`, burning and recovery of foreign tokens are not modelled. Neither are the standard-token, mintable, burnable and token-recovery behaviours that BaseToken's tests import from other packages. None of them is exercised by test/token/BaseToken.test.js, test/distribution/CappedDelivery.test.js or test/token/behaviours/TokenTimelock.behaviour.js.
- The standard token's refusal of the zero address as a recipient is not modelled, since none of those three test files exercises it.
- The token cap's own check that a cap is positive, and the vault's check at construction that the release time lies in the future, are not modelled.
- Events (`Mint`, `Transfer`, `Approval`, delivery notices) are not modelled.
- Block time is not modelled. It is the `now` argument of `release`.
- The time `now == releaseTime` exactly is not covered by any lemma. The model releases at that instant, as `now >= releaseTime`.
- Role names are the enumeration `TokenSpec.Role`, not strings.
- `uint256` arithmetic is modelled by bounding the supply by `Ledger.MAX_UINT256`. Every balance lies below the supply (`TokenSpec.BalancesFitUint256`), so no transfer can wrap.
- DeliverySpec.DeliverAll: the effect on individual balances is stated only when the distributor is not among its own recipients. A batch that sends to the distributor itself is still specified (its transfers to itself change nothing), but no contract spells out the resulting balances.
- DeliverySpec.MultiSend: the effect on individual balances is stated only when the distributor is not among its own recipients, for the same reason.
- TimelockSpec.Release: that the vault is emptied is stated only when the beneficiary is not the vault itself.
- The distributor's read queries (remaining cap, received flag) are not separate members. They are the `cap`, `totalSent` and `sentTo` fields of the distributor's state.
