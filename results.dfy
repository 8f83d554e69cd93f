/** Revert reasons and the success-or-revert wrappers shared by the three contracts. */
module Results {

  /** Why a call reverts. The contracts' own revert carries no reason; the
      model names each guard so that lemmas can say which one fired. */
  datatype Error =
    | Unauthorized
    | TransferRestricted
    | InsufficientBalance
    | InsufficientAllowance
    | MintingClosed
    | AlreadyFinished
    | Overflow
    | ReceiverRejected
    | InvalidToken
    | InvalidCap
    | LengthMismatch
    | IssuanceNotFinished
    | CapExceeded
    | AlreadyReceived
    | ReleaseTooEarly
    | NothingToRelease

  datatype Option<T> = None | Some(value: T)

  /** The value a call leaves behind, or the reason it reverted. */
  datatype Result<T> = Ok(value: T) | Err(error: Error)

  /** What a caller observes of a call: success, or a revert and its reason. */
  datatype Outcome = Pass | Fail(error: Error)

  function OutcomeOf<T>(r: Result<T>): Outcome
  {
    match r
    case Ok(_) => Pass
    case Err(e) => Fail(e)
  }

  /** A call that reverts leaves the state as it was; one that succeeds
      leaves the state the specification computes. */
  ghost predicate Applied<T>(before: T, res: Result<T>, after: T, r: Outcome)
  {
    r == OutcomeOf(res) && after == (if res.Ok? then res.value else before)
  }
}
