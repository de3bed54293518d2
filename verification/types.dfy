/**
 Basic vocabulary shared by the music contract model: account and asset
 identities, timestamps, asset quantities, the error taxonomy and the
 result type every transition returns.
 */
module Types {

  /** Instance number of an `account_id_type`. */
  type Account = nat

  /** Instance number of an `asset_id_type`; 0 is the chain's core asset. */
  type AssetId = nat

  /** A `time_point_sec`: whole seconds. */
  type Time = nat

  /** The producer-chosen contract number (`uint32_t contract_id`). */
  type ContractId = nat

  /** `asset_id_type()`, the default-constructed (core) asset id. */
  const CoreAsset: AssetId := 0

  /** `account_id_type()`, the default-constructed account id. */
  const DefaultAccount: Account := 0

  /** An `asset`: a signed quantity (`share_type`) of one asset type. */
  datatype Asset = Asset(amount: int, assetId: AssetId)

  /** Why a transition is rejected. A rejected transition changes nothing. */
  datatype Error =
    | NotFound              // no contract under (producer, contract id)
    | DeadlinePassed        // a deadline is not in the future / has passed
    | InsufficientBalance   // producer cannot cover amount + fee + agent fee
    | DuplicateContract     // (producer, contract id) already holds a contract
    | IndexConflict         // (approved, ratification deadline, id) already taken
    | PartyMismatch         // the op's musician or agent differs from the record
    | NotParty              // approving `who` is neither musician nor agent
    | AlreadyApproved       // the acting party's approval flag is already set
    | NotYetApproved        // the contract is not approved by both parties
    | AlreadyDisputed       // the contract is already under dispute
    | BeforeHardfork        // dispute attempted before the activation time
    | InvalidAmount         // release amount not in (0, escrowed] or other asset
    | InvalidReceiver       // receiver is neither producer nor musician
    | DisputeReleaser       // disputed contract, but `who` is not the agent
    | UnauthorizedReleaser  // undisputed contract, `who` is neither producer nor musician
    | ReleaseDirection      // before expiration a party may only pay the other

  /** The outcome of a transition: a new value or the reason it was refused. */
  datatype Result<T> = Ok(value: T) | Err(error: Error) {
    predicate IsFailure() {
      Err?
    }

    function PropagateFailure<U>(): Result<U>
      requires Err?
    {
      Err(error)
    }

    function Extract(): T
      requires Ok?
    {
      value
    }
  }

  /** The outcome of a guard that computes nothing. */
  datatype Outcome = Pass | Fail(error: Error)
}
