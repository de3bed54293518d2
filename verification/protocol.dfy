/**
 The four music contract operations as they travel in a transaction, the
 authority each needs, who pays its fee, and the release permission scheme
 the protocol documents.

 The protocol declares the id and expiration fields as `music_contract_id`
 and `music_contract_expiration`, while the evaluators read `contract_id`
 and `contract_expiration`; they are the same fields here.
 */
module Protocol {
  import opened Types

  /** Opens an escrow: funds leave the producer and are held for the musician. */
  datatype TransferOp = TransferOp(
    fee: Asset,
    producer: Account,
    musician: Account,
    amount: Asset,
    contractId: ContractId,
    agent: Account,
    agentFee: Asset,
    ratificationDeadline: Time,
    contractExpiration: Time)

  /** The musician or the agent ratifies (`approve`) or kills (`!approve`) a contract. */
  datatype ApproveOp = ApproveOp(
    fee: Asset,
    producer: Account,
    musician: Account,
    agent: Account,
    who: Account,
    contractId: ContractId,
    approve: bool)

  /** Places an approved contract under the agent's arbitration. */
  datatype DisputeOp = DisputeOp(
    fee: Asset,
    producer: Account,
    musician: Account,
    agent: Account,
    contractId: ContractId,
    who: Account)

  /** Pays part or all of the escrow to the producer or the musician. */
  datatype ReleaseOp = ReleaseOp(
    fee: Asset,
    producer: Account,
    musician: Account,
    agent: Account,
    who: Account,
    receiver: Account,
    contractId: ContractId,
    amount: Asset)

  datatype Operation =
    | Transfer(transfer: TransferOp)
    | Approve(approval: ApproveOp)
    | Dispute(dispute: DisputeOp)
    | Release(release: ReleaseOp)

  /**
   `get_required_active_authorities`: the accounts whose signature the op
   needs. The fee payer is always the one and only account that must sign.
   */
  function RequiredAuthorities(op: Operation): (r: set<Account>)
    ensures r == {FeePayer(op)}
  {
    match op
    case Transfer(o) => {o.producer}
    case Approve(o) => {o.who}
    case Dispute(o) => {o.who}
    case Release(o) => {o.who}
  }

  /** `fee_payer`: the account charged the operation fee. */
  function FeePayer(op: Operation): Account
  {
    match op
    case Transfer(o) => o.producer
    case Approve(o) => o.who
    case Dispute(o) => o.who
    case Release(o) => o.who
  }

  /**
   The documented permission scheme for releasing escrowed funds:
     - no dispute, not expired: each party may release only to the other;
     - no dispute, expired: either party may release to either party;
     - disputed, whether expired or not: the agent releases, to either party.
   Funds only ever go to the producer or the musician.
   */
  predicate ReleasePermitted(producer: Account, musician: Account, agent: Account,
                             disputed: bool, expired: bool, who: Account, receiver: Account)
  {
    && (receiver == producer || receiver == musician)
    && (|| (!disputed && !expired
             && ((who == producer && receiver == musician) || (who == musician && receiver == producer)))
        || (!disputed && expired && (who == producer || who == musician))
        || (disputed && who == agent))
  }
}
