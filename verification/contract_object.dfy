/**
 The persisted escrow record (`music_contract_object`) and the store that
 holds the records. The store is keyed by (producer, contract id), which
 makes that composite key unique by construction; the second unique key of
 the index, (approved, ratification deadline, contract id), is an invariant
 of the store that the transitions re-establish.
 */
module ContractObject {
  import opened Types

  /**
   One escrow agreement. `musicianApproved` is the field the object calls
   `signed` and reflects as `musician_approved`.
   */
  datatype Contract = Contract(
    contractId: ContractId,
    producer: Account,
    musician: Account,
    agent: Account,
    amount: Asset,
    ratificationDeadline: Time,
    contractExpiration: Time,
    pendingFee: Asset,
    musicianApproved: bool,
    agentApproved: bool,
    disputed: bool)
  {
    /** Both the musician and the agent have ratified the contract. */
    predicate IsApproved() {
      musicianApproved && agentApproved
    }
  }

  /** The `by_producer_id` key. */
  type Key = (Account, ContractId)

  /** The `by_ratification_deadline` key. */
  datatype ApprovalKey = ApprovalKey(approved: bool, deadline: Time, contractId: ContractId)

  type Store = map<Key, Contract>

  function KeyOf(c: Contract): Key
  {
    (c.producer, c.contractId)
  }

  function ApprovalKeyOf(c: Contract): ApprovalKey
  {
    ApprovalKey(c.IsApproved(), c.ratificationDeadline, c.contractId)
  }

  /** A record as created by the transfer evaluator: nobody has approved, no dispute. */
  function NewContract(id: ContractId, producer: Account, musician: Account, agent: Account,
                       amount: Asset, agentFee: Asset, deadline: Time, expiration: Time): Contract
  {
    Contract(id, producer, musician, agent, amount, deadline, expiration, agentFee, false, false, false)
  }

  /**
   Some record other than the one at `self` already owns approval key `ak`;
   creating or modifying a record into `ak` would violate the unique index.
   */
  predicate ApprovalKeyTaken(st: Store, self: Key, ak: ApprovalKey)
  {
    exists k :: k in st && k != self && ApprovalKeyOf(st[k]) == ak
  }

  /** Every record is filed under its own (producer, contract id). */
  ghost predicate KeysConsistent(st: Store)
  {
    forall k :: k in st ==> KeyOf(st[k]) == k
  }

  /** No two records share (approved, ratification deadline, contract id). */
  ghost predicate ApprovalKeysUnique(st: Store)
  {
    forall k1, k2 :: k1 in st && k2 in st && k1 != k2 ==> ApprovalKeyOf(st[k1]) != ApprovalKeyOf(st[k2])
  }

  /** The agent's fee is paid out the moment both parties have approved. */
  ghost predicate FeeSettled(st: Store)
  {
    forall k :: k in st && st[k].IsApproved() ==> st[k].pendingFee.amount == 0
  }

  /** A dispute can only be raised on an approved contract. */
  ghost predicate DisputeNeedsApproval(st: Store)
  {
    forall k :: k in st && st[k].disputed ==> st[k].IsApproved()
  }

  ghost predicate Valid(st: Store)
  {
    && KeysConsistent(st)
    && ApprovalKeysUnique(st)
    && FeeSettled(st)
    && DisputeNeedsApproval(st)
  }

  /** Whether an approval key is taken by another record does not depend on the record at `self`. */
  lemma TakenIgnoresSelf(st: Store, self: Key, c: Contract, ak: ApprovalKey)
    ensures ApprovalKeyTaken(st[self := c], self, ak) == ApprovalKeyTaken(st, self, ak)
  {
    if ApprovalKeyTaken(st[self := c], self, ak) {
      var k :| k in st[self := c] && k != self && ApprovalKeyOf(st[self := c][k]) == ak;
      assert k in st && ApprovalKeyOf(st[k]) == ak;
    }
    if ApprovalKeyTaken(st, self, ak) {
      var k :| k in st && k != self && ApprovalKeyOf(st[k]) == ak;
      assert k in st[self := c] && ApprovalKeyOf(st[self := c][k]) == ak;
    }
  }

  /**
   How a live record may change from one committed state to a later one:
   parties, id, deadlines and asset types are fixed; the escrow never grows;
   approval and dispute flags only go from false to true; the pending fee
   changes only when full approval is reached, and then to zero.
   */
  predicate Evolves(c: Contract, c': Contract)
  {
    && c'.contractId == c.contractId
    && c'.producer == c.producer && c'.musician == c.musician && c'.agent == c.agent
    && c'.ratificationDeadline == c.ratificationDeadline
    && c'.contractExpiration == c.contractExpiration
    && c'.amount.assetId == c.amount.assetId
    && c'.amount.amount <= c.amount.amount
    && (c.musicianApproved ==> c'.musicianApproved)
    && (c.agentApproved ==> c'.agentApproved)
    && (c.disputed ==> c'.disputed)
    && c'.pendingFee.assetId == c.pendingFee.assetId
    && (c'.pendingFee != c.pendingFee ==> !c.IsApproved() && c'.IsApproved() && c'.pendingFee.amount == 0)
  }

  /**
   A live record's deadline-index key moves exactly when its approval status
   changes, and the only such change is approval completing. Dispute and
   release never touch the key, so only an approval can clash in the index.
   */
  lemma ApprovalKeyMovesOnlyOnCompletion(c: Contract, c': Contract)
    requires Evolves(c, c')
    ensures ApprovalKeyOf(c) == ApprovalKeyOf(c') <==> c.IsApproved() == c'.IsApproved()
    ensures ApprovalKeyOf(c) != ApprovalKeyOf(c') ==> !c.IsApproved() && c'.IsApproved()
  {
  }

  lemma EvolvesTransitive(c1: Contract, c2: Contract, c3: Contract)
    requires Evolves(c1, c2) && Evolves(c2, c3)
    ensures Evolves(c1, c3)
  {
  }
}
