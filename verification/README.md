# Music contract escrow — a Dafny model

This project models the "music contract" escrow of a Graphene-based chain.
A *producer* locks funds for a *musician*. A neutral *agent* co-signs the deal
and is paid a fee. Four operations act on one contract record held in the
chain's object store:

- **transfer** (`Evaluator.Open`) moves the producer's funds into escrow;
- **approve** (`Evaluator.ApproveOrReject`) lets the musician or the agent
  ratify the contract, or kill it and refund the producer;
- **dispute** (`Evaluator.RaiseDispute`) puts an approved contract under the
  agent's arbitration;
- **release** (`Evaluator.ReleaseFunds`) pays the escrow out, in part or in
  full, under a permission matrix.

Each evaluator is a pure function of the state, the operation and the head
block time. The state is the contract store plus the balance ledger. The
function returns the next state or the reason for refusal. A refused
operation changes nothing (`Chain.Next`), as on the chain the whole
transaction is discarded.

Modules, leaves first:

- `types.dfy` — accounts, assets, times, errors, `Result`.
- `ledger.dfy` — balances as a finite map; `adjust_balance` as `Adjust`.
- `contract_object.dfy` — the record, `is_approved()`, the keys of the two
  unique indices that can clash, the store invariant `Valid`, and `Evolves`, how a live record may
  change.
- `protocol.dfy` — the four operation payloads, required authorities, fee
  payer, and the documented release permission scheme `ReleasePermitted`.
- `evaluator.dfy` — the four evaluators, each keeping `Valid`.
- `chain.dfy` — dispatch, sequential application, traces, multi-step lemmas.
- `properties.dfy` — release settlement, approval-order independence, signer
  checks, the agent fee paid twice.
- `findings.dfy` — two source defects as written, beside the corrected reading.
- `scenario.dfy` — two concrete lifecycles (happy path; rejection).

## Reading of the source

In places the evaluator text cannot mean what it literally says: the dispute
guard uses an account id as a boolean (cpp:138) and reads an undeclared `e`
(cpp:139), and the record names a field `signed` (hpp:48), which is a C++
keyword. Elsewhere it contradicts itself. The model adopts these readings:

- The transfer evaluator assigns `musician` twice and never sets `producer`
  (music_contract_evaluator.cpp:55-56). The model stores the op's producer.
  See Findings.
- The record's `signed` flag is the one reflected as `musician_approved`. It
  is `Contract.musicianApproved`.
- The dispute guard `c.musician && c.agent_approved` (cpp:138) is read as
  `is_approved()`. The undeclared `e.disputed` (cpp:139) is read as
  `c.disputed`.
- The release receiver test (cpp:171) and the "producer or musician" test for
  `who` (cpp:181) compare with the musician twice. The directional branches
  (cpp:186-193) both test `who == c.musician`. The model uses
  producer/musician, as the messages and the protocol comment say. See
  Findings.
- The protocol names `music_contract_id` / `music_contract_expiration`, but
  the evaluator reads `contract_id` / `contract_expiration`. These are taken
  to be the same fields.
- The agent fee is credited to the agent when the escrow opens (cpp:47-48).
  It is credited again as `pending_fee` at full approval (cpp:122), or
  refunded to the producer on rejection (cpp:116). This is modelled
  literally. `Properties.RejectAfterOpenKeepsAgentFee` and
  `Scenario.HappyPathSettles` show the fee counted twice. No global
  conservation across transfer/approve is claimed. Conservation is proved
  for releases (`Properties.ReleaseRunSettles`).
- The protocol comment says a dispute can be raised "before or on the
  dispute deadline time" (protocol/music_contract.hpp:35-36). The record has
  no such deadline, and the dispute evaluator (cpp:134-156) checks no time
  except the activation time. The model follows the code: an approved
  contract can be disputed at any time, even after its expiration
  (`Properties.DisputeHasNoDeadline`).
- The record's comment says it lives "until funds are released or operation
  expired" (music_contract_object.hpp:33). No code shown removes an expired
  record. A contract that is still unapproved when its ratification deadline
  passes can then be neither approved, rejected, disputed nor released, so
  its escrow stays locked (`Properties.LapsedContractIsLocked`).
- The dispute evaluator never checks `who`. The model leaves it unchecked
  (`Properties.DisputeIgnoresSigner`).
- Any failed index constraint on create or modify aborts the operation. The
  record with the `(approved, ratification deadline, id)` key is only
  re-keyed when an approval flag is set. So the clash check is made on open
  and on approval. Dispute and release modify fields outside every key.

## Model

| member | source | states |
|---|---|---|
| `Ledger.Adjust` | libraries/chain/music_contract_evaluator.cpp:46-51 | an adjustment changes exactly one (account, asset) balance, by exactly the delta |
| `ContractObject.Contract.IsApproved` | libraries/chain/include/graphene/chain/music_contract_object.hpp:52 | a contract is approved when both the musician (`signed`) and the agent have approved it |
| `ContractObject.TakenIgnoresSelf` | libraries/chain/include/graphene/chain/music_contract_object.hpp:71-78 | whether a modified record clashes in the unique index does not depend on its own previous value |
| `ContractObject.ApprovalKeyMovesOnlyOnCompletion` | libraries/chain/include/graphene/chain/music_contract_object.hpp:71-78 | along any allowed change of a live record, its (approved, ratification deadline, id) key moves exactly when the approval status changes, and then only from unapproved to approved |
| `ContractObject.EvolvesTransitive` | libraries/chain/include/graphene/chain/music_contract_object.hpp:40-52 | the allowed change of a live record (fixed terms, escrow never growing, flags never withdrawn, pending fee zeroed only when approval completes) composes over successive operations |
| `Protocol.RequiredAuthorities` | libraries/chain/include/graphene/chain/protocol/music_contract.hpp:66-144 | each operation needs exactly one signature, the fee payer's: the producer for a transfer, `who` for approve, dispute and release |
| `Protocol.FeePayer` | libraries/chain/include/graphene/chain/protocol/music_contract.hpp:67-144 | the operation fee is charged to the producer for a transfer and to the acting account `who` for approve, dispute and release |
| `Evaluator.Open` | libraries/chain/music_contract_evaluator.cpp:31-66 | accepted iff both deadlines are strictly in the future, a core-asset escrow is covered by amount + fee + agent fee, and neither unique key is taken; acceptance keeps the store invariant; on success exactly one record appears under (producer, id), unapproved and undisputed, holding the amount and the agent fee as pending fee; the producer is debited the amount and, when the agent fee is positive, the fee, which the agent is credited; nothing else moves |
| `Evaluator.ApproveOrReject` | libraries/chain/music_contract_evaluator.cpp:68-132 | refused when the record is missing, the musician or agent mismatch, the deadline has passed (the deadline itself still accepts), `who` is neither party, or the acting party already approved, whatever `approve` says; conversely, an in-time party that has not yet approved is always allowed to reject, and its approve is accepted exactly when the record's new deadline-index key is held by no other record; acceptance keeps the store invariant and implies the record was not yet approved; a reject removes the record and refunds the producer exactly amount + pending fee; an approve sets only the actor's flag, and when that completes approval pays the agent the pending fee and zeroes it, otherwise moves nothing |
| `Evaluator.RaiseDispute` | libraries/chain/music_contract_evaluator.cpp:134-161 | accepted iff the record exists, is approved, not yet disputed, its musician and agent match, and the activation time has passed; acceptance keeps the store invariant; the only effect is `disputed` becoming true; no balance moves |
| `Evaluator.ReleaseAuthorization` | libraries/chain/music_contract_evaluator.cpp:174-195 | for a receiver that is producer or musician, the branch logic accepts exactly what the documented permission matrix allows |
| `Evaluator.ReleaseFunds` | libraries/chain/music_contract_evaluator.cpp:163-219 | accepted iff the record exists, the amount is positive, of the escrow's asset and at most the escrow, the parties match, the record is approved and the permission matrix allows `who` to pay `receiver`; acceptance keeps the store invariant; the receiver gains exactly the amount, the escrow shrinks by exactly the amount, and the record is removed exactly when nothing remains |
| `Chain.Step` | libraries/chain/include/graphene/chain/music_contract_object.hpp:58-81 | every accepted operation keeps the store invariant and leaves every record other than the one it addresses untouched |
| `Chain.TracePreservesValid` | libraries/chain/include/graphene/chain/music_contract_object.hpp:58-81 | every state along any sequence of operations from a valid store is valid |
| `Chain.StepEvolves` | libraries/chain/music_contract_evaluator.cpp:88-214 | a record that survives an operation keeps its parties, id, deadlines and asset types; its escrow never grows; its flags never go back to false; its pending fee changes only when approval completes, and then to zero |
| `Chain.TraceEvolves` | libraries/chain/include/graphene/chain/protocol/music_contract.hpp:70-73 | across any stretch of operations during which a record lives, no approval or dispute is withdrawn and its terms stay fixed |
| `Chain.ApprovalCompletesAtMostOnce` | libraries/chain/music_contract_evaluator.cpp:120-127 | while a record lives, the transition into full approval, which pays the agent's pending fee, happens at most once |
| `Chain.PendingFeeChangesOnlyAtApproval` | libraries/chain/music_contract_evaluator.cpp:120-127 | the pending fee of a live record changes only on an approve operation that completes approval, and then becomes zero |
| `Properties.ReleaseRunSettles` | libraries/chain/music_contract_evaluator.cpp:200-219 | over any accepted series of releases, each at its own head block time, escrow + producer and musician holdings is conserved, no other balance or record moves, and the record disappears exactly when the releases sum to the escrowed amount |
| `Properties.ApprovalOrderIrrelevant` | libraries/chain/music_contract_evaluator.cpp:84-127 | musician-then-agent approval succeeds iff agent-then-musician does, and both end in the same records and balances |
| `Properties.OneOrderImpliesOther` | libraries/chain/music_contract_evaluator.cpp:84-127 | one approval order that completes implies the other completes with the same result |
| `Properties.FirstApprovalNeverClashes` | libraries/chain/music_contract_evaluator.cpp:88-127 | in a valid store, a party's in-time approval of a contract nobody has approved yet is always accepted, moves no balance and leaves the contract unapproved |
| `Properties.SignerIsParty` | libraries/chain/include/graphene/chain/protocol/music_contract.hpp:66-144 | the signer of every accepted transfer, approval or release is a party of the contract it acts on |
| `Properties.DisputeIgnoresSigner` | libraries/chain/music_contract_evaluator.cpp:134-144 | the dispute outcome is the same whoever signs it |
| `Properties.DisputeHasNoDeadline` | libraries/chain/music_contract_evaluator.cpp:134-156 | an approved, undisputed contract whose parties match can be disputed at any time after the activation time, even after its expiration; no dispute deadline is enforced |
| `Properties.LapsedContractIsLocked` | libraries/chain/music_contract_evaluator.cpp:31-219 | once the ratification deadline has passed on a contract that is not fully approved, every transfer, approve, dispute and release addressed to it is refused, so its escrow cannot leave |
| `Properties.RejectAfterOpenKeepsAgentFee` | libraries/chain/music_contract_evaluator.cpp:113-118 | with a non-negative agent fee, a reject right after opening restores the store and leaves every balance as before, except that the agent keeps the fee paid at opening |
| `Findings.OpenAsWritten` | libraries/chain/music_contract_evaluator.cpp:53-62 | as written, the record is filed under the default account, not under its producer |
| `Findings.OpenAsWrittenStrandsEscrow` | libraries/chain/music_contract_evaluator.cpp:55-56 | as written, approve, dispute and release on the producer's contract all fail with NotFound |
| `Findings.OpenedContractIsReachable` | libraries/chain/music_contract_evaluator.cpp:53-70 | with the producer stored, the musician can act on a freshly opened contract until the ratification deadline |
| `Findings.ReleaseAuthorizationAsWritten` | libraries/chain/music_contract_evaluator.cpp:171-193 | as written, only the musician can receive, and without a dispute only the musician can release |
| `Findings.ReleaseAsWrittenInvertsDirection` | libraries/chain/music_contract_evaluator.cpp:181-193 | before expiration the written checks refuse producer-to-musician and accept musician-to-musician; the permission scheme and the corrected authorization do the opposite |
| `Scenario.HappyPathSettles` | libraries/chain/music_contract_evaluator.cpp:42-219 | open 100 with fee 5, approval by both, releases of 40 and 60: musician +100, producer −105, agent +10 (fee paid twice), record gone |
| `Scenario.RejectedPathRefunds` | libraries/chain/music_contract_evaluator.cpp:113-118 | rejection before agent approval refunds the producer to its starting balance, removes the record, and the agent keeps 5 |

## Left out

- The object database: object-id allocation, the `by_id` index, which is
  unique but cannot clash because every object id is freshly allocated, the
  non-unique `by_expiration` index, and undo sessions. The store
  is a map keyed by (producer, contract id). The deadline key is a store
  invariant. Rollback is the `Err` result.
- The ledger's own checks inside `adjust_balance` (database code is not
  part of this model). Balances are unbounded integers. A debit may drive
  one negative. No balance check is invented for non-core escrows; the
  source leaves it as a to-do.
- The arithmetic of `asset` values (asset.hpp is not part of this model).
  This includes the same-asset assertion in `amount + fee + agent_fee`. The
  open check adds the three quantities.
- The 64-bit width of `share_type` and the 32-bit width of
  `time_point_sec` and `contract_id`. No overflow is modelled.
- Fee schedules (`fee_parameters_type`) and the deduction of the operation
  fee. The op's fee appears only in the transfer balance check.
- Signature verification. Only the required-authority and fee-payer
  functions are modelled.
- `validate()` bodies, which are declared but not shown. Nothing they
  might reject (non-positive amounts, equal parties) is assumed.
- `json_meta` and serialization, which carry no behaviour.
- The head block time and the dispute activation time
  (`HARDFORK_music_contract_TIME`). Both are parameters, `now` and
  `hardfork`.
- The returned object id of the transfer. The record's key serves as its
  identity.
- The removal of expired records that the record's comment announces. No
  such code is part of this model, so a lapsed, unapproved contract stays in
  the store with its escrow.

## Findings

| source | as written | input that shows it | evidently intended | confidence | as-written member | corrected member |
|---|---|---|---|---|---|---|
| libraries/chain/music_contract_evaluator.cpp:55-56 | the new record's `musician` is assigned from `o.producer`, then from `o.musician`; `producer` stays the default account | producer 1, contract id 7: the record is filed under (0, 7) and every later approve/dispute/release on (1, 7) fails NotFound, stranding the escrow | `producer = o.producer` | high, not executed | `Findings.OpenAsWritten`, `Findings.OpenAsWrittenStrandsEscrow` | `Evaluator.Open`, `Findings.OpenedContractIsReachable` |
| libraries/chain/music_contract_evaluator.cpp:171-193 | receiver and `who` are compared with `c.musician` twice; both directional branches test `who == c.musician` | producer 1, musician 2, not disputed, before expiration: producer paying musician is refused; musician paying musician is accepted | receiver ∈ {producer, musician}; before expiration producer pays musician and musician pays producer | high, not executed | `Findings.ReleaseAuthorizationAsWritten`, `Findings.ReleaseAsWrittenInvertsDirection` | `Evaluator.ReleaseAuthorization`, `Evaluator.ReleaseFunds` |
