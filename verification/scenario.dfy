/**
 Two worked lifecycles of one escrow: producer 1 opens 100 core units for
 musician 2 with agent 3 and an agent fee of 5, then (a) both parties
 approve and the producer pays the musician in two releases, or (b) the
 musician rejects before the agent approves.
 */
module Scenario {
  import opened Types
  import opened Ledger
  import opened ContractObject
  import opened Protocol
  import opened Evaluator

  const Producer: Account := 1
  const Musician: Account := 2
  const Agent: Account := 3
  const Id: ContractId := 1
  const Opened: Time := 100

  function Start(): State
  {
    State(map[], map[(Producer, CoreAsset) := 1000])
  }

  function OpenOp(): TransferOp
  {
    TransferOp(Asset(1, CoreAsset), Producer, Musician, Asset(100, CoreAsset), Id, Agent, Asset(5, CoreAsset),
               Opened + 3600, Opened + 86400)
  }

  function ApproveBy(who: Account, approve: bool): ApproveOp
  {
    ApproveOp(Asset(1, CoreAsset), Producer, Musician, Agent, who, Id, approve)
  }

  function Pay(quantity: int): ReleaseOp
  {
    ReleaseOp(Asset(1, CoreAsset), Producer, Musician, Agent, Producer, Musician, Id, Asset(quantity, CoreAsset))
  }

  /** Open, approval by musician then agent, and two releases of 40 and 60 to the musician. */
  function HappyPath(): Result<State>
  {
    var s1 :- Open(Start(), OpenOp(), Opened);
    var s2 :- ApproveOrReject(s1, ApproveBy(Musician, true), Opened + 60);
    var s3 :- ApproveOrReject(s2, ApproveBy(Agent, true), Opened + 120);
    var s4 :- ReleaseFunds(s3, Pay(40), Opened + 600);
    ReleaseFunds(s4, Pay(60), Opened + 900)
  }

  /** Open, then the musician rejects before the agent has approved. */
  function RejectedPath(): Result<State>
  {
    var s1 :- Open(Start(), OpenOp(), Opened);
    ApproveOrReject(s1, ApproveBy(Musician, false), Opened + 60)
  }

  /**
   The happy path settles: the musician ends with the full 100, the record
   is gone so further operations find nothing, and the agent holds 10
   because the fee is paid both at opening and at full approval.
   */
  lemma HappyPathSettles()
    ensures HappyPath().Ok?
    ensures Balance(HappyPath().value.balances, Producer, CoreAsset) == 895
    ensures Balance(HappyPath().value.balances, Musician, CoreAsset) == 100
    ensures Balance(HappyPath().value.balances, Agent, CoreAsset) == 10
    ensures (Producer, Id) !in HappyPath().value.store
    ensures ReleaseFunds(HappyPath().value, Pay(1), Opened + 1000) == Err(NotFound)
  {
  }

  /** Rejection refunds the producer 100 + 5 and removes the record; the agent keeps the 5 paid at opening. */
  lemma RejectedPathRefunds()
    ensures RejectedPath().Ok?
    ensures Balance(RejectedPath().value.balances, Producer, CoreAsset) == 1000
    ensures Balance(RejectedPath().value.balances, Agent, CoreAsset) == 5
    ensures RejectedPath().value.store == map[]
  {
  }
}
