/**
 Properties that relate several operations: settling an escrow through a
 series of releases, the independence of approval order, who may sign an
 accepted operation, and the literal handling of the agent's fee.
 */
module Properties {
  import opened Types
  import opened Ledger
  import opened ContractObject
  import opened Protocol
  import opened Evaluator
  import opened Chain

  /**
   A series of release operations, the i-th applied at head block time
   `times[i]`; the first refusal refuses the series.
   */
  function ReleaseRun(s: State, rels: seq<ReleaseOp>, times: seq<Time>): Result<State>
    requires |times| == |rels|
    decreases |rels|
  {
    if |rels| == 0 then Ok(s)
    else match ReleaseFunds(s, rels[0], times[0])
      case Err(e) => Err(e)
      case Ok(s1) => ReleaseRun(s1, rels[1..], times[1..])
  }

  /** The sum of the quantities a series of releases pays out. */
  function TotalReleased(rels: seq<ReleaseOp>): int
    decreases |rels|
  {
    if |rels| == 0 then 0 else rels[0].amount.amount + TotalReleased(rels[1..])
  }

  /** What is still held in escrow under `k`; nothing once the record is gone. */
  function Escrow(s: State, k: Key): int
  {
    if k in s.store then s.store[k].amount.amount else 0
  }

  /** The producer's and the musician's combined holdings of one asset (one account counted once). */
  function PartyHoldings(b: Balances, producer: Account, musician: Account, id: AssetId): int
  {
    Balance(b, producer, id) + (if musician != producer then Balance(b, musician, id) else 0)
  }

  /** Crediting one of the two parties raises their combined holdings by exactly that much. */
  lemma CreditRaisesPartyHoldings(b: Balances, b': Balances, x: Asset, to: Account,
                                  producer: Account, musician: Account)
    requires to == producer || to == musician
    requires forall a, id :: Balance(b', a, id) == Balance(b, a, id) + Credited(x, to, a, id)
    ensures PartyHoldings(b', producer, musician, x.assetId) == PartyHoldings(b, producer, musician, x.assetId) + x.amount
  {
  }

  /**
   Settling an escrow through successive releases conserves funds: every
   unit that leaves the escrow reaches the producer or the musician, no
   other balance or record moves, and the record disappears exactly when
   the releases add up to the escrowed amount.
   */
  lemma {:induction false} ReleaseRunSettles(s: State, rels: seq<ReleaseOp>, times: seq<Time>, k: Key)
    requires |times| == |rels|
    requires k in s.store
    requires forall i :: 0 <= i < |rels| ==> (rels[i].producer, rels[i].contractId) == k
    requires ReleaseRun(s, rels, times).Ok?
    ensures var c := s.store[k];
      var s' := ReleaseRun(s, rels, times).value;
      && Escrow(s', k) == c.amount.amount - TotalReleased(rels)
      && PartyHoldings(s'.balances, c.producer, c.musician, c.amount.assetId)
         == PartyHoldings(s.balances, c.producer, c.musician, c.amount.assetId) + TotalReleased(rels)
      && (|rels| > 0 ==> (k !in s'.store <==> TotalReleased(rels) == c.amount.amount))
      && s'.store - {k} == s.store - {k}
      && (forall a, id :: (a != c.producer && a != c.musician) || id != c.amount.assetId ==>
            Balance(s'.balances, a, id) == Balance(s.balances, a, id))
    decreases |rels|
  {
    if |rels| > 0 {
      var c := s.store[k];
      var o := rels[0];
      var s1 := ReleaseFunds(s, o, times[0]).value;
      var tail := rels[1..];
      assert ReleaseRun(s, rels, times) == ReleaseRun(s1, tail, times[1..]);
      CreditRaisesPartyHoldings(s.balances, s1.balances, o.amount, o.receiver, c.producer, c.musician);
      if k in s1.store {
        var c1 := s1.store[k];
        assert c1 == c.(amount := Asset(c.amount.amount - o.amount.amount, c.amount.assetId));
        forall i | 0 <= i < |tail| ensures (tail[i].producer, tail[i].contractId) == k {
          assert tail[i] == rels[i + 1];
        }
        ReleaseRunSettles(s1, tail, times[1..], k);
        if |tail| == 0 {
          assert ReleaseRun(s1, tail, times[1..]) == Ok(s1);
        }
      } else {
        if |tail| > 0 {
          // The next release would find no record and refuse the series.
          assert false;
        }
        assert ReleaseRun(s1, tail, times[1..]) == Ok(s1);
      }
    }
  }

  /** Two approval operations in turn, at times `t1` and `t2`; the first refusal refuses both. */
  function ApproveBoth(s: State, first: ApproveOp, second: ApproveOp, t1: Time, t2: Time): Result<State>
  {
    match ApproveOrReject(s, first, t1)
    case Err(e) => Err(e)
    case Ok(s1) => ApproveOrReject(s1, second, t2)
  }

  /** Completing the approval in one order, from the first approval's state. */
  lemma OneOrderImpliesOther(s: State, first: ApproveOp, second: ApproveOp, t1: Time, t2: Time)
    requires first.approve && second.approve
    requires || (first.who == first.musician && second.who == second.agent && second.who != second.musician)
             || (second.who == second.musician && first.who == first.agent && first.who != first.musician)
    requires (first.producer, first.contractId) == (second.producer, second.contractId)
    requires first.musician == second.musician && first.agent == second.agent
    requires ApproveBoth(s, first, second, t1, t2).Ok?
    ensures ApproveBoth(s, second, first, t1, t2) == ApproveBoth(s, first, second, t1, t2)
  {
    var k := (first.producer, first.contractId);
    var c := s.store[k];
    var s1 := ApproveOrReject(s, first, t1).value;
    assert !c.musicianApproved && !c.agentApproved by {
      assert !s1.store[k].IsApproved();
    }
    var both := c.(musicianApproved := true, agentApproved := true);
    assert ApprovalKeyOf(c.(agentApproved := true)) == ApprovalKeyOf(c.(musicianApproved := true));
    assert ApproveOrReject(s, second, t1).Ok?;
    var s1' := ApproveOrReject(s, second, t1).value;
    TakenIgnoresSelf(s.store, k, s1.store[k], ApprovalKeyOf(both));
    TakenIgnoresSelf(s.store, k, s1'.store[k], ApprovalKeyOf(both));
    assert s1.store == s.store[k := s1.store[k]];
    assert s1'.store == s.store[k := s1'.store[k]];
    var settled := s.store[k := both.(pendingFee := both.pendingFee.(amount := 0))];
    assert s1.store[k := both.(pendingFee := both.pendingFee.(amount := 0))] == settled;
    assert s1'.store[k := both.(pendingFee := both.pendingFee.(amount := 0))] == settled;
  }

  /**
   The two approvals commute: musician then agent succeeds exactly when
   agent then musician does, and both orders end in the same records and
   balances, with the pending fee paid to the agent once.
   */
  lemma ApprovalOrderIrrelevant(s: State, byMusician: ApproveOp, byAgent: ApproveOp, t1: Time, t2: Time)
    requires byMusician.approve && byAgent.approve
    requires byMusician.who == byMusician.musician
    requires byAgent.who == byAgent.agent && byAgent.who != byAgent.musician
    requires (byMusician.producer, byMusician.contractId) == (byAgent.producer, byAgent.contractId)
    requires byMusician.musician == byAgent.musician && byMusician.agent == byAgent.agent
    ensures ApproveBoth(s, byMusician, byAgent, t1, t2).Ok? <==> ApproveBoth(s, byAgent, byMusician, t1, t2).Ok?
    ensures ApproveBoth(s, byMusician, byAgent, t1, t2).Ok? ==>
      ApproveBoth(s, byMusician, byAgent, t1, t2) == ApproveBoth(s, byAgent, byMusician, t1, t2)
  {
    if ApproveBoth(s, byMusician, byAgent, t1, t2).Ok? {
      OneOrderImpliesOther(s, byMusician, byAgent, t1, t2);
    }
    if ApproveBoth(s, byAgent, byMusician, t1, t2).Ok? {
      OneOrderImpliesOther(s, byAgent, byMusician, t1, t2);
    }
  }

  /** The parties of the record an operation acts on. */
  function Parties(c: Contract): set<Account>
  {
    {c.producer, c.musician, c.agent}
  }

  /**
   Every accepted transfer, approval or release was signed by a party of
   the contract it acts on: the producer for a transfer, the musician or
   the agent for an approval, and for a release whoever the permission
   scheme allows. A dispute is accepted whoever signs it.
   */
  lemma SignerIsParty(s: State, op: Operation, now: Time, hardfork: Time)
    requires Step(s, op, now, hardfork).Ok?
    requires !op.Dispute?
    ensures OpKey(op) in (if op.Transfer? then Step(s, op, now, hardfork).value.store else s.store)
    ensures RequiredAuthorities(op) <=
      Parties((if op.Transfer? then Step(s, op, now, hardfork).value.store else s.store)[OpKey(op)])
  {
  }

  /** The dispute evaluator never looks at who signed the dispute. */
  lemma DisputeIgnoresSigner(s: State, o: DisputeOp, signer: Account, now: Time, hardfork: Time)
    ensures RaiseDispute(s, o.(who := signer), now, hardfork) == RaiseDispute(s, o, now, hardfork)
  {
  }

  /**
   In a valid store, the first of the two approvals never clashes in the
   deadline index: the record keeps its unapproved key, which no other
   record holds. It is accepted and moves no balance.
   */
  lemma FirstApprovalNeverClashes(s: State, o: ApproveOp, now: Time)
    requires Valid(s.store)
    requires (o.producer, o.contractId) in s.store
    requires var c := s.store[(o.producer, o.contractId)];
      && c.musician == o.musician && c.agent == o.agent
      && now <= c.ratificationDeadline
      && !c.musicianApproved && !c.agentApproved
    requires (o.who == o.musician || o.who == o.agent) && o.approve
    ensures ApproveOrReject(s, o, now).Ok?
    ensures ApproveOrReject(s, o, now).value.balances == s.balances
    ensures !ApproveOrReject(s, o, now).value.store[(o.producer, o.contractId)].IsApproved()
  {
  }

  /**
   The dispute evaluator checks no deadline: an approved, undisputed
   contract can be disputed at any time after the activation time, however
   long after its expiration.
   */
  lemma DisputeHasNoDeadline(s: State, o: DisputeOp, now: Time, hardfork: Time)
    requires (o.producer, o.contractId) in s.store
    requires var c := s.store[(o.producer, o.contractId)];
      && c.IsApproved() && !c.disputed
      && c.musician == o.musician && c.agent == o.agent
      && now > c.contractExpiration
    requires now > hardfork
    ensures RaiseDispute(s, o, now, hardfork).Ok?
  {
  }

  /**
   A contract that was not approved by both parties before its ratification
   deadline can no longer be approved, rejected, disputed or released, and
   no new transfer can replace it: its escrow stays locked.
   */
  lemma LapsedContractIsLocked(s: State, k: Key, now: Time, hardfork: Time,
                               tr: TransferOp, ap: ApproveOp, di: DisputeOp, re: ReleaseOp)
    requires k in s.store && !s.store[k].IsApproved()
    requires now > s.store[k].ratificationDeadline
    requires (tr.producer, tr.contractId) == k
    requires (ap.producer, ap.contractId) == k
    requires (di.producer, di.contractId) == k
    requires (re.producer, re.contractId) == k
    ensures Open(s, tr, now).Err?
    ensures ApproveOrReject(s, ap, now).Err?
    ensures RaiseDispute(s, di, now, hardfork).Err?
    ensures ReleaseFunds(s, re, now).Err?
  {
  }

  /**
   The agent's fee is credited to the agent when the escrow is opened, and
   the rejection that follows refunds the same fee to the producer from the
   pending balance. A rejected contract therefore leaves the producer whole
   and the agent paid: the fee is counted twice.
   */
  lemma RejectAfterOpenKeepsAgentFee(s: State, o: TransferOp, now: Time, reject: ApproveOp, later: Time)
    requires Open(s, o, now).Ok?
    requires o.agentFee.amount >= 0
    requires reject.producer == o.producer && reject.contractId == o.contractId
    requires reject.musician == o.musician && reject.agent == o.agent
    requires reject.who == o.musician && !reject.approve
    requires later <= o.ratificationDeadline
    ensures ApproveOrReject(Open(s, o, now).value, reject, later).Ok?
    ensures ApproveOrReject(Open(s, o, now).value, reject, later).value.store == s.store
    ensures forall a, id ::
      Balance(ApproveOrReject(Open(s, o, now).value, reject, later).value.balances, a, id)
      == Balance(s.balances, a, id) + Credited(o.agentFee, o.agent, a, id)
  {
  }
}
