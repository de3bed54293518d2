/**
 Two places where the evaluators, as written, cannot do what their own
 messages and the protocol say. Each is modelled as written, with the
 input that shows the discrepancy, next to the corrected behaviour the
 rest of the model uses.
 */
module Findings {
  import opened Types
  import opened Ledger
  import opened ContractObject
  import opened Protocol
  import opened Evaluator

  /**
   The transfer evaluator as written: the record's `musician` is assigned
   twice and `producer` keeps its default value, so the index files the
   record under (default account, contract id).
   */
  function OpenAsWritten(s: State, o: TransferOp, now: Time): (r: Result<State>)
    ensures r.Ok? ==>
      && (DefaultAccount, o.contractId) in r.value.store
      && r.value.store[(DefaultAccount, o.contractId)].producer == DefaultAccount
      && r.value.store[(DefaultAccount, o.contractId)].amount == o.amount
    ensures r.Ok? && o.producer != DefaultAccount && (o.producer, o.contractId) !in s.store ==>
      (o.producer, o.contractId) !in r.value.store
  {
    if !(o.ratificationDeadline > now) || !(o.contractExpiration > now) then
      Err(DeadlinePassed)
    else if o.amount.assetId == CoreAsset
         && Balance(s.balances, o.producer, CoreAsset) < o.amount.amount + o.fee.amount + o.agentFee.amount then
      Err(InsufficientBalance)
    else
      var feePaid :=
        if o.agentFee.amount > 0 then Adjust(Adjust(s.balances, o.producer, Negate(o.agentFee)), o.agent, o.agentFee)
        else s.balances;
      var escrowed := Adjust(feePaid, o.producer, Negate(o.amount));
      var c := NewContract(o.contractId, DefaultAccount, o.musician, o.agent, o.amount, o.agentFee,
                           o.ratificationDeadline, o.contractExpiration);
      var k := KeyOf(c);
      if k in s.store then Err(DuplicateContract)
      else if ApprovalKeyTaken(s.store, k, ApprovalKeyOf(c)) then Err(IndexConflict)
      else Ok(State(s.store[k := c], escrowed))
  }

  /**
   As written, an escrow opened by any producer other than the default
   account can never be approved, rejected, disputed or released: every
   later operation looks it up under (producer, contract id) and finds
   nothing, so the debited funds are stranded.
   */
  lemma OpenAsWrittenStrandsEscrow(s: State, o: TransferOp, now: Time,
                                   ap: ApproveOp, di: DisputeOp, re: ReleaseOp, later: Time, hardfork: Time)
    requires o.producer != DefaultAccount && (o.producer, o.contractId) !in s.store
    requires OpenAsWritten(s, o, now).Ok?
    requires (ap.producer, ap.contractId) == (o.producer, o.contractId)
    requires (di.producer, di.contractId) == (o.producer, o.contractId)
    requires (re.producer, re.contractId) == (o.producer, o.contractId)
    ensures ApproveOrReject(OpenAsWritten(s, o, now).value, ap, later) == Err(NotFound)
    ensures RaiseDispute(OpenAsWritten(s, o, now).value, di, later, hardfork) == Err(NotFound)
    ensures ReleaseFunds(OpenAsWritten(s, o, now).value, re, later) == Err(NotFound)
  {
  }

  /**
   The corrected transfer evaluator files the record under its producer,
   so the musician can act on it until the ratification deadline.
   */
  lemma OpenedContractIsReachable(s: State, o: TransferOp, now: Time, ap: ApproveOp, later: Time)
    requires Open(s, o, now).Ok?
    requires (ap.producer, ap.contractId) == (o.producer, o.contractId)
    requires ap.musician == o.musician && ap.agent == o.agent && ap.who == o.musician
    requires later <= o.ratificationDeadline
    ensures ApproveOrReject(Open(s, o, now).value, ap, later).Ok?
  {
  }

  /**
   The release authorization as written: the receiver test compares with
   the musician twice, the "producer or musician" test for `who` likewise,
   and both directional branches test `who` against the musician.
   */
  function ReleaseAuthorizationAsWritten(c: Contract, who: Account, receiver: Account, now: Time): (r: Outcome)
    ensures r == Pass ==> receiver == c.musician
    ensures r == Pass && !c.disputed ==> who == c.musician
  {
    if !(receiver == c.musician || receiver == c.musician) then Fail(InvalidReceiver)
    else if c.disputed then
      if who != c.agent then Fail(DisputeReleaser) else Pass
    else if !(who == c.musician || who == c.musician) then Fail(UnauthorizedReleaser)
    else if c.contractExpiration > now then
      if who == c.musician then
        if receiver != c.musician then Fail(ReleaseDirection) else Pass
      else if who == c.musician then
        if receiver != c.producer then Fail(ReleaseDirection) else Pass
      else Pass
    else Pass
  }

  /**
   Before expiration and without a dispute, the written checks refuse the
   producer paying the musician, which the permission scheme allows, and
   accept the musician paying themselves, which it forbids. The corrected
   authorization does the opposite in both cases.
   */
  lemma ReleaseAsWrittenInvertsDirection(c: Contract, now: Time)
    requires c.producer != c.musician && !c.disputed && now < c.contractExpiration
    ensures ReleaseAuthorizationAsWritten(c, c.producer, c.musician, now) == Fail(UnauthorizedReleaser)
    ensures ReleaseAuthorizationAsWritten(c, c.musician, c.musician, now) == Pass
    ensures ReleasePermitted(c.producer, c.musician, c.agent, c.disputed, c.contractExpiration <= now,
                             c.producer, c.musician)
    ensures !ReleasePermitted(c.producer, c.musician, c.agent, c.disputed, c.contractExpiration <= now,
                              c.musician, c.musician)
    ensures ReleaseAuthorization(c, c.producer, c.musician, now) == Pass
    ensures ReleaseAuthorization(c, c.musician, c.musician, now) == Fail(ReleaseDirection)
  {
  }
}
