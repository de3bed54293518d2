/**
 The four music contract evaluators. Each one is its `do_evaluate` guards
 followed by its `do_apply` effects, folded into a single pure function from
 the current chain state, the operation and the head block time to either
 the next state or the reason the operation is refused. A refusal carries no
 state: the surrounding transaction is discarded as a whole, so nothing the
 apply phase did before failing is observable.
 */
module Evaluator {
  import opened Types
  import opened Ledger
  import opened ContractObject
  import opened Protocol

  /** The slice of the chain this core reads and writes. */
  datatype State = State(store: Store, balances: Balances)

  /**
   music_contract_transfer_evaluator. The source assigns `musician` twice
   when it builds the record and never sets `producer`; the record here
   stores the op's producer, which the (producer, contract id) lookup of
   every later operation needs.
   */
  function Open(s: State, o: TransferOp, now: Time): (r: Result<State>)
    ensures r.Ok? && Valid(s.store) ==> Valid(r.value.store)
    ensures !(o.ratificationDeadline > now && o.contractExpiration > now) ==> r == Err(DeadlinePassed)
    ensures r.Ok? <==>
      && o.ratificationDeadline > now
      && o.contractExpiration > now
      && (o.amount.assetId == CoreAsset ==>
            Balance(s.balances, o.producer, CoreAsset) >= o.amount.amount + o.fee.amount + o.agentFee.amount)
      && (o.producer, o.contractId) !in s.store
      && !ApprovalKeyTaken(s.store, (o.producer, o.contractId), ApprovalKey(false, o.ratificationDeadline, o.contractId))
    ensures r.Ok? ==>
      var k := (o.producer, o.contractId);
      && k in r.value.store
      && r.value.store.Keys == s.store.Keys + {k}
      && (forall k' :: k' in s.store ==> k' in r.value.store && r.value.store[k'] == s.store[k'])
      && var c := r.value.store[k];
      && c.producer == o.producer && c.musician == o.musician && c.agent == o.agent
      && c.amount == o.amount && c.pendingFee == o.agentFee
      && c.ratificationDeadline == o.ratificationDeadline && c.contractExpiration == o.contractExpiration
      && !c.musicianApproved && !c.agentApproved && !c.disputed
    ensures r.Ok? ==> forall a, id ::
      Balance(r.value.balances, a, id) ==
        Balance(s.balances, a, id)
        - Credited(o.amount, o.producer, a, id)
        - (if o.agentFee.amount > 0 then Credited(o.agentFee, o.producer, a, id) else 0)
        + (if o.agentFee.amount > 0 then Credited(o.agentFee, o.agent, a, id) else 0)
  {
    var k := (o.producer, o.contractId);
    if !(o.ratificationDeadline > now) || !(o.contractExpiration > now) then
      Err(DeadlinePassed)
    // Only the core asset is checked; other assets are not (the source marks this as a to-do).
    else if o.amount.assetId == CoreAsset
         && Balance(s.balances, o.producer, CoreAsset) < o.amount.amount + o.fee.amount + o.agentFee.amount then
      Err(InsufficientBalance)
    else
      var feePaid :=
        if o.agentFee.amount > 0 then Adjust(Adjust(s.balances, o.producer, Negate(o.agentFee)), o.agent, o.agentFee)
        else s.balances;
      var escrowed := Adjust(feePaid, o.producer, Negate(o.amount));
      var c := NewContract(o.contractId, o.producer, o.musician, o.agent, o.amount, o.agentFee,
                           o.ratificationDeadline, o.contractExpiration);
      if k in s.store then Err(DuplicateContract)
      else if ApprovalKeyTaken(s.store, k, ApprovalKeyOf(c)) then Err(IndexConflict)
      else Ok(State(s.store[k := c], escrowed))
  }

  /** Rejection: the escrow and the pending fee go back to the producer and the record is removed. */
  function Refund(s: State, k: Key, producer: Account): State
    requires k in s.store
  {
    var c := s.store[k];
    State(s.store - {k}, Adjust(Adjust(s.balances, producer, c.amount), producer, c.pendingFee))
  }

  /**
   Writes back a record whose approval flag was just set. If that completed
   the approval, the pending fee is paid to the agent and zeroed. Setting a
   flag can change the record's approval key, so a clash with another record
   refuses the operation.
   */
  function Ratify(s: State, k: Key, c: Contract, agent: Account): Result<State>
  {
    if ApprovalKeyTaken(s.store, k, ApprovalKeyOf(c)) then Err(IndexConflict)
    else if c.IsApproved() then
      Ok(State(s.store[k := c.(pendingFee := c.pendingFee.(amount := 0))], Adjust(s.balances, agent, c.pendingFee)))
    else
      Ok(State(s.store[k := c], s.balances))
  }

  /**
   music_contract_approve_evaluator. The party is resolved from `who`
   against the op's musician first, then its agent; both were checked
   against the record beforehand.
   */
  function ApproveOrReject(s: State, o: ApproveOp, now: Time): (r: Result<State>)
    ensures r.Ok? && Valid(s.store) ==> Valid(r.value.store)
    ensures var k := (o.producer, o.contractId);
      r == Err(NotFound) <==> k !in s.store
    ensures var k := (o.producer, o.contractId);
      k in s.store && (s.store[k].musician != o.musician || s.store[k].agent != o.agent) ==> r == Err(PartyMismatch)
    ensures var k := (o.producer, o.contractId);
      (k in s.store && s.store[k].musician == o.musician && s.store[k].agent == o.agent
       && now > s.store[k].ratificationDeadline) ==> r == Err(DeadlinePassed)
    ensures var k := (o.producer, o.contractId);
      (k in s.store && s.store[k].musician == o.musician && s.store[k].agent == o.agent
       && now <= s.store[k].ratificationDeadline && o.who != o.musician && o.who != o.agent) ==> r == Err(NotParty)
    // Approval is irrevocable: whatever `approve` says, a party that has approved is refused.
    ensures var k := (o.producer, o.contractId);
      (k in s.store && s.store[k].musician == o.musician && s.store[k].agent == o.agent
       && now <= s.store[k].ratificationDeadline
       && ((o.who == o.musician && s.store[k].musicianApproved)
           || (o.who != o.musician && o.who == o.agent && s.store[k].agentApproved))) ==> r == Err(AlreadyApproved)
    ensures var k := (o.producer, o.contractId);
      r.Ok? ==>
        && k in s.store
        && !s.store[k].IsApproved()
        && (o.who == s.store[k].musician || o.who == s.store[k].agent)
        && now <= s.store[k].ratificationDeadline
    // A party that is in time and has not yet approved may always reject, and may
    // approve unless the record's new approval key belongs to another record.
    ensures var k := (o.producer, o.contractId);
      (&& k in s.store && s.store[k].musician == o.musician && s.store[k].agent == o.agent
       && now <= s.store[k].ratificationDeadline
       && ((o.who == o.musician && !s.store[k].musicianApproved)
           || (o.who != o.musician && o.who == o.agent && !s.store[k].agentApproved))) ==>
        && (!o.approve ==> r.Ok?)
        && (o.approve ==>
              (r.Ok? <==> !ApprovalKeyTaken(s.store, k,
                             ApprovalKey(s.store[k].musicianApproved || s.store[k].agentApproved,
                                         s.store[k].ratificationDeadline, s.store[k].contractId))))
    // Reject: the producer gets back exactly the escrow plus the pending fee; the record is gone.
    ensures var k := (o.producer, o.contractId);
      r.Ok? && !o.approve ==>
        var c := s.store[k];
        && r.value.store == s.store - {k}
        && forall a, id :: Balance(r.value.balances, a, id) ==
             Balance(s.balances, a, id) + Credited(c.amount, o.producer, a, id) + Credited(c.pendingFee, o.producer, a, id)
    // Approve: only the acting party's flag, and on completion the pending fee, change.
    ensures var k := (o.producer, o.contractId);
      r.Ok? && o.approve ==>
        var c := s.store[k];
        && k in r.value.store
        && r.value.store - {k} == s.store - {k}
        && var c' := r.value.store[k];
        && c' == c.(musicianApproved := c.musicianApproved || o.who == c.musician,
                    agentApproved := c.agentApproved || o.who != c.musician,
                    pendingFee := c'.pendingFee)
        && (c'.IsApproved() ==>
              && c'.pendingFee == c.pendingFee.(amount := 0)
              && forall a, id :: Balance(r.value.balances, a, id) ==
                   Balance(s.balances, a, id) + Credited(c.pendingFee, c.agent, a, id))
        && (!c'.IsApproved() ==> c'.pendingFee == c.pendingFee && r.value.balances == s.balances)
  {
    var k := (o.producer, o.contractId);
    if k !in s.store then Err(NotFound)
    else
      var c := s.store[k];
      if c.musician != o.musician || c.agent != o.agent then Err(PartyMismatch)
      else if c.ratificationDeadline < now then Err(DeadlinePassed)
      else if o.who == o.musician then
        if c.musicianApproved then Err(AlreadyApproved)
        else if !o.approve then Ok(Refund(s, k, o.producer))
        else Ratify(s, k, c.(musicianApproved := true), o.agent)
      else if o.who == o.agent then
        if c.agentApproved then Err(AlreadyApproved)
        else if !o.approve then Ok(Refund(s, k, o.producer))
        else Ratify(s, k, c.(agentApproved := true), o.agent)
      else Err(NotParty)
  }

  /**
   music_contract_dispute_evaluator. The source's approval guard names the
   musician account and an undeclared record; they are read as "the record
   is approved" and "the record is not yet disputed". `who` is not checked.
   The activation-time check belongs to the apply phase, so it comes last.
   */
  function RaiseDispute(s: State, o: DisputeOp, now: Time, hardfork: Time): (r: Result<State>)
    ensures r.Ok? && Valid(s.store) ==> Valid(r.value.store)
    ensures var k := (o.producer, o.contractId);
      r.Ok? <==>
        && k in s.store
        && s.store[k].IsApproved()
        && !s.store[k].disputed
        && s.store[k].musician == o.musician && s.store[k].agent == o.agent
        && now > hardfork
    ensures var k := (o.producer, o.contractId);
      k in s.store && s.store[k].IsApproved() && s.store[k].disputed ==> r == Err(AlreadyDisputed)
    ensures var k := (o.producer, o.contractId);
      k in s.store && !s.store[k].IsApproved() ==> r == Err(NotYetApproved)
    ensures var k := (o.producer, o.contractId);
      r.Ok? ==>
        && k in r.value.store
        && r.value.store - {k} == s.store - {k}
        && r.value.store[k].disputed
        && r.value.store[k].(disputed := false) == s.store[k]
        && r.value.balances == s.balances
  {
    var k := (o.producer, o.contractId);
    if k !in s.store then Err(NotFound)
    else
      var c := s.store[k];
      if !c.IsApproved() then Err(NotYetApproved)
      else if c.disputed then Err(AlreadyDisputed)
      else if c.musician != o.musician || c.agent != o.agent then Err(PartyMismatch)
      else if now <= hardfork then Err(BeforeHardfork)
      // `disputed` is in no index key, so the modify cannot clash.
      else Ok(s.(store := s.store[k := c.(disputed := true)]))
  }

  /**
   The authorization part of the release evaluator. The source compares
   `who` with the musician in both operands of its "producer or musician"
   test and in both directional branches; this is the producer/musician
   reading its messages and the protocol describe.
   */
  function ReleaseAuthorization(c: Contract, who: Account, receiver: Account, now: Time): (r: Outcome)
    ensures (receiver == c.producer || receiver == c.musician) ==>
      (r == Pass <==> ReleasePermitted(c.producer, c.musician, c.agent, c.disputed,
                                       c.contractExpiration <= now, who, receiver))
    ensures c.disputed && who != c.agent ==> r == Fail(DisputeReleaser)
    ensures !c.disputed && who != c.producer && who != c.musician ==> r == Fail(UnauthorizedReleaser)
  {
    if c.disputed then
      if who != c.agent then Fail(DisputeReleaser) else Pass
    else if who != c.producer && who != c.musician then Fail(UnauthorizedReleaser)
    else if c.contractExpiration > now then
      if who == c.producer then
        if receiver != c.musician then Fail(ReleaseDirection) else Pass
      else if who == c.musician then
        if receiver != c.producer then Fail(ReleaseDirection) else Pass
      else Pass
    else Pass
  }

  /**
   music_contract_release_evaluator. The source's receiver check compares
   with the musician twice; the receiver must be the producer or the
   musician. The escrow shrinks by exactly what the receiver gains, and the
   record disappears exactly when nothing is left.
   */
  function ReleaseFunds(s: State, o: ReleaseOp, now: Time): (r: Result<State>)
    ensures r.Ok? && Valid(s.store) ==> Valid(r.value.store)
    ensures var k := (o.producer, o.contractId);
      r.Ok? <==>
        && k in s.store
        && s.store[k].amount.assetId == o.amount.assetId
        && 0 < o.amount.amount <= s.store[k].amount.amount
        && s.store[k].musician == o.musician && s.store[k].agent == o.agent
        && s.store[k].IsApproved()
        && ReleasePermitted(s.store[k].producer, s.store[k].musician, s.store[k].agent, s.store[k].disputed,
                            s.store[k].contractExpiration <= now, o.who, o.receiver)
    ensures var k := (o.producer, o.contractId);
      (k in s.store && s.store[k].amount.assetId == o.amount.assetId
       && 0 < o.amount.amount <= s.store[k].amount.amount
       && s.store[k].musician == o.musician && s.store[k].agent == o.agent
       && (o.receiver == s.store[k].producer || o.receiver == s.store[k].musician)
       && !s.store[k].IsApproved()) ==> r == Err(NotYetApproved)
    ensures var k := (o.producer, o.contractId);
      r.Ok? ==>
        var c := s.store[k];
        var rest := c.amount.amount - o.amount.amount;
        && rest >= 0
        && (k !in r.value.store <==> rest == 0)
        && (k in r.value.store ==> r.value.store[k] == c.(amount := Asset(rest, c.amount.assetId)))
        && r.value.store - {k} == s.store - {k}
        && forall a, id :: Balance(r.value.balances, a, id) ==
             Balance(s.balances, a, id) + Credited(o.amount, o.receiver, a, id)
  {
    var k := (o.producer, o.contractId);
    if k !in s.store then Err(NotFound)
    else
      var c := s.store[k];
      if c.amount.assetId != o.amount.assetId || c.amount.amount < o.amount.amount then Err(InvalidAmount)
      else if !(o.amount.amount > 0 && c.amount.amount > 0) then Err(InvalidAmount)
      else if c.musician != o.musician || c.agent != o.agent then Err(PartyMismatch)
      else if o.receiver != c.producer && o.receiver != c.musician then Err(InvalidReceiver)
      else if !c.IsApproved() then Err(NotYetApproved)
      else match ReleaseAuthorization(c, o.who, o.receiver, now)
        case Fail(e) => Err(e)
        case Pass =>
          var paid := Adjust(s.balances, o.receiver, o.amount);
          var rest := c.amount.amount - o.amount.amount;
          // `amount` is in no index key, so the modify cannot clash.
          if rest == 0 then Ok(State(s.store - {k}, paid))
          else Ok(State(s.store[k := c.(amount := Asset(rest, c.amount.assetId))], paid))
  }
}
