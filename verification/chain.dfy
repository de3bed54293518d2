/**
 Operations applied one after another, as the chain's sequential operation
 processor applies them: a refused operation leaves the state as it was.
 */
module Chain {
  import opened Types
  import opened Ledger
  import opened ContractObject
  import opened Protocol
  import opened Evaluator

  /** One operation together with the head block time it is applied at. */
  datatype Event = Event(op: Operation, now: Time)

  /** The (producer, contract id) key an operation addresses. */
  function OpKey(op: Operation): Key
  {
    match op
    case Transfer(o) => (o.producer, o.contractId)
    case Approve(o) => (o.producer, o.contractId)
    case Dispute(o) => (o.producer, o.contractId)
    case Release(o) => (o.producer, o.contractId)
  }

  /**
   Dispatches an operation to its evaluator. Every transition keeps the
   store valid: records filed under their own key, approval keys unique,
   approved records with the fee settled, disputes only on approved records.
   */
  function Step(s: State, op: Operation, now: Time, hardfork: Time): (r: Result<State>)
    ensures Valid(s.store) && r.Ok? ==> Valid(r.value.store)
    ensures r.Ok? ==> r.value.store - {OpKey(op)} == s.store - {OpKey(op)}
  {
    match op
    case Transfer(o) => Open(s, o, now)
    case Approve(o) => ApproveOrReject(s, o, now)
    case Dispute(o) => RaiseDispute(s, o, now, hardfork)
    case Release(o) => ReleaseFunds(s, o, now)
  }

  /** The state after an event: the refused operation changes nothing. */
  function Next(s: State, e: Event, hardfork: Time): State
  {
    match Step(s, e.op, e.now, hardfork)
    case Ok(s') => s'
    case Err(_) => s
  }

  /** Every state a sequence of events passes through, the initial one first. */
  function Trace(s: State, evs: seq<Event>, hardfork: Time): (t: seq<State>)
    ensures |t| == |evs| + 1 && t[0] == s
    ensures forall i :: 0 <= i < |evs| ==> t[i + 1] == Next(t[i], evs[i], hardfork)
    decreases |evs|
  {
    if |evs| == 0 then [s]
    else
      var rest := Trace(Next(s, evs[0], hardfork), evs[1..], hardfork);
      assert forall i :: 1 <= i < |evs| ==> evs[i] == evs[1..][i - 1];
      [s] + rest
  }

  /** Validity holds in every state a valid store passes through. */
  lemma {:induction false} TracePreservesValid(s: State, evs: seq<Event>, hardfork: Time, i: nat)
    requires Valid(s.store)
    requires i <= |evs|
    ensures Valid(Trace(s, evs, hardfork)[i].store)
    decreases i
  {
    var t := Trace(s, evs, hardfork);
    if i > 0 {
      TracePreservesValid(s, evs, hardfork, i - 1);
      assert t[i] == Next(t[i - 1], evs[i - 1], hardfork);
    }
  }

  /** A single event on a record that survives it changes the record only as `Evolves` allows. */
  lemma StepEvolves(s: State, e: Event, hardfork: Time, k: Key)
    requires k in s.store && k in Next(s, e, hardfork).store
    ensures Evolves(s.store[k], Next(s, e, hardfork).store[k])
  {
  }

  /**
   Between any two states of a trace in which a record is present
   throughout, the record only evolves: no approval or dispute is ever
   withdrawn and its parties and terms never change.
   */
  lemma {:induction false} TraceEvolves(s: State, evs: seq<Event>, hardfork: Time, k: Key, i: nat, j: nat)
    requires i <= j <= |evs|
    requires forall m :: i <= m <= j ==> k in Trace(s, evs, hardfork)[m].store
    ensures Evolves(Trace(s, evs, hardfork)[i].store[k], Trace(s, evs, hardfork)[j].store[k])
    decreases j - i
  {
    var t := Trace(s, evs, hardfork);
    if i < j {
      TraceEvolves(s, evs, hardfork, k, i, j - 1);
      assert k in t[j - 1].store && k in t[j].store;
      assert t[j] == Next(t[j - 1], evs[j - 1], hardfork);
      StepEvolves(t[j - 1], evs[j - 1], hardfork, k);
      EvolvesTransitive(t[i].store[k], t[j - 1].store[k], t[j].store[k]);
    }
  }

  /** Event `i` takes the record at `k` from not approved to approved. */
  ghost predicate CompletesApproval(t: seq<State>, k: Key, i: nat)
  {
    && i + 1 < |t|
    && k in t[i].store && k in t[i + 1].store
    && !t[i].store[k].IsApproved() && t[i + 1].store[k].IsApproved()
  }

  /**
   While a record lives, full approval (and with it the payment of the
   pending fee to the agent) happens at most once, whichever party
   approved first.
   */
  lemma ApprovalCompletesAtMostOnce(s: State, evs: seq<Event>, hardfork: Time, k: Key, i: nat, j: nat)
    requires i < j < |evs|
    requires forall m :: i <= m <= j + 1 ==> k in Trace(s, evs, hardfork)[m].store
    ensures !(CompletesApproval(Trace(s, evs, hardfork), k, i) && CompletesApproval(Trace(s, evs, hardfork), k, j))
  {
    var t := Trace(s, evs, hardfork);
    TraceEvolves(s, evs, hardfork, k, i + 1, j);
  }

  /** The pending fee of a live record changes only on the event that completes its approval. */
  lemma PendingFeeChangesOnlyAtApproval(s: State, e: Event, hardfork: Time, k: Key)
    requires k in s.store && k in Next(s, e, hardfork).store
    requires Next(s, e, hardfork).store[k].pendingFee != s.store[k].pendingFee
    ensures CompletesApproval([s, Next(s, e, hardfork)], k, 0)
    ensures e.op.Approve? && e.op.approval.approve
    ensures Next(s, e, hardfork).store[k].pendingFee.amount == 0
  {
  }
}
