/** Money movements and the refund workflow. As in Orders, each operation is a function
    on states and a method of the entity class. */
module Payments {
  import opened Options
  import opened Orders
  import Text

  datatype TransactionType = Payment | Refunding | Adjustment

  datatype TransactionStatus = TxnPending | TxnProcessing | TxnCompleted | TxnFailed | TxnReversed

  datatype Txn = Txn(
    id: Id,
    orderId: Id,
    kind: TransactionType,
    amount: nat,
    currency: string,
    status: TransactionStatus)

  function CompleteTxn(t: Txn): Result<Txn> {
    if t.status in {TxnCompleted, TxnReversed} then Err(Unhandled) else Ok(t.(status := TxnCompleted))
  }

  /** A transaction completes unless it is completed or reversed, and completes once. */
  lemma CompletesOnce(t: Txn)
    ensures CompleteTxn(t).Ok? <==> t.status != TxnCompleted && t.status != TxnReversed
    ensures CompleteTxn(t).Ok? ==>
              CompleteTxn(t).value == t.(status := TxnCompleted) && CompleteTxn(CompleteTxn(t).value).Err?
  {
  }

  class PaymentTransaction {
    const id: Id
    const orderId: Id
    const kind: TransactionType
    const amount: nat
    const currency: string
    var status: TransactionStatus

    function State(): Txn
      reads this
    {
      Txn(id, orderId, kind, amount, currency, status)
    }

    /** A new transaction is pending. */
    constructor (id: Id, orderId: Id, kind: TransactionType, amount: nat, currency: string)
      ensures State() == Txn(id, orderId, kind, amount, currency, TxnPending)
    {
      this.id, this.orderId, this.kind := id, orderId, kind;
      this.amount, this.currency, status := amount, currency, TxnPending;
    }

    method Complete() returns (e: Option<Error>)
      modifies this
      ensures match CompleteTxn(old(State()))
              case Ok(s) => e.None? && State() == s
              case Err(x) => e == Some(x) && State() == old(State())
    {
      if status in {TxnCompleted, TxnReversed} {
        return Some(Unhandled);
      }
      status := TxnCompleted;
      e := None;
    }
  }

  datatype RefundStatus =
    | Requested | UnderReview | Approved | Rejected | RefundProcessing | Completed | RefundCancelled

  datatype RefundState = RefundState(
    id: Id,
    orderId: Id,
    originalTxn: Id,
    currency: string,
    requested: nat,
    approved: Option<nat>,
    status: RefundStatus,
    txn: Option<Id>,
    rejection: Option<string>)

  function Effective(r: RefundState): nat {
    if r.approved.Some? then r.approved.value else r.requested
  }

  function Approve(r: RefundState, amount: Option<nat>): Result<RefundState> {
    var granted := if amount.Some? then amount.value else r.requested;
    if r.status !in {Requested, UnderReview} || granted > r.requested then Err(BusinessRule)
    else Ok(r.(approved := Some(granted), status := Approved))
  }

  function Reject(r: RefundState, reason: string): Result<RefundState> {
    if r.status !in {Requested, UnderReview} || Text.IsBlank(reason) then Err(BusinessRule)
    else Ok(r.(status := Rejected, rejection := Some(reason)))
  }

  function Complete(r: RefundState, txnId: Id): Result<RefundState> {
    if r.status != Approved then Err(Unhandled) else Ok(r.(status := Completed, txn := Some(txnId)))
  }

  /** No step of the workflow is left. */
  ghost predicate Over(r: RefundState) {
    && (forall amount :: Approve(r, amount).Err?)
    && (forall reason :: Reject(r, reason).Err?)
    && (forall txnId :: Complete(r, txnId).Err?)
  }

  /** A refund is decided once. An open one is either approved, for no more than was asked, and can then
      only be completed, or turned down for a reason given, and then it is over; so is a completed one. */
  lemma DecidedOnce(r: RefundState, amount: Option<nat>, reason: string, txnId: Id)
    ensures Approve(r, amount).Ok? || Reject(r, reason).Ok? ==> r.status == Requested || r.status == UnderReview
    ensures Approve(r, amount).Ok? ==>
              var a := Approve(r, amount).value;
              && Effective(a) == (if amount.Some? then amount.value else r.requested) <= r.requested
              && Approve(a, amount).Err? && Reject(a, reason).Err? && Complete(a, txnId).Ok?
              && Effective(Complete(a, txnId).value) == Effective(a) && Over(Complete(a, txnId).value)
    ensures Reject(r, reason).Ok? ==> !Text.IsBlank(reason) && Over(Reject(r, reason).value)
    ensures r.status == Requested || r.status == UnderReview ==>
              && (Approve(r, amount).Ok? <==> amount.None? || amount.value <= r.requested)
              && (Reject(r, reason).Ok? <==> !Text.IsBlank(reason))
              && Complete(r, txnId).Err?
  {
  }

  class Refund {
    const id: Id
    const orderId: Id
    const originalTxn: Id
    const currency: string
    const requestedCents: nat
    var approvedCents: Option<nat>
    var status: RefundStatus
    var refundTxn: Option<Id>
    var rejectionReason: Option<string>

    function State(): RefundState
      reads this
    {
      RefundState(id, orderId, originalTxn, currency, requestedCents, approvedCents, status, refundTxn,
                  rejectionReason)
    }

    constructor (s: RefundState)
      ensures State() == s
    {
      id, orderId, originalTxn, currency := s.id, s.orderId, s.originalTxn, s.currency;
      requestedCents, approvedCents, status, refundTxn := s.requested, s.approved, s.status, s.txn;
      rejectionReason := s.rejection;
    }

    method ApproveRefund(amount: Option<nat>) returns (e: Option<Error>)
      modifies this
      ensures match Approve(old(State()), amount)
              case Ok(s) => e.None? && State() == s
              case Err(x) => e == Some(x) && State() == old(State())
    {
      if status !in {Requested, UnderReview} {
        return Some(BusinessRule);
      }
      var granted := if amount.Some? then amount.value else requestedCents;
      if granted > requestedCents {
        return Some(BusinessRule);
      }
      approvedCents := Some(granted);
      status := Approved;
      e := None;
    }

    method RejectRefund(reason: string) returns (e: Option<Error>)
      modifies this
      ensures match Reject(old(State()), reason)
              case Ok(s) => e.None? && State() == s
              case Err(x) => e == Some(x) && State() == old(State())
    {
      if status !in {Requested, UnderReview} {
        return Some(BusinessRule);
      }
      if Text.IsBlank(reason) {
        return Some(BusinessRule);
      }
      status := Rejected;
      rejectionReason := Some(reason);
      e := None;
    }

    method CompleteRefund(txnId: Id) returns (e: Option<Error>)
      modifies this
      ensures match Complete(old(State()), txnId)
              case Ok(s) => e.None? && State() == s
              case Err(x) => e == Some(x) && State() == old(State())
    {
      if status != Approved {
        return Some(Unhandled);
      }
      status := Completed;
      refundTxn := Some(txnId);
      e := None;
    }
  }
}
