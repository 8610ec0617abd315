/** Which rows a request writes. */
module Footprints {
  import opened Options
  import opened Orders
  import opened Payments
  import opened Repository
  import opened UseCases
  import opened OrderInvariant
  import opened Ledger

  /** Rows sit under their own ids. */
  predicate KeysOk(t: Tables) {
    && (forall id :: id in t.orders ==> t.orders[id].id == id)
    && (forall r :: r in t.refunds ==> t.refunds[r].id == r)
  }

  lemma InvKeys(t: Tables)
    requires Inv(t)
    ensures KeysOk(t)
  {
    forall id | id in t.orders
      ensures t.orders[id].id == id
    {
      assert RowInv(id, t.orders[id]);
    }
    forall r | r in t.refunds
      ensures t.refunds[r].id == r
    {
      KnownStatus(t, r);
    }
  }

  /** The order a request writes, if any. */
  function Target(t: Tables, c: Command): Option<Id> {
    match c
    case RejectRefund(_, _) => None
    case RequestRefund(_, _, _, _) => None
    case ApproveRefund(r, _, _, _) => if r in t.refunds then Some(t.refunds[r].orderId) else None
    case _ => Some(c.orderId)
  }

  /** n differs from the orders of t at one id at most, and has a row there. */
  predicate OneRow(t: Tables, n: Tables, id: Id) {
    id in n.orders && n.orders == t.orders[id := n.orders[id]]
  }

  lemma EditWrites(t: Tables, c: Command)
    requires KeysOk(t) && IsEdit(c) && DoEdit(t, c).Ok?
    ensures OneRow(t, DoEdit(t, c).value, c.orderId)
    ensures c.orderId in t.orders
    ensures Entity(DoEdit(t, c).value.orders[c.orderId]) == Changed(Entity(t.orders[c.orderId]), c).value
    ensures Changed(Entity(t.orders[c.orderId]), c).Ok?
    ensures WellFormed(Changed(Entity(t.orders[c.orderId]), c).value) && !t.orders[c.orderId].isDeleted
    ensures ItemsOk(Entity(t.orders[c.orderId]).items)
    ensures DoEdit(t, c).value.refunds == t.refunds
  {
    EditShape(t, c);
    var o := GetOrder(t, c.orderId).value;
    ChangedSameOrder(o, c);
    SaveThenLoad(Changed(o, c).value);
  }

  lemma CreateWrites(t: Tables, c: Command)
    requires c.CreateOrder? && DoCreate(t, c).Ok?
    ensures OneRow(t, DoCreate(t, c).value, c.orderId)
    ensures c.orderId !in t.orders
    ensures WellFormed(Entity(DoCreate(t, c).value.orders[c.orderId]))
    ensures DoCreate(t, c).value.refunds == t.refunds
  {
    var o := AddLines(NewOrder(c), c.lines, 0).value;
    AddLinesUnstarted(NewOrder(c), c.lines, 0);
    SavedWellFormed(t, o);
    SaveThenLoad(o);
  }

  lemma DeleteWrites(t: Tables, id: Id)
    requires KeysOk(t) && DoDelete(t, id).Ok?
    ensures OneRow(t, DoDelete(t, id).value, id)
    ensures id in t.orders && t.orders[id].status in {Draft, Cancelled}
    ensures Entity(DoDelete(t, id).value.orders[id]) == Entity(t.orders[id]).(isDeleted := true)
    ensures DoDelete(t, id).value.refunds == t.refunds
  {
    SaveThenLoad(Entity(t.orders[id]).(isDeleted := true));
  }

  lemma InvoiceWrites(t: Tables, id: Id)
    requires DoInvoice(t, id).Ok?
    ensures OneRow(t, DoInvoice(t, id).value, id)
    ensures id in t.orders && Billable(t.orders[id].status)
    ensures var o := Entity(t.orders[id]);
            Entity(DoInvoice(t, id).value.orders[id])
            == if HasDelivery(o.items) then o.(items := AllInvoiced(o.items)) else o
    ensures DoInvoice(t, id).value.refunds == t.refunds
  {
    InvoicedRowsEntity(t.orders[id].items);
    assert t.orders == t.orders[id := t.orders[id]];
  }

  lemma PaymentWrites(t: Tables, id: Id, amount: nat, txnId: Id, today: int)
    requires KeysOk(t) && DoPayment(t, id, amount, txnId, today).Ok?
    ensures OneRow(t, DoPayment(t, id, amount, txnId, today).value, id)
    ensures id in t.orders && !t.orders[id].isDeleted && t.orders[id].status !in {Draft, Cancelled}
    ensures var o := Entity(t.orders[id]);
            var n := Entity(DoPayment(t, id, amount, txnId, today).value.orders[id]);
            n == o.(paid := o.paid + amount, paymentStatus := n.paymentStatus)
    ensures DoPayment(t, id, amount, txnId, today).value.refunds == t.refunds
  {
    PaymentShape(t, id, amount, txnId, today);
    var o := GetOrder(t, id).value;
    PaymentChanges(o, amount, today);
    SaveThenLoad(WithPayment(o, amount, o.currency, today).value);
  }

  lemma ApprovalWrites(t: Tables, r: Id, approved: Option<nat>, txnId: Id, today: int)
    requires KeysOk(t) && DoApprove(t, r, approved, txnId, today).Ok?
    ensures r in t.refunds && t.refunds[r].status in {Requested, UnderReview}
    ensures var id := t.refunds[r].orderId;
            && OneRow(t, DoApprove(t, r, approved, txnId, today).value, id)
            && id in t.orders && !t.orders[id].isDeleted
            && var o := Entity(t.orders[id]);
            && var n := Entity(DoApprove(t, r, approved, txnId, today).value.orders[id]);
            && 0 < o.paid && n == o.(paid := n.paid, refunded := n.refunded, paymentStatus := n.paymentStatus)
    ensures DoApprove(t, r, approved, txnId, today).value.refunds
         == t.refunds[r := DoApprove(t, r, approved, txnId, today).value.refunds[r]]
  {
    ApproveShape(t, r, approved, txnId, today);
    var o := GetOrder(t, t.refunds[r].orderId).value;
    var granted := Granted(t.refunds[r], approved);
    RefundChanges(o, granted, today);
    SaveThenLoad(WithRefund(o, granted, today).value);
  }

  /** A request writes its target row and no other. */
  lemma WritesTarget(t: Tables, c: Command)
    requires KeysOk(t) && Step(t, c).Ok?
    ensures Target(t, c).None? ==> Step(t, c).value.orders == t.orders
    ensures Target(t, c).Some? ==> OneRow(t, Step(t, c).value, Target(t, c).value)
  {
    match c
    case CreateOrder(_, _, _, _, _, _, _, _) => CreateWrites(t, c);
    case ConvertQuote(_, _, _, _) =>
    case DeleteOrder(id) => DeleteWrites(t, id);
    case RecordPayment(id, amount, txnId, today) => PaymentWrites(t, id, amount, txnId, today);
    case RequestRefund(refundId, id, originalTxn, amount) => RequestShape(t, refundId, id, originalTxn, amount);
    case ApproveRefund(r, approved, txnId, today) => ApprovalWrites(t, r, approved, txnId, today);
    case RejectRefund(_, _) =>
    case GenerateInvoice(id) => InvoiceWrites(t, id);
    case _ => EditWrites(t, c);
  }

  /** Any other order stays as it was, present or not. */
  lemma OthersUntouched(t: Tables, c: Command, id: Id)
    requires KeysOk(t) && (Step(t, c).Err? || Target(t, c) != Some(id))
    ensures id in Commit(t, c).orders <==> id in t.orders
    ensures id in t.orders ==> Commit(t, c).orders[id] == t.orders[id]
  {
    if Step(t, c).Ok? {
      WritesTarget(t, c);
    }
  }

  /** A refund that is not open is not written. */
  lemma ClosedRefundUntouched(t: Tables, c: Command, r: Id)
    requires KeysOk(t) && r in t.refunds && t.refunds[r].status !in {Requested, UnderReview}
    ensures r in Commit(t, c).refunds && Commit(t, c).refunds[r] == t.refunds[r]
  {
    if Step(t, c).Ok? {
      match c
      case RequestRefund(refundId, id, originalTxn, amount) => RequestShape(t, refundId, id, originalTxn, amount);
      case ApproveRefund(s, approved, txnId, today) => ApprovalWrites(t, s, approved, txnId, today);
      case RejectRefund(_, _) =>
      case _ => RefundsUntouched(t, c);
    }
  }

  /** Only the refund requests write refunds. */
  lemma RefundsUntouched(t: Tables, c: Command)
    requires KeysOk(t) && Step(t, c).Ok? && !c.RequestRefund? && !c.ApproveRefund? && !c.RejectRefund?
    ensures Step(t, c).value.refunds == t.refunds
  {
    match c
    case CreateOrder(_, _, _, _, _, _, _, _) => CreateWrites(t, c);
    case ConvertQuote(_, _, _, _) =>
    case DeleteOrder(id) => DeleteWrites(t, id);
    case RecordPayment(id, amount, txnId, today) => PaymentWrites(t, id, amount, txnId, today);
    case GenerateInvoice(id) => InvoiceWrites(t, id);
    case _ => EditWrites(t, c);
  }
}
