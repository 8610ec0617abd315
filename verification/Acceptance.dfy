/** Exactly which payments and refunds are committed, what they leave, and why the others are refused. */
module Acceptance {
  import opened Options
  import opened Orders
  import opened Payments
  import opened Repository
  import opened UseCases
  import opened OrderInvariant
  import opened Ledger
  import OrderRequests
  import Text

  // ----- what an amount makes of an order -----

  /** The payment status, case by case: a refund of everything comes first, then payment in full, and
      only on an order without money does the date count. */
  lemma ClassifyExactly(paid: nat, refunded: nat, total: nat, due: Option<int>, today: int)
    ensures var s := Classify(paid, refunded, total, due, today);
            && (s == Refunded <==> total <= refunded)
            && (s == Paid <==> refunded < total <= paid)
            && (s == PartialRefund <==> refunded < total && 0 < paid < total && 0 < refunded)
            && (s == Partial <==> refunded < total && 0 < paid < total && refunded == 0)
            && (s == Overdue <==> refunded < total && paid == 0 && due.Some? && due.value < today)
            && (s == Pending <==> refunded < total && paid == 0 && (due.None? || today <= due.value))
  {
  }

  /** The order with other amounts on it, classified by them. */
  function WithMoney(o: OrderState, paid: nat, refunded: nat, today: int): OrderState
    requires 0 <= Total(o)
  {
    o.(paid := paid, refunded := refunded, paymentStatus := Classify(paid, refunded, Total(o), o.dueDate, today))
  }

  // ----- refunds and payments -----

  predicate ApprovalFits(t: Tables, refundId: Id, approved: Option<nat>, txnId: Id) {
    && refundId in t.refunds && txnId !in t.txns
    && var f := t.refunds[refundId];
    && f.status == Requested && Granted(f, approved) <= f.requested
    && f.orderId in t.orders && !t.orders[f.orderId].isDeleted
    && Granted(f, approved) <= t.orders[f.orderId].paidCents
  }

  /** An approval goes through exactly when the request is still open, it grants no more than
      was requested, the order is there and has that much paid on it. */
  lemma ApprovalAccepted(t: Tables, refundId: Id, approved: Option<nat>, txnId: Id, today: int)
    requires Inv(t)
    ensures Step(t, ApproveRefund(refundId, approved, txnId, today)).Ok?
       <==> ApprovalFits(t, refundId, approved, txnId)
  {
    if refundId in t.refunds {
      KnownStatus(t, refundId);
    }
    if DoApprove(t, refundId, approved, txnId, today).Ok? {
      ApprovalNecessary(t, refundId, approved, txnId, today);
    } else if ApprovalFits(t, refundId, approved, txnId) {
      RefundRequested(t, refundId);
      RefundRow(t, t.refunds[refundId].orderId, Granted(t.refunds[refundId], approved), today);
      ApprovalSuffices(t, refundId, approved, txnId, today);
    }
  }

  lemma ApprovalNecessary(t: Tables, refundId: Id, approved: Option<nat>, txnId: Id, today: int)
    requires DoApprove(t, refundId, approved, txnId, today).Ok?
    requires t.refunds[refundId].status in {Requested, Rejected, Completed}
    ensures ApprovalFits(t, refundId, approved, txnId)
  {
    ApproveShape(t, refundId, approved, txnId, today);
    var f := t.refunds[refundId];
    RefundChanges(GetOrder(t, f.orderId).value, Granted(f, approved), today);
  }

  lemma ApprovalSuffices(t: Tables, refundId: Id, approved: Option<nat>, txnId: Id, today: int)
    requires ApprovalFits(t, refundId, approved, txnId)
    requires var f := t.refunds[refundId];
             && GetOrder(t, f.orderId).Ok?
             && WithRefund(GetOrder(t, f.orderId).value, Granted(f, approved), today).Ok?
             && Load(ToRow(WithRefund(GetOrder(t, f.orderId).value, Granted(f, approved), today).value)).Ok?
    ensures DoApprove(t, refundId, approved, txnId, today).Ok?
  {
    var f := t.refunds[refundId];
    var given := if approved == Some(0) then None else approved;
    assert Approve(f, given) == Ok(f.(approved := Some(Granted(f, approved)), status := Approved));
  }

  lemma RefundRequested(t: Tables, r: Id)
    requires MoneyInv(t) && r in t.refunds
    ensures t.refunds[r].requested > 0
  {
    assert RefundInv(t.refunds[r], t.txns, t.orders);
  }

  lemma RefundRow(t: Tables, id: Id, amount: nat, today: int)
    requires OrdersInv(t.orders) && id in t.orders && !t.orders[id].isDeleted
    requires 0 < amount <= t.orders[id].paidCents
    ensures GetOrder(t, id).Ok? && WithRefund(GetOrder(t, id).value, amount, today).Ok?
    ensures Load(ToRow(WithRefund(GetOrder(t, id).value, amount, today).value)).Ok?
  {
    assert RowInv(id, t.orders[id]);
    RefundGoesThrough(Entity(t.orders[id]), amount, today);
  }

  /** With enough paid, an order with money on it accepts a refund and can be saved. */
  lemma RefundGoesThrough(o: OrderState, amount: nat, today: int)
    requires OrderInv(o) && 0 < amount <= o.paid
    ensures Load(ToRow(o)) == Ok(o)
    ensures WithRefund(o, amount, today).Ok?
    ensures Load(ToRow(WithRefund(o, amount, today).value)).Ok?
  {
    SaveThenLoad(o);
    MoneyKeepsTerms(o, o.paid - amount, o.refunded + amount, o.paymentStatus);
    SaveThenLoad(WithRefund(o, amount, today).value);
  }

  /** An approval grants the amount it gives, and all that was requested when it gives none or zero. */
  lemma GrantedExactly(f: RefundState, approved: Option<nat>)
    ensures approved.Some? && approved.value > 0 ==> Granted(f, approved) == approved.value
    ensures approved.None? || approved.value == 0 ==> Granted(f, approved) == f.requested
  {
  }

  /** An accepted approval writes one completed refund transaction of what it grants, moves that much
      from the paid to the refunded side of the order and completes the refund with it. */
  lemma ApprovalWritten(t: Tables, refundId: Id, approved: Option<nat>, txnId: Id, today: int)
    requires OrdersInv(t.orders) && RefundsInv(t.refunds, t.txns, t.orders)
    requires Step(t, ApproveRefund(refundId, approved, txnId, today)).Ok?
    ensures refundId in t.refunds && t.refunds[refundId].orderId in t.orders
    ensures var f := t.refunds[refundId];
            var granted := Granted(f, approved);
            var o := Entity(t.orders[f.orderId]);
            && 0 < granted <= o.paid && 0 <= Total(o)
            && Step(t, ApproveRefund(refundId, approved, txnId, today)).value
               == Tables(t.orders[f.orderId := ToRow(WithMoney(o, o.paid - granted, o.refunded + granted, today))],
                         t.txns[txnId := Txn(txnId, f.orderId, Refunding, granted, o.currency, TxnCompleted)],
                         t.refunds[refundId := f.(approved := Some(granted), status := Completed, txn := Some(txnId))])
  {
    ApprovedIsThere(t, refundId, approved, txnId, today);
    RefundOrder(t, refundId);
    var f := t.refunds[refundId];
    ApprovalLeaves(t, refundId, approved, txnId, today, f, Entity(t.orders[f.orderId]), Granted(f, approved));
  }

  lemma ApprovedIsThere(t: Tables, refundId: Id, approved: Option<nat>, txnId: Id, today: int)
    requires Step(t, ApproveRefund(refundId, approved, txnId, today)).Ok?
    ensures refundId in t.refunds
    ensures Step(t, ApproveRefund(refundId, approved, txnId, today)) == DoApprove(t, refundId, approved, txnId, today)
  {
  }

  lemma RefundOrder(t: Tables, r: Id)
    requires OrdersInv(t.orders) && RefundsInv(t.refunds, t.txns, t.orders) && r in t.refunds
    ensures var f := t.refunds[r];
            f.orderId in t.orders && t.orders[f.orderId].id == f.orderId && t.orders[f.orderId].currency == f.currency
  {
    assert RefundInv(t.refunds[r], t.txns, t.orders);
    assert RowInv(t.refunds[r].orderId, t.orders[t.refunds[r].orderId]);
  }

  lemma ApprovalLeaves(t: Tables, refundId: Id, approved: Option<nat>, txnId: Id, today: int,
                       f: RefundState, o: OrderState, granted: nat)
    requires DoApprove(t, refundId, approved, txnId, today).Ok?
    requires f == t.refunds[refundId] && granted == Granted(f, approved)
    requires f.orderId in t.orders && o == Entity(t.orders[f.orderId]) && o.id == f.orderId
    ensures 0 < granted <= o.paid && 0 <= Total(o)
    ensures DoApprove(t, refundId, approved, txnId, today).value
         == Tables(t.orders[o.id := ToRow(WithMoney(o, o.paid - granted, o.refunded + granted, today))],
                   t.txns[txnId := Txn(txnId, o.id, Refunding, granted, f.currency, TxnCompleted)],
                   t.refunds[refundId := f.(approved := Some(granted), status := Completed, txn := Some(txnId))])
  {
    ApproveShape(t, refundId, approved, txnId, today);
    assert GetOrder(t, o.id) == Ok(o);
    RefundLeaves(o, granted, today);
  }

  lemma RefundLeaves(o: OrderState, amount: nat, today: int)
    requires WithRefund(o, amount, today).Ok?
    ensures amount <= o.paid && 0 <= Total(o)
    ensures WithRefund(o, amount, today).value == WithMoney(o, o.paid - amount, o.refunded + amount, today)
  {
    MoneyKeepsTerms(o, o.paid - amount, o.refunded + amount, o.paymentStatus);
  }

  /** A refund is turned down exactly while its request is open and for a reason given; the reason is
      recorded with it and nothing else changes. */
  lemma RejectionAccepted(t: Tables, refundId: Id, reason: string)
    requires Inv(t)
    ensures Step(t, RejectRefund(refundId, reason)).Ok?
       <==> refundId in t.refunds && t.refunds[refundId].status == Requested && !Text.IsBlank(reason)
    ensures Step(t, RejectRefund(refundId, reason)).Ok? ==>
              Step(t, RejectRefund(refundId, reason)).value
              == t.(refunds := t.refunds[refundId := t.refunds[refundId].(status := Rejected, rejection := Some(reason))])
  {
    if refundId in t.refunds {
      KnownStatus(t, refundId);
    }
  }

  predicate RequestFits(t: Tables, refundId: Id, id: Id, originalTxn: Id, amount: nat) {
    && id in t.orders && !t.orders[id].isDeleted && refundId !in t.refunds
    && originalTxn in t.txns && t.txns[originalTxn].orderId == id
    && 0 < amount <= t.orders[id].paidCents
  }

  /** A refund is requested exactly on a live order, for a transaction of that order and for no more
      than is paid on it; the transaction's own amount does not matter. */
  lemma RequestAccepted(t: Tables, refundId: Id, id: Id, originalTxn: Id, amount: nat)
    requires OrdersInv(t.orders)
    ensures Step(t, RequestRefund(refundId, id, originalTxn, amount)).Ok?
       <==> RequestFits(t, refundId, id, originalTxn, amount)
    ensures Step(t, RequestRefund(refundId, id, originalTxn, amount)).Ok? ==>
              Step(t, RequestRefund(refundId, id, originalTxn, amount)).value
              == t.(refunds := t.refunds[refundId := RefundState(refundId, id, originalTxn, t.orders[id].currency,
                                                                  amount, None, Requested, None, None)])
  {
    assert Step(t, RequestRefund(refundId, id, originalTxn, amount))
        == DoRequestRefund(t, refundId, id, originalTxn, amount);
    if id in t.orders && !t.orders[id].isDeleted {
      assert RowInv(id, t.orders[id]);
      if t.orders[id].paidCents > 0 {
        assert GetOrder(t, id) == Ok(Entity(t.orders[id]));
      }
    }
  }

  predicate PaymentFits(t: Tables, id: Id, amount: nat, txnId: Id) {
    && id in t.orders && !t.orders[id].isDeleted && txnId !in t.txns
    && t.orders[id].status !in {Draft, Cancelled} && 0 < amount
    && (Total(Entity(t.orders[id])) == 0 || t.orders[id].paidCents + amount <= Total(Entity(t.orders[id])))
  }

  /** A payment is accepted exactly on a live order past draft, for a positive amount that
      does not pass a positive total. On an order whose total is zero any amount is taken. */
  lemma PaymentAccepted(t: Tables, id: Id, amount: nat, txnId: Id, today: int)
    requires OrdersInv(t.orders)
    ensures Step(t, RecordPayment(id, amount, txnId, today)).Ok? <==> PaymentFits(t, id, amount, txnId)
  {
    assert Step(t, RecordPayment(id, amount, txnId, today)) == DoPayment(t, id, amount, txnId, today);
    if id in t.orders && !t.orders[id].isDeleted {
      assert RowInv(id, t.orders[id]);
      if t.orders[id].status != Draft {
        PaymentOnRow(t, id, amount, txnId, today);
      } else {
        NoPaymentOnDraft(t, id, amount, txnId, today);
      }
    }
  }

  /** An accepted payment writes one completed transaction of its amount and adds it to the paid side
      of the order. */
  lemma PaymentWritten(t: Tables, id: Id, amount: nat, txnId: Id, today: int)
    requires OrdersInv(t.orders) && Step(t, RecordPayment(id, amount, txnId, today)).Ok?
    ensures PaymentFits(t, id, amount, txnId)
    ensures var o := Entity(t.orders[id]);
            && 0 <= Total(o)
            && Step(t, RecordPayment(id, amount, txnId, today)).value
               == Tables(t.orders[id := ToRow(WithMoney(o, o.paid + amount, o.refunded, today))],
                         t.txns[txnId := Txn(txnId, id, Payment, amount, o.currency, TxnCompleted)],
                         t.refunds)
  {
    PaymentAccepted(t, id, amount, txnId, today);
    OwnKey(t, id);
    PaymentLeaves(t, id, amount, txnId, today, Entity(t.orders[id]));
  }

  lemma OwnKey(t: Tables, id: Id)
    requires OrdersInv(t.orders) && id in t.orders
    ensures t.orders[id].id == id
  {
    assert RowInv(id, t.orders[id]);
  }

  lemma PaymentLeaves(t: Tables, id: Id, amount: nat, txnId: Id, today: int, o: OrderState)
    requires DoPayment(t, id, amount, txnId, today).Ok?
    requires id in t.orders && o == Entity(t.orders[id]) && o.id == id
    ensures 0 <= Total(o)
    ensures DoPayment(t, id, amount, txnId, today).value
         == Tables(t.orders[id := ToRow(WithMoney(o, o.paid + amount, o.refunded, today))],
                   t.txns[txnId := Txn(txnId, id, Payment, amount, o.currency, TxnCompleted)], t.refunds)
  {
    PaymentShape(t, id, amount, txnId, today);
    assert GetOrder(t, id) == Ok(o);
    PaidLeaves(o, amount, today);
  }

  lemma PaidLeaves(o: OrderState, amount: nat, today: int)
    requires WithPayment(o, amount, o.currency, today).Ok?
    ensures 0 <= Total(o)
    ensures WithPayment(o, amount, o.currency, today).value == WithMoney(o, o.paid + amount, o.refunded, today)
  {
    MoneyKeepsTerms(o, o.paid + amount, o.refunded, o.paymentStatus);
  }

  lemma NoPaymentOnDraft(t: Tables, id: Id, amount: nat, txnId: Id, today: int)
    requires id in t.orders && t.orders[id].status == Draft
    ensures DoPayment(t, id, amount, txnId, today).Err?
  {
  }

  lemma PaymentOnRow(t: Tables, id: Id, amount: nat, txnId: Id, today: int)
    requires id in t.orders && !t.orders[id].isDeleted && t.orders[id].status != Draft
    requires OrderInv(Entity(t.orders[id]))
    ensures DoPayment(t, id, amount, txnId, today).Ok? <==> PaymentFits(t, id, amount, txnId)
  {
    PaymentGoesThrough(Entity(t.orders[id]), amount, today);
    PaymentDecides(t, id, amount, txnId, today);
  }

  /** Once the order loads, its own checks and the transaction id decide. */
  lemma PaymentDecides(t: Tables, id: Id, amount: nat, txnId: Id, today: int)
    requires id in t.orders && !t.orders[id].isDeleted
    requires var o := Entity(t.orders[id]);
             && ItemsOk(o.items) && CurrencyOk(o.currency)
             && (ValidatePayment(o, amount, o.currency).None? ==>
                   && WithPayment(o, amount, o.currency, today).Ok?
                   && Load(ToRow(WithPayment(o, amount, o.currency, today).value)).Ok?)
    ensures var o := Entity(t.orders[id]);
            DoPayment(t, id, amount, txnId, today).Ok?
            <==> ValidatePayment(o, amount, o.currency).None? && txnId !in t.txns
  {
  }

  lemma PaymentGoesThrough(o: OrderState, amount: nat, today: int)
    requires OrderInv(o) && o.status != Draft
    ensures TotalOf(o) == Ok(Total(o)) && ItemsOk(o.items) && CurrencyOk(o.currency)
    ensures ValidatePayment(o, amount, o.currency).None? <==>
              && o.status != Cancelled && 0 < amount
              && (Total(o) == 0 || o.paid + amount <= Total(o))
    ensures o.status != Cancelled && 0 < amount ==>
              && WithPayment(o, amount, o.currency, today).Ok?
              && Load(ToRow(WithPayment(o, amount, o.currency, today).value)).Ok?
  {
    if o.status != Cancelled && 0 < amount {
      MoneyKeepsTerms(o, o.paid + amount, o.refunded, o.paymentStatus);
      PaymentChanges(o, amount, today);
      SaveThenLoad(WithPayment(o, amount, o.currency, today).value);
    }
  }

  // ----- what is missing -----

  /** What the request names is not there: its client, its order, a transaction of that order, or its
      refund. A refund only looks for its order once the request itself stands. */
  predicate Missing(t: Tables, c: Command) {
    match c
    case CreateOrder(_, client, _, _, _, _, _, _) => client == NoClient
    case ConvertQuote(_, _, _, _) => false
    case UpdateOrder(id, e) => e.lines != Some([]) && !OrderRequests.Live(t, id)
    case RequestRefund(_, id, txn, _) =>
      || !OrderRequests.Live(t, id)
      || (Load(t.orders[id]).Ok? && (txn !in t.txns || t.txns[txn].orderId != id))
    case ApproveRefund(r, approved, _, _) =>
      || r !in t.refunds
      || (&& t.refunds[r].status in {Requested, UnderReview} && Granted(t.refunds[r], approved) <= t.refunds[r].requested
          && !OrderRequests.Live(t, t.refunds[r].orderId))
    case RejectRefund(r, _) => r !in t.refunds
    case GenerateInvoice(id) => id !in t.orders
    case _ => !OrderRequests.Live(t, c.orderId)
  }

  /** A request is answered with not found exactly when what it names is missing. */
  lemma NotFoundExactly(t: Tables, c: Command)
    ensures Step(t, c) == Err(NotFound) <==> Missing(t, c)
  {
    if IsEdit(c) {
      EditNotFound(t, c);
    } else {
      match c
      case CreateOrder(_, _, _, _, _, _, _, _) => ClientRefused(t, c);
      case RecordPayment(id, amount, txnId, today) => PaymentNotFound(t, id, amount, txnId, today);
      case ApproveRefund(r, approved, txnId, today) => ApprovalNotFound(t, r, approved, txnId, today);
      case _ =>
    }
  }

  lemma ChangedNeverMissing(o: OrderState, c: Command)
    requires IsEdit(c)
    ensures Changed(o, c) != Err(NotFound)
  {
    if c.UpdateOrder? && c.orderEdit.lines.Some? {
      NewItemsNeverMissing(c.orderEdit.lines.value, o.currency);
    }
  }

  lemma {:induction false} NewItemsNeverMissing(lines: seq<NewLine>, currency: string)
    ensures NewItems(lines, currency) != Err(NotFound)
  {
    if lines != [] {
      NewItemsNeverMissing(lines[1..], currency);
    }
  }

  lemma {:induction false} AddLinesErrors(o: OrderState, lines: seq<NewLine>, position: nat)
    ensures AddLines(o, lines, position) != Err(NotFound) && AddLines(o, lines, position) != Err(BusinessRule)
    decreases |lines|
  {
    if lines != [] {
      var item := BuildItem(lines[0], o.currency, if lines[0].sortOrder != 0 then lines[0].sortOrder else position);
      if item.Ok? && WithItem(o, item.value).Ok? {
        AddLinesErrors(WithItem(o, item.value).value, lines[1..], position + 1);
      }
    }
  }

  lemma SavingErrors(t: Tables, o: OrderState)
    ensures SaveAndRespond(t, o) != Err(NotFound) && SaveAndRespond(t, o) != Err(BusinessRule)
  {
  }

  lemma EditNotFound(t: Tables, c: Command)
    requires IsEdit(c)
    ensures Step(t, c) == Err(NotFound) <==> Missing(t, c)
  {
    assert Step(t, c) == DoEdit(t, c);
    if GetOrder(t, c.orderId).Ok? {
      ChangedNeverMissing(GetOrder(t, c.orderId).value, c);
      var n := Changed(GetOrder(t, c.orderId).value, c);
      if n.Ok? {
        SavingErrors(t, n.value);
      }
    }
  }

  /** A new order breaks a rule exactly when its client is there but not active. */
  lemma ClientRefused(t: Tables, c: Command)
    requires c.CreateOrder?
    ensures Step(t, c) == Err(NotFound) <==> c.client == NoClient
    ensures Step(t, c) == Err(BusinessRule) <==> c.client == InactiveClient
  {
    AddLinesErrors(NewOrder(c), c.lines, 0);
    var o := AddLines(NewOrder(c), c.lines, 0);
    if o.Ok? {
      SavingErrors(t, o.value);
    }
    assert Step(t, c) == DoCreate(t, c);
  }

  lemma PaymentNotFound(t: Tables, id: Id, amount: nat, txnId: Id, today: int)
    ensures DoPayment(t, id, amount, txnId, today) == Err(NotFound) <==> !OrderRequests.Live(t, id)
  {
  }

  lemma ApprovalNotFound(t: Tables, r: Id, approved: Option<nat>, txnId: Id, today: int)
    ensures DoApprove(t, r, approved, txnId, today) == Err(NotFound) <==> Missing(t, ApproveRefund(r, approved, txnId, today))
  {
  }

  // ----- why money is refused -----

  predicate PastDraft(t: Tables, id: Id) {
    OrderRequests.Live(t, id) && t.orders[id].status != Draft && t.orders[id].status != Cancelled
  }

  /** The amount would pass the total of the order, when that is positive. */
  predicate TooMuch(t: Tables, id: Id, amount: nat)
    requires id in t.orders
  {
    Total(Entity(t.orders[id])) > 0 && t.orders[id].paidCents + amount > Total(Entity(t.orders[id]))
  }

  /** A payment is refused for the state of a draft or cancelled order, by the rules for no amount or too
      high a one, and as a duplicate when only its id is in the way. */
  lemma PaymentRefused(t: Tables, id: Id, amount: nat, txnId: Id, today: int)
    requires OrdersInv(t.orders)
    ensures var r := Step(t, RecordPayment(id, amount, txnId, today));
            && (r == Err(InvalidState) <==> OrderRequests.Live(t, id) && Load(t.orders[id]).Ok? && !PastDraft(t, id))
            && (r == Err(BusinessRule) <==> PastDraft(t, id) && (amount == 0 || TooMuch(t, id, amount)))
            && (r == Err(DuplicateKey) <==> PastDraft(t, id) && txnId in t.txns && 0 < amount && !TooMuch(t, id, amount))
  {
    assert Step(t, RecordPayment(id, amount, txnId, today)) == DoPayment(t, id, amount, txnId, today);
    if OrderRequests.Live(t, id) {
      assert RowInv(id, t.orders[id]);
      PaymentRefusedOn(t, id, amount, txnId, today, Entity(t.orders[id]));
    }
  }

  lemma PaymentRefusedOn(t: Tables, id: Id, amount: nat, txnId: Id, today: int, o: OrderState)
    requires OrderRequests.Live(t, id) && o == Entity(t.orders[id]) && OrderInv(o)
    ensures var r := DoPayment(t, id, amount, txnId, today);
            && (r == Err(InvalidState) <==> Load(t.orders[id]).Ok? && !PastDraft(t, id))
            && (r == Err(BusinessRule) <==> PastDraft(t, id) && (amount == 0 || TooMuch(t, id, amount)))
            && (r == Err(DuplicateKey) <==> PastDraft(t, id) && txnId in t.txns && 0 < amount && !TooMuch(t, id, amount))
  {
    assert GetOrder(t, id) == Load(t.orders[id]);
    assert o.status == t.orders[id].status && o.paid == t.orders[id].paidCents;
    if o.status != Draft {
      PaymentGoesThrough(o, amount, today);
      assert Load(t.orders[id]) == Ok(o);
    }
    ValidationRefused(o, amount);
  }

  lemma ValidationRefused(o: OrderState, amount: nat)
    requires OrderInv(o)
    ensures var v := ValidatePayment(o, amount, o.currency);
            && (v == Some(InvalidState) <==> o.status == Draft || o.status == Cancelled)
            && (v == Some(BusinessRule) <==>
                  && o.status != Draft && o.status != Cancelled
                  && (amount == 0 || (Total(o) > 0 && o.paid + amount > Total(o))))
            && (v.Some? ==> v.value == InvalidState || v.value == BusinessRule)
  {
  }

  /** A refund of more than is paid has an error of its own; a refund of nothing breaks a rule. */
  lemma RequestRefused(t: Tables, refundId: Id, id: Id, originalTxn: Id, amount: nat)
    ensures var r := Step(t, RequestRefund(refundId, id, originalTxn, amount));
            var found := && OrderRequests.Live(t, id) && Load(t.orders[id]).Ok?
                         && originalTxn in t.txns && t.txns[originalTxn].orderId == id;
            && (r == Err(RefundExceedsPaid) <==> found && t.orders[id].paidCents < amount)
            && (r == Err(BusinessRule) <==> found && amount == 0)
            && (r == Err(DuplicateKey) <==> found && 0 < amount <= t.orders[id].paidCents && refundId in t.refunds)
  {
    assert Step(t, RequestRefund(refundId, id, originalTxn, amount))
        == DoRequestRefund(t, refundId, id, originalTxn, amount);
  }

  /** Both decisions on a refund break a rule once it is no longer open; so does granting more than was
      requested, and turning it down without a reason. */
  lemma DecisionRefused(t: Tables, refundId: Id, approved: Option<nat>, txnId: Id, today: int, reason: string)
    requires Inv(t)
    ensures Step(t, ApproveRefund(refundId, approved, txnId, today)) == Err(BusinessRule) <==>
              && refundId in t.refunds
              && (t.refunds[refundId].status != Requested || Granted(t.refunds[refundId], approved) > t.refunds[refundId].requested)
    ensures Step(t, RejectRefund(refundId, reason)) == Err(BusinessRule) <==>
              refundId in t.refunds && (t.refunds[refundId].status != Requested || Text.IsBlank(reason))
  {
    if refundId in t.refunds {
      KnownStatus(t, refundId);
      ApprovalRefused(t, refundId, approved, txnId, today);
    }
  }

  lemma ApprovalRefused(t: Tables, refundId: Id, approved: Option<nat>, txnId: Id, today: int)
    requires refundId in t.refunds && t.refunds[refundId].status in {Requested, Rejected, Completed}
    ensures DoApprove(t, refundId, approved, txnId, today) == Err(BusinessRule) <==>
              t.refunds[refundId].status != Requested || Granted(t.refunds[refundId], approved) > t.refunds[refundId].requested
  {
  }
}
