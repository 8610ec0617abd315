/** What every reachable store keeps: money is conserved, refunds move money once, and
    every order keeps its own invariant. */
module Ledger {
  import opened Options
  import opened Orders
  import opened Payments
  import opened Repository
  import opened UseCases
  import opened OrderInvariant
  import opened Sums

  // ----- sums over the tables -----

  /** What a transaction adds to the completed payments of an order. */
  function PaymentFor(id: Id): (Id, Txn) -> int {
    (k: Id, x: Txn) => if x.orderId == id && x.kind == Payment && x.status == TxnCompleted then x.amount else 0
  }

  /** What a transaction adds to the completed refunds of an order. */
  function RefundFor(id: Id): (Id, Txn) -> int {
    (k: Id, x: Txn) => if x.orderId == id && x.kind == Refunding && x.status == TxnCompleted then x.amount else 0
  }

  /** What a refund request has moved on an order. */
  function MovedFor(id: Id): (Id, RefundState) -> int {
    (k: Id, r: RefundState) => if r.orderId == id && r.status == Completed then Effective(r) else 0
  }

  type OrderTable = map<Id, OrderRow>
  type TxnTable = map<Id, Txn>
  type RefundTable = map<Id, RefundState>

  ghost function TotalPayments(txns: TxnTable, id: Id): int {
    SumMap(txns, PaymentFor(id))
  }

  ghost function TotalRefunds(txns: TxnTable, id: Id): int {
    SumMap(txns, RefundFor(id))
  }

  ghost function TotalMoved(refunds: RefundTable, id: Id): int {
    SumMap(refunds, MovedFor(id))
  }

  // ----- the invariant -----

  predicate RowInv(id: Id, row: OrderRow) {
    && row.id == id
    && OrderInv(Entity(row))
    && (row.status != Draft ==> StoredTotals(row))
  }

  predicate OrdersInv(orders: OrderTable) {
    forall id {:trigger RowInv(id, orders[id])} :: id in orders ==> RowInv(id, orders[id])
  }

  /** An order's paid amount is what was paid less what was refunded, its refunded amount is
      what was refunded, and the same sum is what its refund requests moved. */
  ghost predicate Balanced(t: Tables, id: Id)
    requires id in t.orders
  {
    && t.orders[id].paidCents == TotalPayments(t.txns, id) - TotalRefunds(t.txns, id)
    && t.orders[id].refundedCents == TotalRefunds(t.txns, id) == TotalMoved(t.refunds, id)
  }

  ghost predicate Conserved(t: Tables) {
    forall id :: id in t.orders ==> Balanced(t, id)
  }

  predicate TxnInv(x: Txn, orders: OrderTable) {
    && x.status == TxnCompleted && x.amount > 0
    && x.kind in {Payment, Refunding}
    && x.orderId in orders && x.currency == orders[x.orderId].currency
  }

  predicate TxnsInv(txns: TxnTable, orders: OrderTable) {
    forall k {:trigger TxnInv(txns[k], orders)} :: k in txns ==> txns[k].id == k && TxnInv(txns[k], orders)
  }

  /** A refund request is still open, was turned down, or is completed by its own refund
      transaction of at most the requested amount. */
  predicate RefundInv(f: RefundState, txns: TxnTable, orders: OrderTable) {
    && f.requested > 0
    && f.orderId in orders && f.currency == orders[f.orderId].currency
    && f.status in {Requested, Rejected, Completed}
    && (f.status != Completed ==> f.approved.None? && f.txn.None?)
    && (f.status == Completed ==>
          && f.approved.Some? && 0 < f.approved.value <= f.requested
          && f.txn.Some? && f.txn.value in txns
          && txns[f.txn.value].kind == Refunding
          && txns[f.txn.value].orderId == f.orderId
          && txns[f.txn.value].amount == f.approved.value)
  }

  predicate RefundsInv(refunds: RefundTable, txns: TxnTable, orders: OrderTable) {
    forall r {:trigger RefundInv(refunds[r], txns, orders)} ::
      r in refunds ==> refunds[r].id == r && RefundInv(refunds[r], txns, orders)
  }

  predicate CompletedBy(refunds: RefundTable, r: Id, k: Id) {
    r in refunds && refunds[r].status == Completed && refunds[r].txn == Some(k)
  }

  /** No refund transaction serves two refunds. */
  ghost predicate ServesOne(refunds: RefundTable) {
    forall r, s, k :: CompletedBy(refunds, r, k) && CompletedBy(refunds, s, k) ==> r == s
  }

  /** Every refund transaction serves a refund. */
  ghost predicate ServesSome(refunds: RefundTable, txns: TxnTable) {
    forall k :: k in txns && txns[k].kind == Refunding ==> exists r :: CompletedBy(refunds, r, k)
  }

  /** The part of the invariant that sees orders through their money only. */
  ghost predicate MoneyInv(t: Tables) {
    && Conserved(t)
    && TxnsInv(t.txns, t.orders)
    && RefundsInv(t.refunds, t.txns, t.orders)
    && ServesOne(t.refunds)
    && ServesSome(t.refunds, t.txns)
  }

  ghost predicate Inv(t: Tables) {
    OrdersInv(t.orders) && MoneyInv(t)
  }

  lemma EmptyInv()
    ensures Inv(EMPTY)
  {
  }

  // ----- steps that write one order and move no money -----

  lemma SavedRow(o: OrderState)
    requires OrderInv(o)
    ensures RowInv(o.id, ToRow(o))
  {
    SaveThenLoad(o);
    SavedTotals(o);
  }

  /** Every order is still there, in its currency. */
  predicate SameCurrencies(a: OrderTable, b: OrderTable) {
    forall id :: id in a ==> id in b && b[id].currency == a[id].currency
  }

  lemma OrdersPut(orders: OrderTable, id: Id, row: OrderRow)
    requires OrdersInv(orders) && RowInv(id, row)
    ensures OrdersInv(orders[id := row])
  {
    var n := orders[id := row];
    forall k | k in n
      ensures RowInv(k, n[k])
    {
      assert k != id ==> RowInv(k, orders[k]);
    }
  }

  lemma TxnsFrame(txns: TxnTable, a: OrderTable, b: OrderTable)
    requires TxnsInv(txns, a) && SameCurrencies(a, b)
    ensures TxnsInv(txns, b)
  {
    forall k | k in txns
      ensures txns[k].id == k && TxnInv(txns[k], b)
    {
      assert TxnInv(txns[k], a);
    }
  }

  lemma RefundsFrame(refunds: RefundTable, txns: TxnTable, more: TxnTable, a: OrderTable, b: OrderTable)
    requires RefundsInv(refunds, txns, a) && SameCurrencies(a, b)
    requires forall k :: k in txns ==> k in more && more[k] == txns[k]
    ensures RefundsInv(refunds, more, b)
  {
    forall r | r in refunds
      ensures refunds[r].id == r && RefundInv(refunds[r], more, b)
    {
      assert RefundInv(refunds[r], txns, a);
    }
  }

  /** Replacing a row by one with the same money and currency keeps the store's invariant. */
  lemma RowWriteKeeps(t: Tables, id: Id, row: OrderRow)
    requires Inv(t) && id in t.orders && RowInv(id, row)
    requires SameMoney(row, t.orders[id])
    ensures Inv(t.(orders := t.orders[id := row]))
  {
    OrdersPut(t.orders, id, row);
    MoneyFrame(t, id, row);
  }

  predicate SameMoney(a: OrderRow, b: OrderRow) {
    a.paidCents == b.paidCents && a.refundedCents == b.refundedCents && a.currency == b.currency
  }

  lemma MoneyFrame(t: Tables, id: Id, row: OrderRow)
    requires MoneyInv(t) && id in t.orders && SameMoney(row, t.orders[id])
    ensures MoneyInv(t.(orders := t.orders[id := row]))
  {
    var n := t.(orders := t.orders[id := row]);
    TxnsFrame(t.txns, t.orders, n.orders);
    RefundsFrame(t.refunds, t.txns, t.txns, t.orders, n.orders);
    forall k | k in n.orders
      ensures Balanced(n, k)
    {
      assert Balanced(t, k);
    }
  }

  lemma PutKeeps(t: Tables, o: OrderState)
    requires Inv(t) && o.id in t.orders && OrderInv(o)
    requires o.paid == t.orders[o.id].paidCents && o.refunded == t.orders[o.id].refundedCents
    requires o.currency == t.orders[o.id].currency
    ensures Inv(Put(t, o))
  {
    SavedRow(o);
    RowWriteKeeps(t, o.id, ToRow(o));
  }

  /** Nothing refers to an order that is not there. */
  lemma NothingForUnknown(t: Tables, id: Id)
    requires TxnsInv(t.txns, t.orders) && RefundsInv(t.refunds, t.txns, t.orders) && id !in t.orders
    ensures TotalPayments(t.txns, id) == TotalRefunds(t.txns, id) == TotalMoved(t.refunds, id) == 0
  {
    forall k | k in t.txns
      ensures t.txns[k].orderId != id
    {
      assert TxnInv(t.txns[k], t.orders);
    }
    SumZero(t.txns, PaymentFor(id));
    SumZero(t.txns, RefundFor(id));
    forall r | r in t.refunds
      ensures t.refunds[r].orderId != id
    {
      assert RefundInv(t.refunds[r], t.txns, t.orders);
    }
    SumZero(t.refunds, MovedFor(id));
  }

  /** A new row without money keeps the store's invariant. */
  lemma RowInsertKeeps(t: Tables, id: Id, row: OrderRow)
    requires Inv(t) && id !in t.orders && RowInv(id, row)
    requires row.paidCents == 0 && row.refundedCents == 0
    ensures Inv(t.(orders := t.orders[id := row]))
  {
    var n := t.(orders := t.orders[id := row]);
    OrdersPut(t.orders, id, row);
    TxnsFrame(t.txns, t.orders, n.orders);
    RefundsFrame(t.refunds, t.txns, t.txns, t.orders, n.orders);
    NothingForUnknown(t, id);
    forall k | k in n.orders
      ensures Balanced(n, k)
    {
      if k != id {
        assert Balanced(t, k);
      }
    }
  }

  /** A loaded order is the entity of its row and keeps the invariant. */
  lemma Loaded(t: Tables, id: Id)
    requires OrdersInv(t.orders) && GetOrder(t, id).Ok?
    ensures id in t.orders && GetOrder(t, id).value == Entity(t.orders[id])
    ensures OrderInv(GetOrder(t, id).value) && GetOrder(t, id).value.id == id
    ensures !GetOrder(t, id).value.isDeleted
  {
    assert RowInv(id, t.orders[id]);
  }

  /** Saving with a response leaves a well-formed order. */
  lemma SavedWellFormed(t: Tables, o: OrderState)
    requires SaveAndRespond(t, o).Ok?
    ensures WellFormed(o) && SaveAndRespond(t, o).value == Put(t, o)
  {
    SaveThenLoad(o);
  }

  lemma CreateKeeps(t: Tables, c: Command)
    requires Inv(t) && c.CreateOrder? && DoCreate(t, c).Ok?
    ensures Inv(DoCreate(t, c).value)
  {
    var o := AddLines(NewOrder(c), c.lines, 0).value;
    AddLinesUnstarted(NewOrder(c), c.lines, 0);
    UnstartedInv(o);
    SavedWellFormed(t, o);
    SavedRow(o);
    RowInsertKeeps(t, o.id, ToRow(o));
  }

  lemma QuoteUnstarted(c: Command)
    requires c.ConvertQuote? && DistinctLines(c.quoteLines)
    ensures Unstarted(Entity(QuoteRow(c)))
  {
  }

  lemma ConvertKeeps(t: Tables, c: Command)
    requires Inv(t) && c.ConvertQuote? && DoConvert(t, c).Ok?
    ensures Inv(DoConvert(t, c).value)
  {
    QuoteUnstarted(c);
    UnstartedInv(Entity(QuoteRow(c)));
    RowInsertKeeps(t, c.orderId, QuoteRow(c));
  }

  /** What an accepted change writes: one row, of a well-formed order. */
  lemma EditShape(t: Tables, c: Command)
    requires IsEdit(c) && DoEdit(t, c).Ok?
    ensures GetOrder(t, c.orderId).Ok? && Changed(GetOrder(t, c.orderId).value, c).Ok?
    ensures var n := Changed(GetOrder(t, c.orderId).value, c).value;
            WellFormed(n) && DoEdit(t, c).value == Put(t, n)
  {
    SavedWellFormed(t, Changed(GetOrder(t, c.orderId).value, c).value);
  }

  lemma EditStepKeeps(t: Tables, c: Command)
    requires Inv(t) && IsEdit(c) && DoEdit(t, c).Ok?
    ensures Inv(DoEdit(t, c).value)
  {
    EditShape(t, c);
    Loaded(t, c.orderId);
    var o := GetOrder(t, c.orderId).value;
    ChangedSameOrder(o, c);
    ChangedKeeps(o, c);
    PutKeeps(t, Changed(o, c).value);
  }

  lemma DeleteStepKeeps(t: Tables, id: Id)
    requires Inv(t) && DoDelete(t, id).Ok?
    ensures Inv(DoDelete(t, id).value)
  {
    Loaded(t, id);
    var o := GetOrder(t, id).value;
    RespondDeleted(o);
    PutKeeps(t, o.(isDeleted := true));
  }

  lemma RespondDeleted(o: OrderState)
    ensures Respond(o.(isDeleted := true)) == Respond(o)
    ensures Total(o.(isDeleted := true)) == Total(o)
  {
  }

  lemma InvoiceStepKeeps(t: Tables, id: Id)
    requires Inv(t) && DoInvoice(t, id).Ok?
    ensures Inv(DoInvoice(t, id).value)
  {
    var row := t.orders[id];
    var o := Entity(row);
    assert RowInv(id, row);
    if HasDelivery(o.items) {
      var n := row.(items := InvoicedRows(row.items));
      assert RowInv(id, n) by {
        InvoicedRowInv(id, row);
      }
      RowWriteKeeps(t, id, n);
    }
  }

  lemma InvoicedRowInv(id: Id, row: OrderRow)
    requires RowInv(id, row) && HasDelivery(Entity(row).items)
    ensures RowInv(id, row.(items := InvoicedRows(row.items)))
  {
    var o := Entity(row);
    var n := row.(items := InvoicedRows(row.items));
    InvoicedRowsEntity(row.items);
    assert Entity(n) == o.(items := AllInvoiced(o.items));
    InvoiceKeeps(o);
    assert row.status != Draft;
    assert StoredTotals(n) by {
      InvoiceKeepsTerms(o);
      TermsFix(o, Entity(n));
    }
  }

  // ----- steps that move money -----

  /** A new completed transaction changes the sums of its own order only. */
  lemma TxnInsertSums(txns: TxnTable, x: Txn, id: Id)
    requires x.id !in txns && x.status == TxnCompleted
    ensures TotalPayments(txns[x.id := x], id)
         == TotalPayments(txns, id) + (if x.orderId == id && x.kind == Payment then x.amount else 0)
    ensures TotalRefunds(txns[x.id := x], id)
         == TotalRefunds(txns, id) + (if x.orderId == id && x.kind == Refunding then x.amount else 0)
  {
    SumUpdate(txns, PaymentFor(id), x.id, x);
    SumUpdate(txns, RefundFor(id), x.id, x);
  }

  lemma PaymentBalances(t: Tables, row: OrderRow, x: Txn)
    requires Conserved(t) && row.id in t.orders && x.id !in t.txns
    requires x.status == TxnCompleted && x.kind == Payment && x.orderId == row.id
    requires row.paidCents == t.orders[row.id].paidCents + x.amount
    requires row.refundedCents == t.orders[row.id].refundedCents
    ensures Conserved(Tables(t.orders[row.id := row], t.txns[x.id := x], t.refunds))
  {
    var n := Tables(t.orders[row.id := row], t.txns[x.id := x], t.refunds);
    forall k | k in n.orders
      ensures Balanced(n, k)
    {
      assert Balanced(t, k);
      TxnInsertSums(t.txns, x, k);
    }
  }

  /** What an accepted payment writes: its transaction and the order. */
  lemma PaymentShape(t: Tables, id: Id, amount: nat, txnId: Id, today: int)
    requires DoPayment(t, id, amount, txnId, today).Ok?
    ensures GetOrder(t, id).Ok? && txnId !in t.txns && 0 < amount
    ensures var o := GetOrder(t, id).value;
            && ValidatePayment(o, amount, o.currency).None?
            && var paid := WithPayment(o, amount, o.currency, today);
            && paid.Ok?
            && DoPayment(t, id, amount, txnId, today).value
               == Tables(t.orders[paid.value.id := ToRow(paid.value)],
                         t.txns[txnId := Txn(txnId, id, Payment, amount, o.currency, TxnCompleted)],
                         t.refunds)
  {
  }

  lemma PaymentStepKeeps(t: Tables, id: Id, amount: nat, txnId: Id, today: int)
    requires Inv(t) && DoPayment(t, id, amount, txnId, today).Ok?
    ensures Inv(DoPayment(t, id, amount, txnId, today).value)
  {
    PaymentShape(t, id, amount, txnId, today);
    Loaded(t, id);
    var o := GetOrder(t, id).value;
    var paid := WithPayment(o, amount, o.currency, today).value;
    assert OrdersInv(t.orders[id := ToRow(paid)]) by {
      PaymentKeeps(o, amount, today);
      PaymentChanges(o, amount, today);
      SavedRow(paid);
      OrdersPut(t.orders, id, ToRow(paid));
    }
    PaymentChanges(o, amount, today);
    PaymentMoney(t, id, o, amount, txnId, paid);
  }

  lemma PaymentMoney(t: Tables, id: Id, o: OrderState, amount: nat, txnId: Id, paid: OrderState)
    requires MoneyInv(t) && id in t.orders && o == Entity(t.orders[id]) && o.id == id
    requires paid == o.(paid := o.paid + amount, paymentStatus := paid.paymentStatus)
    requires 0 < amount && txnId !in t.txns
    ensures MoneyInv(Tables(t.orders[id := ToRow(paid)],
                            t.txns[txnId := Txn(txnId, id, Payment, amount, o.currency, TxnCompleted)], t.refunds))
  {
    PaidTables(t, ToRow(paid), Txn(txnId, id, Payment, amount, o.currency, TxnCompleted));
  }

  lemma PaidTables(t: Tables, row: OrderRow, x: Txn)
    requires MoneyInv(t) && row.id in t.orders && row.currency == t.orders[row.id].currency
    requires row.paidCents == t.orders[row.id].paidCents + x.amount
    requires row.refundedCents == t.orders[row.id].refundedCents
    requires x.id !in t.txns && x.kind == Payment && x.orderId == row.id && TxnInv(x, t.orders)
    ensures MoneyInv(Tables(t.orders[row.id := row], t.txns[x.id := x], t.refunds))
  {
    var orders, txns := t.orders[row.id := row], t.txns[x.id := x];
    PaymentBalances(t, row, x);
    TxnsPut(t.txns, t.orders, orders, x);
    RefundsFrame(t.refunds, t.txns, txns, t.orders, orders);
    PaymentServesNone(t.refunds, t.txns, x);
  }

  /** Writing a refund that has moved nothing, where none or an open one was, keeps the
      store's invariant. */
  lemma RefundWriteKeeps(t: Tables, f: RefundState)
    requires MoneyInv(t)
    requires f.id in t.refunds ==> t.refunds[f.id].status != Completed
    requires RefundInv(f, t.txns, t.orders) && f.status != Completed
    ensures MoneyInv(t.(refunds := t.refunds[f.id := f]))
  {
    var refunds := t.refunds[f.id := f];
    OpenRefundBalances(t, f);
    RefundsPut(t.refunds, t.txns, t.orders, f);
    SameServices(t.refunds, f, t.txns);
  }

  lemma OpenRefundBalances(t: Tables, f: RefundState)
    requires Conserved(t) && f.status != Completed
    requires f.id in t.refunds ==> t.refunds[f.id].status != Completed
    ensures Conserved(t.(refunds := t.refunds[f.id := f]))
  {
    var n := t.(refunds := t.refunds[f.id := f]);
    forall k | k in n.orders
      ensures Balanced(n, k)
    {
      assert Balanced(t, k);
      SumUpdate(t.refunds, MovedFor(k), f.id, f);
    }
  }

  lemma RefundsPut(refunds: RefundTable, txns: TxnTable, orders: OrderTable, f: RefundState)
    requires RefundsInv(refunds, txns, orders) && RefundInv(f, txns, orders)
    ensures RefundsInv(refunds[f.id := f], txns, orders)
  {
    var n := refunds[f.id := f];
    forall r | r in n
      ensures n[r].id == r && RefundInv(n[r], txns, orders)
    {
      assert r in refunds && r != f.id ==> RefundInv(refunds[r], txns, orders);
    }
  }

  lemma SameServices(refunds: RefundTable, f: RefundState, txns: TxnTable)
    requires ServesOne(refunds) && ServesSome(refunds, txns)
    requires f.status != Completed && (f.id in refunds ==> refunds[f.id].status != Completed)
    ensures ServesOne(refunds[f.id := f]) && ServesSome(refunds[f.id := f], txns)
  {
    var n := refunds[f.id := f];
    forall k | k in txns && txns[k].kind == Refunding
      ensures exists s :: CompletedBy(n, s, k)
    {
      var s :| CompletedBy(refunds, s, k);
      assert CompletedBy(n, s, k);
    }
    forall r, s, k | CompletedBy(n, r, k) && CompletedBy(n, s, k)
      ensures r == s
    {
      assert CompletedBy(refunds, r, k) && CompletedBy(refunds, s, k);
    }
  }

  /** A payment needs no refund to serve. */
  lemma PaymentServesNone(refunds: RefundTable, txns: TxnTable, x: Txn)
    requires ServesSome(refunds, txns) && x.kind == Payment
    ensures ServesSome(refunds, txns[x.id := x])
  {
    var m := txns[x.id := x];
    forall k | k in m && m[k].kind == Refunding
      ensures exists r :: CompletedBy(refunds, r, k)
    {
      assert k in txns && txns[k].kind == Refunding;
    }
  }

  lemma TxnsPut(txns: TxnTable, a: OrderTable, b: OrderTable, x: Txn)
    requires TxnsInv(txns, a) && TxnInv(x, a) && SameCurrencies(a, b)
    ensures TxnsInv(txns[x.id := x], b)
  {
    TxnsFrame(txns, a, b);
  }

  lemma RequestShape(t: Tables, refundId: Id, orderId: Id, originalTxn: Id, amount: nat)
    requires DoRequestRefund(t, refundId, orderId, originalTxn, amount).Ok?
    ensures GetOrder(t, orderId).Ok? && refundId !in t.refunds && 0 < amount
    ensures DoRequestRefund(t, refundId, orderId, originalTxn, amount).value
         == t.(refunds := t.refunds[refundId := RefundState(refundId, orderId, originalTxn,
                 GetOrder(t, orderId).value.currency, amount, None, Requested, None, None)])
  {
  }

  lemma RequestKeeps(t: Tables, refundId: Id, orderId: Id, originalTxn: Id, amount: nat)
    requires Inv(t) && DoRequestRefund(t, refundId, orderId, originalTxn, amount).Ok?
    ensures Inv(DoRequestRefund(t, refundId, orderId, originalTxn, amount).value)
  {
    RequestShape(t, refundId, orderId, originalTxn, amount);
    Loaded(t, orderId);
    var o := GetOrder(t, orderId).value;
    RefundWriteKeeps(t, RefundState(refundId, orderId, originalTxn, o.currency, amount, None, Requested, None, None));
  }

  lemma RejectKeeps(t: Tables, refundId: Id, reason: string)
    requires Inv(t) && DoReject(t, refundId, reason).Ok?
    ensures Inv(DoReject(t, refundId, reason).value)
  {
    KnownStatus(t, refundId);
    assert RefundInv(t.refunds[refundId], t.txns, t.orders);
    RefundWriteKeeps(t, Reject(t.refunds[refundId], reason).value);
  }

  lemma RefundBalances(t: Tables, row: OrderRow, x: Txn, f: RefundState)
    requires Conserved(t) && row.id in t.orders && x.id !in t.txns
    requires x.status == TxnCompleted && x.kind == Refunding && x.orderId == row.id
    requires row.paidCents == t.orders[row.id].paidCents - x.amount
    requires row.refundedCents == t.orders[row.id].refundedCents + x.amount
    requires f.id in t.refunds && t.refunds[f.id].status != Completed
    requires f.status == Completed && f.orderId == row.id && Effective(f) == x.amount
    ensures Conserved(Tables(t.orders[row.id := row], t.txns[x.id := x], t.refunds[f.id := f]))
  {
    var n := Tables(t.orders[row.id := row], t.txns[x.id := x], t.refunds[f.id := f]);
    forall k | k in n.orders
      ensures Balanced(n, k)
    {
      assert Balanced(t, k);
      TxnInsertSums(t.txns, x, k);
      SumUpdate(t.refunds, MovedFor(k), f.id, f);
    }
  }

  /** A new transaction that completes an open refund keeps refunds and refund transactions
      paired. */
  lemma NewService(refunds: RefundTable, txns: TxnTable, orders: OrderTable, f: RefundState, x: Txn)
    requires RefundsInv(refunds, txns, orders) && ServesOne(refunds) && ServesSome(refunds, txns)
    requires f.id in refunds && refunds[f.id].status != Completed && x.id !in txns
    requires f.status == Completed && f.txn == Some(x.id)
    ensures ServesOne(refunds[f.id := f]) && ServesSome(refunds[f.id := f], txns[x.id := x])
  {
    var n := refunds[f.id := f];
    forall r, k | r != f.id && CompletedBy(n, r, k)
      ensures CompletedBy(refunds, r, k) && k != x.id
    {
      assert RefundInv(refunds[r], txns, orders);
    }
    var m := txns[x.id := x];
    forall k | k in m && m[k].kind == Refunding
      ensures exists r :: CompletedBy(n, r, k)
    {
      if k == x.id {
        assert CompletedBy(n, f.id, k);
      } else {
        var r :| CompletedBy(refunds, r, k);
        assert CompletedBy(n, r, k);
      }
    }
  }

  /** What an approval grants: the amount given, or all that was requested. */
  function Granted(f: RefundState, approved: Option<nat>): nat {
    if approved.None? || approved == Some(0) then f.requested else approved.value
  }

  /** What an accepted approval writes: the refund transaction, the order and the refund. */
  lemma ApproveShape(t: Tables, refundId: Id, approved: Option<nat>, txnId: Id, today: int)
    requires DoApprove(t, refundId, approved, txnId, today).Ok?
    ensures var f := t.refunds[refundId];
            var granted := Granted(f, approved);
            && f.status in {Requested, UnderReview} && granted <= f.requested
            && GetOrder(t, f.orderId).Ok? && txnId !in t.txns
            && var refunded := WithRefund(GetOrder(t, f.orderId).value, granted, today);
            && refunded.Ok? && 0 < granted
            && DoApprove(t, refundId, approved, txnId, today).value
               == Tables(t.orders[refunded.value.id := ToRow(refunded.value)],
                         t.txns[txnId := Txn(txnId, f.orderId, Refunding, granted, f.currency, TxnCompleted)],
                         t.refunds[refundId := f.(approved := Some(granted), status := Completed, txn := Some(txnId))])
  {
    var f := t.refunds[refundId];
    var granted := Granted(f, approved);
    var given := if approved == Some(0) then None else approved;
    assert Approve(f, given) == Ok(f.(approved := Some(granted), status := Approved));
  }

  lemma ApproveKeeps(t: Tables, refundId: Id, approved: Option<nat>, txnId: Id, today: int)
    requires Inv(t) && DoApprove(t, refundId, approved, txnId, today).Ok?
    ensures Inv(DoApprove(t, refundId, approved, txnId, today).value)
  {
    KnownStatus(t, refundId);
    ApproveShape(t, refundId, approved, txnId, today);
    var f := t.refunds[refundId];
    ApprovedStore(t, f, Granted(f, approved), txnId, today, DoApprove(t, refundId, approved, txnId, today).value);
  }

  lemma KnownStatus(t: Tables, refundId: Id)
    requires MoneyInv(t) && refundId in t.refunds
    ensures t.refunds[refundId].id == refundId
    ensures t.refunds[refundId].status in {Requested, Rejected, Completed}
  {
    assert RefundInv(t.refunds[refundId], t.txns, t.orders);
  }

  /** The store after an approval, put together from the row, the transaction and the refund. */
  lemma ApprovedStore(t: Tables, f: RefundState, granted: nat, txnId: Id, today: int, n: Tables)
    requires Inv(t) && f.id in t.refunds && t.refunds[f.id] == f && f.status != Completed
    requires 0 < granted <= f.requested && txnId !in t.txns
    requires GetOrder(t, f.orderId).Ok? && WithRefund(GetOrder(t, f.orderId).value, granted, today).Ok?
    requires var refunded := WithRefund(GetOrder(t, f.orderId).value, granted, today).value;
             n == Tables(t.orders[refunded.id := ToRow(refunded)],
                         t.txns[txnId := Txn(txnId, f.orderId, Refunding, granted, f.currency, TxnCompleted)],
                         t.refunds[f.id := f.(approved := Some(granted), status := Completed, txn := Some(txnId))])
    ensures Inv(n)
  {
    Loaded(t, f.orderId);
    var o := GetOrder(t, f.orderId).value;
    RefundChanges(o, granted, today);
    assert OrdersInv(n.orders) by {
      RefundedRow(t.orders, o, granted, today);
    }
    assert MoneyInv(n) by {
      ApprovalMoney(t, f, granted, txnId, WithRefund(o, granted, today).value);
    }
  }

  lemma RefundedRow(orders: OrderTable, o: OrderState, amount: nat, today: int)
    requires OrdersInv(orders) && OrderInv(o) && WithRefund(o, amount, today).Ok?
    ensures OrdersInv(orders[o.id := ToRow(WithRefund(o, amount, today).value)])
  {
    var n := WithRefund(o, amount, today).value;
    RefundChanges(o, amount, today);
    assert RowInv(n.id, ToRow(n)) by {
      RefundKeeps(o, amount, today);
      SavedRow(n);
    }
    OrdersPut(orders, o.id, ToRow(n));
  }

  lemma ApprovalMoney(t: Tables, f: RefundState, granted: nat, txnId: Id, refunded: OrderState)
    requires MoneyInv(t) && f.id in t.refunds && t.refunds[f.id] == f && f.status != Completed
    requires f.orderId in t.orders && t.orders[f.orderId].id == f.orderId
    requires 0 < granted <= f.requested && txnId !in t.txns
    requires var o := Entity(t.orders[f.orderId]);
             granted <= o.paid
             && refunded == o.(paid := o.paid - granted, refunded := o.refunded + granted,
                               paymentStatus := refunded.paymentStatus)
    ensures MoneyInv(Tables(t.orders[f.orderId := ToRow(refunded)],
                            t.txns[txnId := Txn(txnId, f.orderId, Refunding, granted, f.currency, TxnCompleted)],
                            t.refunds[f.id := f.(approved := Some(granted), status := Completed, txn := Some(txnId))]))
  {
    assert RefundInv(f, t.txns, t.orders);
    var x := Txn(txnId, f.orderId, Refunding, granted, f.currency, TxnCompleted);
    ApprovedTables(t, ToRow(refunded), x, f.(approved := Some(granted), status := Completed, txn := Some(txnId)));
  }

  lemma ApprovedTables(t: Tables, row: OrderRow, x: Txn, f: RefundState)
    requires MoneyInv(t) && row.id in t.orders && row.currency == t.orders[row.id].currency
    requires row.paidCents == t.orders[row.id].paidCents - x.amount
    requires row.refundedCents == t.orders[row.id].refundedCents + x.amount
    requires x.id !in t.txns && x.kind == Refunding && x.orderId == row.id && TxnInv(x, t.orders)
    requires f.id in t.refunds && t.refunds[f.id].status != Completed && Effective(f) == x.amount
    requires f.status == Completed && f.txn == Some(x.id) && RefundInv(f, t.txns[x.id := x], t.orders)
    requires f.orderId == row.id
    ensures MoneyInv(Tables(t.orders[row.id := row], t.txns[x.id := x], t.refunds[f.id := f]))
  {
    var orders, txns, refunds := t.orders[row.id := row], t.txns[x.id := x], t.refunds[f.id := f];
    assert SameCurrencies(t.orders, orders);
    TxnsPut(t.txns, t.orders, orders, x);
    assert RefundsInv(refunds, txns, orders) by {
      CompletedRefundPut(t.refunds, t.txns, txns, t.orders, orders, f);
    }
    assert Conserved(Tables(orders, txns, refunds)) by {
      RefundBalances(t, row, x, f);
    }
    NewService(t.refunds, t.txns, t.orders, f, x);
  }

  lemma CompletedRefundPut(refunds: RefundTable, txns: TxnTable, more: TxnTable, a: OrderTable, b: OrderTable,
                           f: RefundState)
    requires RefundsInv(refunds, txns, a) && SameCurrencies(a, b) && RefundInv(f, more, a)
    requires forall k :: k in txns ==> k in more && more[k] == txns[k]
    ensures RefundsInv(refunds[f.id := f], more, b)
  {
    RefundsFrame(refunds, txns, more, a, b);
    RefundsPut(refunds, more, b, f);
  }

  // ----- runs -----

  lemma StepKeeps(t: Tables, c: Command)
    requires Inv(t)
    ensures Inv(Commit(t, c))
  {
    if Step(t, c).Ok? {
      match c
      case CreateOrder(_, _, _, _, _, _, _, _) => CreateKeeps(t, c);
      case ConvertQuote(_, _, _, _) => ConvertKeeps(t, c);
      case DeleteOrder(id) => DeleteStepKeeps(t, id);
      case RecordPayment(id, amount, txnId, today) => PaymentStepKeeps(t, id, amount, txnId, today);
      case RequestRefund(refundId, id, originalTxn, amount) => RequestKeeps(t, refundId, id, originalTxn, amount);
      case ApproveRefund(refundId, approved, txnId, today) => ApproveKeeps(t, refundId, approved, txnId, today);
      case RejectRefund(refundId, reason) => RejectKeeps(t, refundId, reason);
      case GenerateInvoice(id) => InvoiceStepKeeps(t, id);
      case _ => EditStepKeeps(t, c);
    }
  }

  /** Every serial run keeps the invariant. */
  lemma {:induction false} RunKeeps(t: Tables, cs: seq<Command>)
    requires Inv(t)
    ensures Inv(Run(t, cs))
    decreases |cs|
  {
    if cs != [] {
      StepKeeps(t, cs[0]);
      RunKeeps(Commit(t, cs[0]), cs[1..]);
    }
  }
}
