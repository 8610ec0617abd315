/** The use cases as functions on the tables. Each either gives the tables to commit or
    an error, and an error commits nothing. */
module UseCases {
  import opened Options
  import opened Orders
  import opened Payments
  import opened Repository
  import opened Money

  datatype Tables = Tables(orders: map<Id, OrderRow>, txns: map<Id, Txn>, refunds: map<Id, RefundState>)

  const EMPTY := Tables(map[], map[], map[])

  datatype ClientState = NoClient | InactiveClient | ActiveClient

  datatype NewLine = NewLine(
    id: Id,
    description: string,
    quantity: int,
    unitPrice: nat,
    unit: Option<string>,
    sortOrder: nat)

  type Positive = n: nat | 0 < n witness 1

  /** A quote line; nothing says that its description is filled in. */
  datatype QuoteLine = QuoteLine(id: Id, description: string, quantity: Positive, unitPrice: nat, position: nat)

  datatype OrderEdit = OrderEdit(
    taxRate: Option<nat>,
    discount: Option<nat>,
    shipping: Option<nat>,
    dueDate: Option<int>,
    lines: Option<seq<NewLine>>)

  /** Row ids, dates and the client's state come with the request. */
  datatype Command =
    | CreateOrder(orderId: Id, client: ClientState, currency: string, taxRate: nat, discount: nat,
                  shipping: nat, dueDate: Option<int>, lines: seq<NewLine>)
    | ConvertQuote(orderId: Id, currency: string, taxRate: nat, quoteLines: seq<QuoteLine>)
    | UpdateOrder(orderId: Id, orderEdit: OrderEdit)
    | ConfirmOrder(orderId: Id)
    | CancelOrder(orderId: Id)
    | DeleteOrder(orderId: Id)
    | AddItem(orderId: Id, line: NewLine)
    | RemoveItem(orderId: Id, itemId: Id)
    | UpdateItem(orderId: Id, itemId: Id, itemEdit: ItemEdit)
    | RecordDelivery(orderId: Id, deliveries: seq<DeliveryLine>)
    | RecordPayment(orderId: Id, amount: nat, txnId: Id, today: int)
    | RequestRefund(refundId: Id, orderId: Id, originalTxn: Id, amount: nat)
    | ApproveRefund(refundId: Id, approved: Option<nat>, txnId: Id, today: int)
    | RejectRefund(refundId: Id, reason: string)
    | GenerateInvoice(orderId: Id)

  // ----- loading and saving -----

  /** Soft-deleted orders are not found. */
  function GetOrder(t: Tables, id: Id): Result<OrderState> {
    if id !in t.orders || t.orders[id].isDeleted then Err(NotFound) else Load(t.orders[id])
  }

  function Put(t: Tables, o: OrderState): Tables {
    t.(orders := t.orders[o.id := ToRow(o)])
  }

  /** Saving reloads the row it wrote. */
  function Save(t: Tables, o: OrderState): Result<Tables> {
    var loaded :- Load(ToRow(o));
    Ok(Put(t, o))
  }

  /** Saving and building the response, whose totals may refuse. */
  function SaveAndRespond(t: Tables, o: OrderState): Result<Tables> {
    var loaded :- Load(ToRow(o));
    var total :- Respond(loaded);
    Ok(Put(t, o))
  }

  // ----- orders -----

  function BuildItem(l: NewLine, currency: string, sortOrder: nat): Result<Item> {
    if !CurrencyOk(currency) then Err(Unhandled)
    else MakeItem(l.id, l.description, l.quantity, l.unitPrice, l.unit, sortOrder)
  }

  /** Lines added one by one; a line without a sort order gets its position. */
  function AddLines(o: OrderState, lines: seq<NewLine>, position: nat): Result<OrderState>
    decreases |lines|
  {
    if lines == [] then Ok(o)
    else
      var l := lines[0];
      var item :- BuildItem(l, o.currency, if l.sortOrder != 0 then l.sortOrder else position);
      var added :- WithItem(o, item);
      AddLines(added, lines[1..], position + 1)
  }

  function NewOrder(c: Command): OrderState
    requires c.CreateOrder?
  {
    OrderState(c.orderId, c.currency, c.taxRate, c.discount, c.shipping, c.dueDate, Draft, Pending, [], 0, 0, false)
  }

  function DoCreate(t: Tables, c: Command): Result<Tables>
    requires c.CreateOrder?
  {
    if c.client.NoClient? then Err(NotFound)
    else if c.client.InactiveClient? then Err(BusinessRule)
    else if c.orderId in t.orders then Err(DuplicateKey)
    else
      var o :- AddLines(NewOrder(c), c.lines, 0);
      SaveAndRespond(t, o)
  }

  function QuoteRows(lines: seq<QuoteLine>): (r: seq<ItemRow>)
    ensures |r| == |lines|
    ensures forall k :: 0 <= k < |lines| ==>
              r[k] == ItemRow(lines[k].id, lines[k].position, lines[k].description, None,
                              lines[k].quantity, 0, 0, lines[k].unitPrice)
  {
    if lines == [] then []
    else
      [ItemRow(lines[0].id, lines[0].position, lines[0].description, None, lines[0].quantity, 0, 0, lines[0].unitPrice)]
      + QuoteRows(lines[1..])
  }

  predicate DistinctLines(lines: seq<QuoteLine>) {
    forall j, k :: 0 <= j < k < |lines| ==> lines[j].id != lines[k].id
  }

  /** The row a converted quote becomes: its stored totals are left at zero. */
  function QuoteRow(c: Command): OrderRow
    requires c.ConvertQuote?
  {
    OrderRow(c.orderId, Draft, Pending, c.currency, c.taxRate, 0, 0, 0, 0, None, false,
             QuoteRows(c.quoteLines), 0, 0, 0)
  }

  /** Converting a quote writes the row directly, without building an order from it. */
  function DoConvert(t: Tables, c: Command): Result<Tables>
    requires c.ConvertQuote?
  {
    if c.orderId in t.orders || !DistinctLines(c.quoteLines) then Err(DuplicateKey)
    else Ok(t.(orders := t.orders[c.orderId := QuoteRow(c)]))
  }

  function NewItems(lines: seq<NewLine>, currency: string): Result<seq<Item>> {
    if lines == [] then Ok([])
    else
      var item :- BuildItem(lines[0], currency, lines[0].sortOrder);
      var rest :- NewItems(lines[1..], currency);
      Ok([item] + rest)
  }

  function EditTerms(o: OrderState, e: OrderEdit): Result<OrderState> {
    if !CanEdit(o) then Err(InvalidState)
    else
      var taxed := if e.taxRate.Some? then o.(taxRate := e.taxRate.value) else o;
      var reduced := if e.discount.Some? then taxed.(discount := e.discount.value) else taxed;
      var shipped := if e.shipping.Some? then reduced.(shipping := e.shipping.value) else reduced;
      var dated := if e.dueDate.Some? then shipped.(dueDate := e.dueDate) else shipped;
      if e.lines.None? then Ok(dated)
      else
        var items :- NewItems(e.lines.value, o.currency);
        if DistinctIds(items) then Ok(dated.(items := items)) else Err(DuplicateKey)
  }

  /** The requests that load an order, change it, save it and answer with it. */
  predicate IsEdit(c: Command) {
    || c.UpdateOrder? || c.ConfirmOrder? || c.CancelOrder? || c.AddItem? || c.RemoveItem? || c.UpdateItem?
    || c.RecordDelivery?
  }

  /** What such a request does to the order it loads. */
  function Changed(o: OrderState, c: Command): Result<OrderState>
    requires IsEdit(c)
  {
    match c
    case UpdateOrder(_, e) => EditTerms(o, e)
    case ConfirmOrder(_) => Confirm(o)
    case CancelOrder(_) => Cancel(o)
    case AddItem(_, l) =>
      var item :- BuildItem(l, o.currency, l.sortOrder);
      WithItem(o, item)
    case RemoveItem(_, itemId) => WithoutItem(o, itemId)
    case UpdateItem(_, itemId, e) => WithItemEdit(o, itemId, e)
    case RecordDelivery(_, ds) => WithDelivery(o, ds)
  }

  function DoEdit(t: Tables, c: Command): Result<Tables>
    requires IsEdit(c)
  {
    if c.UpdateOrder? && c.orderEdit.lines == Some([]) then Err(BadRequest)
    else
      var o :- GetOrder(t, c.orderId);
      var n :- Changed(o, c);
      SaveAndRespond(t, n)
  }

  function DoDelete(t: Tables, id: Id): Result<Tables> {
    var o :- GetOrder(t, id);
    if o.status !in {Draft, Cancelled} then Err(InvalidState)
    else Save(t, o.(isDeleted := true))
  }

  predicate Billable(status: OrderStatus) {
    status in {OrderStatus.Confirmed, InProduction, PartiallyDelivered, Delivered}
  }

  /** Once something was delivered, an invoice marks everything delivered as invoiced. */
  function DoInvoice(t: Tables, id: Id): Result<Tables> {
    if id !in t.orders then Err(NotFound)
    else
      var row := t.orders[id];
      if !Billable(row.status) then Err(InvalidState)
      else if HasDelivery(ToItems(row.items)) then
        Ok(t.(orders := t.orders[id := row.(items := InvoicedRows(row.items))]))
      else Ok(t)
  }

  // ----- money -----

  function DoPayment(t: Tables, id: Id, amount: nat, txnId: Id, today: int): Result<Tables> {
    var o :- GetOrder(t, id);
    var refusal := ValidatePayment(o, amount, o.currency);
    if refusal.Some? then Err(refusal.value)
    else
      var txn :- CompleteTxn(Txn(txnId, id, Payment, amount, o.currency, TxnPending));
      var paid :- WithPayment(o, amount, o.currency, today);
      if txnId in t.txns then Err(DuplicateKey)
      else Save(t.(txns := t.txns[txnId := txn]), paid)
  }

  function DoRequestRefund(t: Tables, refundId: Id, orderId: Id, originalTxn: Id, amount: nat): Result<Tables> {
    var o :- GetOrder(t, orderId);
    if originalTxn !in t.txns || t.txns[originalTxn].orderId != orderId then Err(NotFound)
    else
      var refusal := ValidateRefund(o, amount);
      if refusal.Some? then Err(refusal.value)
      else if refundId in t.refunds then Err(DuplicateKey)
      else
        var refund := RefundState(refundId, orderId, originalTxn, o.currency, amount, None, Requested, None, None);
        Ok(t.(refunds := t.refunds[refundId := refund]))
  }

  /** An approved amount of zero counts as none given. The refund transaction is saved
      before the order agrees to the refund. */
  function DoApprove(t: Tables, refundId: Id, approved: Option<nat>, txnId: Id, today: int): Result<Tables> {
    if refundId !in t.refunds then Err(NotFound)
    else
      var granted :- Approve(t.refunds[refundId], if approved == Some(0) then None else approved);
      var o :- GetOrder(t, granted.orderId);
      var txn :- CompleteTxn(Txn(txnId, granted.orderId, Refunding, Effective(granted), granted.currency, TxnPending));
      if txnId in t.txns then Err(DuplicateKey)
      else
        var t1 := t.(txns := t.txns[txnId := txn]);
        var refunded :- WithRefund(o, Effective(granted), today);
        var t2 :- Save(t1, refunded);
        var done :- Complete(granted, txnId);
        Ok(t2.(refunds := t2.refunds[refundId := done]))
  }

  function DoReject(t: Tables, refundId: Id, reason: string): Result<Tables> {
    if refundId !in t.refunds then Err(NotFound)
    else
      var rejected :- Reject(t.refunds[refundId], reason);
      Ok(t.(refunds := t.refunds[refundId := rejected]))
  }

  // ----- steps and runs -----

  function Step(t: Tables, c: Command): Result<Tables> {
    match c
    case CreateOrder(_, _, _, _, _, _, _, _) => DoCreate(t, c)
    case ConvertQuote(_, _, _, _) => DoConvert(t, c)
    case DeleteOrder(id) => DoDelete(t, id)
    case RecordPayment(id, amount, txnId, today) => DoPayment(t, id, amount, txnId, today)
    case RequestRefund(refundId, id, originalTxn, amount) => DoRequestRefund(t, refundId, id, originalTxn, amount)
    case ApproveRefund(refundId, approved, txnId, today) => DoApprove(t, refundId, approved, txnId, today)
    case RejectRefund(refundId, reason) => DoReject(t, refundId, reason)
    case GenerateInvoice(id) => DoInvoice(t, id)
    case _ => DoEdit(t, c)
  }

  /** What one request leaves behind: its own tables, or the old ones when it fails. */
  function Commit(t: Tables, c: Command): Tables {
    var r := Step(t, c);
    if r.Ok? then r.value else t
  }

  /** Requests one after the other. */
  function Run(t: Tables, cs: seq<Command>): Tables
    decreases |cs|
  {
    if cs == [] then t else Run(Commit(t, cs[0]), cs[1..])
  }

  lemma RunOn(t: Tables, c: Command, cs: seq<Command>)
    ensures Run(t, [c] + cs) == Run(Commit(t, c), cs)
  {
    assert ([c] + cs)[1..] == cs;
  }

  lemma {:induction false} RunThen(t: Tables, cs: seq<Command>, ds: seq<Command>)
    ensures Run(t, cs + ds) == Run(Run(t, cs), ds)
    decreases |cs|
  {
    if cs == [] {
      assert cs + ds == ds;
    } else {
      assert (cs + ds)[1..] == cs[1..] + ds;
      RunThen(Commit(t, cs[0]), cs[1..], ds);
    }
  }
}
