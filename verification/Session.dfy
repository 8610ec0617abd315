/** The use cases as they run: each loads entities from the session's tables, changes
    them in place and saves them back one row at a time. A request that fails may leave
    the session half written; Handle then rolls it back. Every method is proved to do
    what the function of the same use case says. */
module Session {
  import opened Options
  import opened Orders
  import opened Payments
  import opened Repository
  import opened UseCases
  import OrderEntity

  class Session {
    var db: Tables

    constructor ()
      ensures db == EMPTY
    {
      db := EMPTY;
    }

    // ----- repositories -----

    method FindOrder(id: Id) returns (o: OrderEntity.Order?, e: Option<Error>)
      ensures GetOrder(db, id).Ok? ==>
                e.None? && o != null && fresh(o) && o.State() == GetOrder(db, id).value
      ensures GetOrder(db, id).Err? ==> e == Some(GetOrder(db, id).error)
    {
      o := null;
      if id !in db.orders || db.orders[id].isDeleted {
        return null, Some(NotFound);
      }
      var loaded := Load(db.orders[id]);
      if loaded.Err? {
        return null, Some(loaded.error);
      }
      o := new OrderEntity.Order(loaded.value);
      e := None;
    }

    /** Writes the row and reloads it. */
    method SaveOrder(o: OrderEntity.Order) returns (e: Option<Error>)
      modifies this
      ensures match Save(old(db), o.State())
              case Ok(t) => e.None? && db == t
              case Err(x) => e == Some(x)
    {
      var row := ToRow(o.State());
      db := db.(orders := db.orders[o.id := row]);
      var loaded := Load(row);
      e := if loaded.Ok? then None else Some(loaded.error);
    }

    method SaveAndMap(o: OrderEntity.Order) returns (e: Option<Error>)
      modifies this
      ensures match SaveAndRespond(old(db), o.State())
              case Ok(t) => e.None? && db == t
              case Err(x) => e == Some(x)
    {
      var row := ToRow(o.State());
      e := SaveOrder(o);
      if e.Some? {
        return;
      }
      var response := Respond(Load(row).value);
      e := if response.Ok? then None else Some(response.error);
    }

    // ----- orders -----

    method CreateOrder(c: Command) returns (e: Option<Error>)
      requires c.CreateOrder?
      modifies this
      ensures match DoCreate(old(db), c)
              case Ok(t) => e.None? && db == t
              case Err(x) => e == Some(x)
    {
      if c.client.NoClient? {
        return Some(NotFound);
      }
      if c.client.InactiveClient? {
        return Some(BusinessRule);
      }
      if c.orderId in db.orders {
        return Some(DuplicateKey);
      }
      var o := new OrderEntity.Order(NewOrder(c));
      for n := 0 to |c.lines|
        invariant AddLines(o.State(), c.lines[n..], n) == AddLines(NewOrder(c), c.lines, 0)
        invariant db == old(db)
      {
        assert c.lines[n..][1..] == c.lines[n + 1..];
        var l := c.lines[n];
        var item := BuildItem(l, o.currency, if l.sortOrder != 0 then l.sortOrder else n);
        if item.Err? {
          return Some(item.error);
        }
        var refused := o.AddItem(item.value);
        if refused.Some? {
          return refused;
        }
      }
      e := SaveAndMap(o);
    }

    method ConvertQuote(c: Command) returns (e: Option<Error>)
      requires c.ConvertQuote?
      modifies this
      ensures match DoConvert(old(db), c)
              case Ok(t) => e.None? && db == t
              case Err(x) => e == Some(x)
    {
      if c.orderId in db.orders || !DistinctLines(c.quoteLines) {
        return Some(DuplicateKey);
      }
      var rows: seq<ItemRow> := [];
      for n := 0 to |c.quoteLines|
        invariant rows == QuoteRows(c.quoteLines)[..n]
      {
        var q := c.quoteLines[n];
        rows := rows + [ItemRow(q.id, q.position, q.description, None, q.quantity, 0, 0, q.unitPrice)];
      }
      assert rows == QuoteRows(c.quoteLines);
      db := db.(orders := db.orders[c.orderId :=
        OrderRow(c.orderId, Draft, Pending, c.currency, c.taxRate, 0, 0, 0, 0, None, false, rows, 0, 0, 0)]);
      e := None;
    }

    /** The assignments of an order update, field by field. */
    method EditOrder(o: OrderEntity.Order, edit: OrderEdit) returns (e: Option<Error>)
      modifies o
      ensures match EditTerms(old(o.State()), edit)
              case Ok(s) => e.None? && o.State() == s
              case Err(x) => e == Some(x)
    {
      if !CanEdit(o.State()) {
        return Some(InvalidState);
      }
      if edit.taxRate.Some? {
        o.taxRate := edit.taxRate.value;
      }
      if edit.discount.Some? {
        o.discountCents := edit.discount.value;
      }
      if edit.shipping.Some? {
        o.shippingCents := edit.shipping.value;
      }
      if edit.dueDate.Some? {
        o.dueDate := edit.dueDate;
      }
      if edit.lines.Some? {
        var items := NewItems(edit.lines.value, o.currency);
        if items.Err? {
          return Some(items.error);
        }
        if !DistinctIds(items.value) {
          return Some(DuplicateKey);
        }
        o.items := items.value;
      }
      e := None;
    }

    method UpdateOrder(id: Id, edit: OrderEdit) returns (e: Option<Error>)
      modifies this
      ensures match DoEdit(old(db), UseCases.UpdateOrder(id, edit))
              case Ok(t) => e.None? && db == t
              case Err(x) => e == Some(x)
    {
      if edit.lines == Some([]) {
        return Some(BadRequest);
      }
      var o: OrderEntity.Order?;
      o, e := FindOrder(id);
      if e.Some? {
        return;
      }
      e := EditOrder(o, edit);
      if e.Some? {
        return;
      }
      e := SaveAndMap(o);
    }

    method ConfirmOrder(id: Id) returns (e: Option<Error>)
      modifies this
      ensures match DoEdit(old(db), UseCases.ConfirmOrder(id))
              case Ok(t) => e.None? && db == t
              case Err(x) => e == Some(x)
    {
      var o: OrderEntity.Order?;
      o, e := FindOrder(id);
      if e.Some? {
        return;
      }
      e := o.ConfirmOrder();
      if e.Some? {
        return;
      }
      e := SaveAndMap(o);
    }

    method CancelOrder(id: Id) returns (e: Option<Error>)
      modifies this
      ensures match DoEdit(old(db), UseCases.CancelOrder(id))
              case Ok(t) => e.None? && db == t
              case Err(x) => e == Some(x)
    {
      var o: OrderEntity.Order?;
      o, e := FindOrder(id);
      if e.Some? {
        return;
      }
      e := o.CancelOrder();
      if e.Some? {
        return;
      }
      e := SaveAndMap(o);
    }

    method DeleteOrder(id: Id) returns (e: Option<Error>)
      modifies this
      ensures match DoDelete(old(db), id)
              case Ok(t) => e.None? && db == t
              case Err(x) => e == Some(x)
    {
      var o: OrderEntity.Order?;
      o, e := FindOrder(id);
      if e.Some? {
        return;
      }
      if o.status !in {Draft, Cancelled} {
        return Some(InvalidState);
      }
      o.SoftDelete();
      e := SaveOrder(o);
    }

    method AddItem(id: Id, l: NewLine) returns (e: Option<Error>)
      modifies this
      ensures match DoEdit(old(db), UseCases.AddItem(id, l))
              case Ok(t) => e.None? && db == t
              case Err(x) => e == Some(x)
    {
      var o: OrderEntity.Order?;
      o, e := FindOrder(id);
      if e.Some? {
        return;
      }
      var item := BuildItem(l, o.currency, l.sortOrder);
      if item.Err? {
        return Some(item.error);
      }
      e := o.AddItem(item.value);
      if e.Some? {
        return;
      }
      e := SaveAndMap(o);
    }

    method RemoveItem(id: Id, itemId: Id) returns (e: Option<Error>)
      modifies this
      ensures match DoEdit(old(db), UseCases.RemoveItem(id, itemId))
              case Ok(t) => e.None? && db == t
              case Err(x) => e == Some(x)
    {
      var o: OrderEntity.Order?;
      o, e := FindOrder(id);
      if e.Some? {
        return;
      }
      e := o.RemoveItem(itemId);
      if e.Some? {
        return;
      }
      e := SaveAndMap(o);
    }

    method UpdateItem(id: Id, itemId: Id, edit: ItemEdit) returns (e: Option<Error>)
      modifies this
      ensures match DoEdit(old(db), UseCases.UpdateItem(id, itemId, edit))
              case Ok(t) => e.None? && db == t
              case Err(x) => e == Some(x)
    {
      var o: OrderEntity.Order?;
      o, e := FindOrder(id);
      if e.Some? {
        return;
      }
      e := o.UpdateItem(itemId, edit);
      if e.Some? {
        return;
      }
      e := SaveAndMap(o);
    }

    method RecordDelivery(id: Id, ds: seq<DeliveryLine>) returns (e: Option<Error>)
      modifies this
      ensures match DoEdit(old(db), UseCases.RecordDelivery(id, ds))
              case Ok(t) => e.None? && db == t
              case Err(x) => e == Some(x)
    {
      var o: OrderEntity.Order?;
      o, e := FindOrder(id);
      if e.Some? {
        return;
      }
      e := o.RecordDelivery(ds);
      if e.Some? {
        return;
      }
      e := SaveAndMap(o);
    }

    /** The invoice updates the row's lines in a loop. */
    method GenerateInvoice(id: Id) returns (e: Option<Error>)
      modifies this
      ensures match DoInvoice(old(db), id)
              case Ok(t) => e.None? && db == t
              case Err(x) => e == Some(x)
    {
      if id !in db.orders {
        return Some(NotFound);
      }
      var row := db.orders[id];
      if !Billable(row.status) {
        return Some(InvalidState);
      }
      var hasDelivery := HasDelivery(ToItems(row.items));
      if hasDelivery {
        var lines := row.items;
        for n := 0 to |lines|
          invariant |lines| == |row.items|
          invariant forall k :: 0 <= k < |lines| ==>
                      lines[k] == if k < n then InvoicedRows(row.items)[k] else row.items[k]
        {
          if lines[n].deliveredQuantity > lines[n].invoicedQuantity {
            lines := lines[n := lines[n].(invoicedQuantity := lines[n].deliveredQuantity)];
          }
        }
        assert lines == InvoicedRows(row.items);
        db := db.(orders := db.orders[id := row.(items := lines)]);
      }
      e := None;
    }

    // ----- money -----

    method RecordPayment(id: Id, amount: nat, txnId: Id, today: int) returns (e: Option<Error>)
      modifies this
      ensures match DoPayment(old(db), id, amount, txnId, today)
              case Ok(t) => e.None? && db == t
              case Err(x) => e == Some(x)
    {
      var o: OrderEntity.Order?;
      o, e := FindOrder(id);
      if e.Some? {
        return;
      }
      e := ValidatePayment(o.State(), amount, o.currency);
      if e.Some? {
        return;
      }
      var txn := new PaymentTransaction(txnId, id, Payment, amount, o.currency);
      e := txn.Complete();
      if e.Some? {
        return;
      }
      e := o.ApplyPayment(amount, o.currency, today);
      if e.Some? {
        return;
      }
      if txnId in db.txns {
        return Some(DuplicateKey);
      }
      db := db.(txns := db.txns[txnId := txn.State()]);
      e := SaveOrder(o);
    }

    method RequestRefund(refundId: Id, orderId: Id, originalTxn: Id, amount: nat) returns (e: Option<Error>)
      modifies this
      ensures match DoRequestRefund(old(db), refundId, orderId, originalTxn, amount)
              case Ok(t) => e.None? && db == t
              case Err(x) => e == Some(x)
    {
      var o: OrderEntity.Order?;
      o, e := FindOrder(orderId);
      if e.Some? {
        return;
      }
      if originalTxn !in db.txns || db.txns[originalTxn].orderId != orderId {
        return Some(NotFound);
      }
      e := ValidateRefund(o.State(), amount);
      if e.Some? {
        return;
      }
      if refundId in db.refunds {
        return Some(DuplicateKey);
      }
      var refund := new Refund(RefundState(refundId, orderId, originalTxn, o.currency, amount, None, Requested, None, None));
      db := db.(refunds := db.refunds[refundId := refund.State()]);
    }

    /** The refund transaction is written before the order is asked; when the order then
        refuses, the session is left with a transaction that must not be committed. */
    method ApproveRefund(refundId: Id, approved: Option<nat>, txnId: Id, today: int) returns (e: Option<Error>)
      modifies this
      ensures match DoApprove(old(db), refundId, approved, txnId, today)
              case Ok(t) => e.None? && db == t
              case Err(x) => e == Some(x)
    {
      if refundId !in db.refunds {
        return Some(NotFound);
      }
      var refund := new Refund(db.refunds[refundId]);
      e := refund.ApproveRefund(if approved == Some(0) then None else approved);
      if e.Some? {
        return;
      }
      var amount := Effective(refund.State());
      var o: OrderEntity.Order?;
      o, e := FindOrder(refund.orderId);
      if e.Some? {
        return;
      }
      var txn := new PaymentTransaction(txnId, refund.orderId, Refunding, amount, refund.currency);
      e := txn.Complete();
      if e.Some? {
        return;
      }
      if txnId in db.txns {
        return Some(DuplicateKey);
      }
      db := db.(txns := db.txns[txnId := txn.State()]);
      e := o.ApplyRefund(amount, today);
      if e.Some? {
        return;
      }
      e := SaveOrder(o);
      if e.Some? {
        return;
      }
      e := refund.CompleteRefund(txnId);
      if e.Some? {
        return;
      }
      db := db.(refunds := db.refunds[refundId := refund.State()]);
    }

    method RejectRefund(refundId: Id, reason: string) returns (e: Option<Error>)
      modifies this
      ensures match DoReject(old(db), refundId, reason)
              case Ok(t) => e.None? && db == t
              case Err(x) => e == Some(x)
    {
      if refundId !in db.refunds {
        return Some(NotFound);
      }
      var refund := new Refund(db.refunds[refundId]);
      e := refund.RejectRefund(reason);
      if e.Some? {
        return;
      }
      db := db.(refunds := db.refunds[refundId := refund.State()]);
    }

    // ----- one request -----

    /** Hands a request that edits an order to its use case. */
    method DispatchEdit(c: Command) returns (e: Option<Error>)
      requires IsEdit(c)
      modifies this
      ensures match DoEdit(old(db), c)
              case Ok(t) => e.None? && db == t
              case Err(x) => e == Some(x)
    {
      match c
      case UpdateOrder(id, edit) => e := UpdateOrder(id, edit);
      case ConfirmOrder(id) => e := ConfirmOrder(id);
      case CancelOrder(id) => e := CancelOrder(id);
      case AddItem(id, l) => e := AddItem(id, l);
      case RemoveItem(id, itemId) => e := RemoveItem(id, itemId);
      case UpdateItem(id, itemId, edit) => e := UpdateItem(id, itemId, edit);
      case RecordDelivery(id, ds) => e := RecordDelivery(id, ds);
    }

    /** Hands a request to its use case. */
    method Dispatch(c: Command) returns (e: Option<Error>)
      modifies this
      ensures match Step(old(db), c)
              case Ok(t) => e.None? && db == t
              case Err(x) => e == Some(x)
    {
      match c
      case CreateOrder(_, _, _, _, _, _, _, _) => e := CreateOrder(c);
      case ConvertQuote(_, _, _, _) => e := ConvertQuote(c);
      case DeleteOrder(id) => e := DeleteOrder(id);
      case RecordPayment(id, amount, txnId, today) => e := RecordPayment(id, amount, txnId, today);
      case RequestRefund(refundId, id, originalTxn, amount) => e := RequestRefund(refundId, id, originalTxn, amount);
      case ApproveRefund(refundId, approved, txnId, today) => e := ApproveRefund(refundId, approved, txnId, today);
      case RejectRefund(refundId, reason) => e := RejectRefund(refundId, reason);
      case GenerateInvoice(id) => e := GenerateInvoice(id);
      case _ => e := DispatchEdit(c);
    }

    /** Runs one request and rolls the session back when it fails. */
    method Handle(c: Command) returns (e: Option<Error>)
      modifies this
      ensures db == Commit(old(db), c)
      ensures e.None? <==> Step(old(db), c).Ok?
      ensures e.Some? ==> Step(old(db), c) == Err(e.value) && db == old(db)
    {
      var before := db;
      e := Dispatch(c);
      if e.Some? {
        db := before;
      }
    }

    /** Any number of requests, one after the other. */
    method Serve(cs: seq<Command>)
      modifies this
      ensures db == Run(old(db), cs)
    {
      for n := 0 to |cs|
        invariant Run(db, cs[n..]) == Run(old(db), cs)
      {
        assert cs[n..][1..] == cs[n + 1..];
        var e := Handle(cs[n]);
      }
    }
  }
}
