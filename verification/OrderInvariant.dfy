/** What every order keeps, and that each operation keeps it. */
module OrderInvariant {
  import opened Money
  import opened Options
  import opened Orders
  import opened Deliveries
  import opened Repository
  import opened UseCases

  /** The order reloads and both of its totals exist. */
  predicate WellFormed(o: OrderState) {
    && ItemsOk(o.items)
    && CurrencyOk(o.currency)
    && Respond(o).Ok?
  }

  predicate NothingDelivered(items: seq<Item>) {
    forall k :: 0 <= k < |items| ==> items[k].delivered == 0
  }

  /** A defect no use case can repair: it stops the row from loading, or its response from
      being built. */
  predicate Broken(o: OrderState) {
    !ItemsOk(o.items) || !CurrencyOk(o.currency)
  }

  lemma {:induction false} NothingDeliveredYet(items: seq<Item>)
    requires NothingDelivered(items)
    ensures DeliveredSubtotal(items) == 0
  {
    if items != [] {
      assert items[0].delivered == 0;
      NothingDeliveredYet(items[1..]);
    }
  }

  /** How an order with money on it is classified. */
  function PaidStanding(paid: nat, refunded: nat, total: int): PaymentStatus {
    if refunded >= total then Refunded
    else if paid >= total then Paid
    else if refunded > 0 then PartialRefund
    else Partial
  }

  /** Lines keep 0 <= invoiced <= delivered <= quantity under distinct ids. */
  predicate LinesInv(o: OrderState) {
    DistinctIds(o.items) && QuantitiesOk(o.items)
  }

  /** The status says how far the delivery is. */
  predicate StatusInv(o: OrderState) {
    && o.status in {Draft, OrderStatus.Confirmed, PartiallyDelivered, Delivered, Cancelled}
    && (o.status in {Draft, OrderStatus.Confirmed, Cancelled} <==> NothingDelivered(o.items))
    && (o.status == Delivered <==> FullyDelivered(o.items))
    && (o.isDeleted ==> o.status in {Draft, Cancelled})
  }

  /** Money on an order never passes a positive total, and its classification is current. */
  predicate PaidInv(o: OrderState) {
    && (o.status == Draft ==> o.paid == 0 && o.refunded == 0)
    && (o.paid > 0 && Total(o) > 0 ==> o.paid <= Total(o))
    && (o.paid > 0 ==> o.paymentStatus == PaidStanding(o.paid, o.refunded, Total(o)))
  }

  predicate OrderInv(o: OrderState) {
    && LinesInv(o)
    && StatusInv(o)
    && PaidInv(o)
    && (o.status != Draft ==> WellFormed(o))
  }

  lemma NotFullyDelivered(items: seq<Item>)
    requires QuantitiesOk(items) && NothingDelivered(items)
    ensures !FullyDelivered(items)
  {
    if items != [] {
      assert items[0].quantity > 0 && items[0].delivered == 0;
    }
  }

  /** An order that may be edited keeps the invariant under any edit of its terms that puts
      undelivered lines and leaves it well formed. */
  lemma EditKeeps(o: OrderState, e: OrderState)
    requires OrderInv(o) && CanEdit(o)
    requires e == o.(items := e.items, taxRate := e.taxRate, discount := e.discount,
                     shipping := e.shipping, dueDate := e.dueDate)
    requires LinesInv(e) && NothingDelivered(e.items) && WellFormed(e)
    ensures OrderInv(e)
  {
    NotFullyDelivered(e.items);
    assert NothingDelivered(o.items);
  }

  lemma {:induction false} NewItemsFresh(lines: seq<NewLine>, currency: string)
    requires NewItems(lines, currency).Ok?
    ensures forall i :: i in NewItems(lines, currency).value ==> ItemOk(i) && i.delivered == 0
  {
    if lines != [] {
      NewItemsFresh(lines[1..], currency);
      var items := NewItems(lines, currency).value;
      assert items == [items[0]] + NewItems(lines[1..], currency).value;
    }
  }

  /** An accepted edit changes nothing but terms, and the lines only when lines were given. */
  lemma EditTermsShape(o: OrderState, e: OrderEdit)
    requires EditTerms(o, e).Ok?
    ensures CanEdit(o)
    ensures var n := EditTerms(o, e).value;
            && n == o.(items := n.items, taxRate := n.taxRate, discount := n.discount,
                       shipping := n.shipping, dueDate := n.dueDate)
            && (e.lines.None? ==> n.items == o.items)
            && (e.lines.Some? ==> NewItems(e.lines.value, o.currency) == Ok(n.items) && DistinctIds(n.items))
  {
  }

  lemma EditTermsKeeps(o: OrderState, e: OrderEdit)
    requires OrderInv(o) && EditTerms(o, e).Ok?
    requires WellFormed(EditTerms(o, e).value)
    ensures OrderInv(EditTerms(o, e).value)
  {
    var n := EditTerms(o, e).value;
    EditTermsShape(o, e);
    if e.lines.Some? {
      NewItemsFresh(e.lines.value, o.currency);
      FreshLines(n.items);
    }
    EditKeeps(o, n);
  }

  lemma FreshLines(items: seq<Item>)
    requires forall i :: i in items ==> ItemOk(i) && i.delivered == 0
    ensures QuantitiesOk(items) && NothingDelivered(items)
  {
    forall k | 0 <= k < |items|
      ensures ItemOk(items[k]) && items[k].delivered == 0
    {
      assert items[k] in items;
    }
  }

  lemma WithItemKeepsLines(o: OrderState, item: Item)
    requires LinesInv(o) && ItemOk(item) && WithItem(o, item).Ok?
    ensures LinesInv(WithItem(o, item).value)
  {
  }

  lemma WithItemKeeps(o: OrderState, item: Item)
    requires OrderInv(o) && ItemOk(item) && item.delivered == 0 && WithItem(o, item).Ok?
    requires WellFormed(WithItem(o, item).value)
    ensures OrderInv(WithItem(o, item).value)
  {
    WithItemKeepsLines(o, item);
    EditKeeps(o, WithItem(o, item).value);
  }

  /** Removing by id keeps a subsequence. */
  lemma {:induction false} WithoutSubset(items: seq<Item>, id: Id)
    requires DistinctIds(items)
    ensures DistinctIds(Without(items, id))
    ensures forall i :: i in Without(items, id) ==> i in items && i.id != id
  {
    if items != [] {
      WithoutSubset(items[1..], id);
      var rest := Without(items[1..], id);
      forall k | 0 <= k < |rest|
        ensures rest[k].id != items[0].id
      {
        assert rest[k] in items[1..];
      }
    }
  }

  lemma WithoutItemKeeps(o: OrderState, id: Id)
    requires OrderInv(o) && WithoutItem(o, id).Ok?
    requires WellFormed(WithoutItem(o, id).value)
    ensures OrderInv(WithoutItem(o, id).value)
  {
    var n := WithoutItem(o, id).value;
    WithoutSubset(o.items, id);
    forall k | 0 <= k < |n.items|
      ensures n.items[k] in o.items
    {
      assert n.items[k] in n.items;
    }
    EditKeeps(o, n);
  }

  lemma WithItemEditKeeps(o: OrderState, id: Id, e: ItemEdit)
    requires OrderInv(o) && WithItemEdit(o, id, e).Ok?
    requires WellFormed(WithItemEdit(o, id, e).value)
    ensures OrderInv(WithItemEdit(o, id, e).value)
  {
    EditKeeps(o, WithItemEdit(o, id, e).value);
  }

  /** A new order: a draft with undelivered lines and no money. */
  predicate Unstarted(o: OrderState) {
    && o.status == Draft && !o.isDeleted && o.paid == 0 && o.refunded == 0
    && LinesInv(o) && NothingDelivered(o.items)
    && (forall k :: 0 <= k < |o.items| ==> o.items[k].invoiced == 0)
  }

  lemma UnstartedInv(o: OrderState)
    requires Unstarted(o)
    ensures OrderInv(o)
  {
    NotFullyDelivered(o.items);
  }

  lemma {:induction false} AddLinesUnstarted(o: OrderState, lines: seq<NewLine>, position: nat)
    requires Unstarted(o) && AddLines(o, lines, position).Ok?
    ensures Unstarted(AddLines(o, lines, position).value)
    ensures AddLines(o, lines, position).value == o.(items := AddLines(o, lines, position).value.items)
    decreases |lines|
  {
    if lines != [] {
      var l := lines[0];
      var item := BuildItem(l, o.currency, if l.sortOrder != 0 then l.sortOrder else position);
      WithItemKeepsLines(o, item.value);
      AddLinesUnstarted(WithItem(o, item.value).value, lines[1..], position + 1);
    }
  }

  lemma ConfirmKeeps(o: OrderState)
    requires OrderInv(o) && Confirm(o).Ok? && WellFormed(Confirm(o).value) && !o.isDeleted
    ensures OrderInv(Confirm(o).value)
  {
  }

  lemma CancelKeeps(o: OrderState)
    requires OrderInv(o) && Cancel(o).Ok? && WellFormed(Cancel(o).value)
    ensures OrderInv(Cancel(o).value)
  {
  }

  /** A delivery writes delivered quantities and the status, and delivers something. */
  lemma DeliveryChanges(o: OrderState, ds: seq<DeliveryLine>)
    requires LinesInv(o) && WithDelivery(o, ds).Ok?
    ensures var n := WithDelivery(o, ds).value;
            && n == o.(items := n.items, status := n.status)
            && |n.items| == |o.items|
            && (forall k :: 0 <= k < |o.items| ==>
                  && n.items[k] == o.items[k].(delivered := n.items[k].delivered)
                  && o.items[k].delivered <= n.items[k].delivered <= n.items[k].quantity)
            && !NothingDelivered(n.items)
            && n.status == (if FullyDelivered(n.items) then Delivered else PartiallyDelivered)
  {
    DeliveryAccepted(o, ds);
    var n := WithDelivery(o, ds).value;
    var d :| 0 <= d < |ds| && ds[d].quantity > 0;
    var k := IndexOf(o.items, ds[d].itemId);
    assert k < |o.items|;
    DeliversAtLeast(ds, d);
    assert n.items[k].delivered > 0;
  }

  lemma DeliveryKeeps(o: OrderState, ds: seq<DeliveryLine>)
    requires OrderInv(o) && WithDelivery(o, ds).Ok? && WellFormed(WithDelivery(o, ds).value)
    requires !o.isDeleted
    ensures OrderInv(WithDelivery(o, ds).value)
  {
    var n := WithDelivery(o, ds).value;
    DeliveryChanges(o, ds);
    DeliveryKeepsTerms(o, ds);
    assert LinesInv(n);
  }

  lemma DeliveryKeepsTerms(o: OrderState, ds: seq<DeliveryLine>)
    requires LinesInv(o) && WithDelivery(o, ds).Ok?
    ensures SameTerms(o, WithDelivery(o, ds).value)
    ensures Total(WithDelivery(o, ds).value) == Total(o)
    ensures InvoicedSubtotal(WithDelivery(o, ds).value.items) == InvoicedSubtotal(o.items)
  {
    var n := WithDelivery(o, ds).value;
    DeliveryChanges(o, ds);
    LineTermsEqual(o.items, n.items);
    TermsFix(o, n);
    InvoicedSame(o.items, n.items);
  }

  lemma {:induction false} DeliversAtLeast(ds: seq<DeliveryLine>, d: nat)
    requires d < |ds|
    ensures Delivers(ds, ds[d].itemId) >= ds[d].quantity
  {
    if d > 0 {
      DeliversAtLeast(ds[1..], d - 1);
    }
  }

  /** A change of an order stays on that order: its money, currency and row are not touched. */
  lemma ChangedSameOrder(o: OrderState, c: Command)
    requires IsEdit(c) && Changed(o, c).Ok?
    ensures var n := Changed(o, c).value;
            && n.id == o.id && n.currency == o.currency && n.paid == o.paid && n.refunded == o.refunded
            && n.isDeleted == o.isDeleted
  {
    if c.UpdateOrder? {
      EditTermsShape(o, c.orderEdit);
    }
  }

  /** Every change that leaves a well-formed order keeps the invariant. */
  lemma ChangedKeeps(o: OrderState, c: Command)
    requires OrderInv(o) && !o.isDeleted && IsEdit(c) && Changed(o, c).Ok?
    requires WellFormed(Changed(o, c).value)
    ensures OrderInv(Changed(o, c).value)
  {
    match c
    case UpdateOrder(_, e) => EditTermsKeeps(o, e);
    case ConfirmOrder(_) => ConfirmKeeps(o);
    case CancelOrder(_) => CancelKeeps(o);
    case AddItem(_, l) => WithItemKeeps(o, BuildItem(l, o.currency, l.sortOrder).value);
    case RemoveItem(_, itemId) => WithoutItemKeeps(o, itemId);
    case UpdateItem(_, itemId, e) => WithItemEditKeeps(o, itemId, e);
    case RecordDelivery(_, ds) => DeliveryKeeps(o, ds);
  }

  // ----- terms -----

  /** The commercial terms of a line: what it is, how many, at what price. */
  datatype LineTerm = LineTerm(id: Id, description: string, quantity: nat, unitPrice: nat)

  function LineTerms(items: seq<Item>): (r: seq<LineTerm>)
    ensures |r| == |items|
    ensures forall k :: 0 <= k < |items| ==>
              r[k] == LineTerm(items[k].id, items[k].description, items[k].quantity, items[k].unitPrice)
  {
    if items == [] then []
    else
      [LineTerm(items[0].id, items[0].description, items[0].quantity, items[0].unitPrice)] + LineTerms(items[1..])
  }

  /** Two states of one order agree on everything that enters the total. */
  predicate SameTerms(a: OrderState, b: OrderState) {
    && a.id == b.id && a.currency == b.currency && a.taxRate == b.taxRate
    && a.discount == b.discount && a.shipping == b.shipping
    && LineTerms(a.items) == LineTerms(b.items)
  }

  lemma LineTermsEqual(a: seq<Item>, b: seq<Item>)
    requires |a| == |b|
    requires forall k :: 0 <= k < |a| ==>
               a[k].id == b[k].id && a[k].description == b[k].description
               && a[k].quantity == b[k].quantity && a[k].unitPrice == b[k].unitPrice
    ensures LineTerms(a) == LineTerms(b)
  {
  }

  lemma {:induction false} TermsFixSubtotal(a: seq<Item>, b: seq<Item>)
    requires LineTerms(a) == LineTerms(b)
    ensures Subtotal(a) == Subtotal(b)
  {
    assert |a| == |LineTerms(a)| == |LineTerms(b)| == |b|;
    if a != [] {
      assert LineTerms(a)[0] == LineTerms(b)[0];
      assert LineTerms(a)[1..] == LineTerms(a[1..]) && LineTerms(b)[1..] == LineTerms(b[1..]);
      TermsFixSubtotal(a[1..], b[1..]);
    }
  }

  lemma TermsFix(a: OrderState, b: OrderState)
    requires SameTerms(a, b)
    ensures Subtotal(a.items) == Subtotal(b.items)
    ensures Total(a) == Total(b)
  {
    TermsFixSubtotal(a.items, b.items);
  }

  lemma {:induction false} InvoicedSame(a: seq<Item>, b: seq<Item>)
    requires |a| == |b|
    requires forall k :: 0 <= k < |a| ==> a[k].invoiced == b[k].invoiced && a[k].unitPrice == b[k].unitPrice
    ensures InvoicedSubtotal(a) == InvoicedSubtotal(b)
  {
    if a != [] {
      assert a[0].invoiced == b[0].invoiced;
      InvoicedSame(a[1..], b[1..]);
    }
  }

  // ----- money -----

  /** A classification made with money on the order does not depend on the date. */
  lemma ClassifyPaid(paid: nat, refunded: nat, total: nat, due: Option<int>, today: int)
    requires paid > 0
    ensures Classify(paid, refunded, total, due, today) == PaidStanding(paid, refunded, total)
  {
  }

  lemma MoneyKeepsTerms(o: OrderState, paid: nat, refunded: nat, s: PaymentStatus)
    ensures var n := o.(paid := paid, refunded := refunded, paymentStatus := s);
            Total(n) == Total(o) && (WellFormed(n) <==> WellFormed(o))
  {
  }

  /** A payment touches the paid amount and the payment status only. */
  lemma PaymentChanges(o: OrderState, amount: nat, today: int)
    requires WithPayment(o, amount, o.currency, today).Ok?
    ensures var n := WithPayment(o, amount, o.currency, today).value;
            n == o.(paid := o.paid + amount, paymentStatus := n.paymentStatus)
  {
  }

  /** A refund moves its amount from the paid to the refunded side. */
  lemma RefundChanges(o: OrderState, amount: nat, today: int)
    requires WithRefund(o, amount, today).Ok?
    ensures amount <= o.paid
    ensures var n := WithRefund(o, amount, today).value;
            n == o.(paid := o.paid - amount, refunded := o.refunded + amount, paymentStatus := n.paymentStatus)
  {
  }

  lemma PaymentKeeps(o: OrderState, amount: nat, today: int)
    requires OrderInv(o)
    requires ValidatePayment(o, amount, o.currency).None? && WithPayment(o, amount, o.currency, today).Ok?
    ensures OrderInv(WithPayment(o, amount, o.currency, today).value)
  {
    var n := WithPayment(o, amount, o.currency, today).value;
    MoneyKeepsTerms(o, n.paid, n.refunded, n.paymentStatus);
  }

  lemma RefundKeeps(o: OrderState, amount: nat, today: int)
    requires OrderInv(o) && WithRefund(o, amount, today).Ok?
    ensures OrderInv(WithRefund(o, amount, today).value)
  {
    var n := WithRefund(o, amount, today).value;
    MoneyKeepsTerms(o, n.paid, n.refunded, n.paymentStatus);
  }

  // ----- invoices -----

  lemma {:induction false} AllInvoicedSubtotals(items: seq<Item>)
    requires QuantitiesOk(items)
    ensures InvoicedSubtotal(AllInvoiced(items)) == DeliveredSubtotal(items)
    ensures DeliveredSubtotal(AllInvoiced(items)) == DeliveredSubtotal(items)
  {
    if items != [] {
      assert QuantitiesOk(items[1..]);
      AllInvoicedSubtotals(items[1..]);
    }
  }

  /** Invoicing writes invoiced quantities only. */
  lemma InvoiceChanges(items: seq<Item>)
    requires QuantitiesOk(items)
    ensures forall k :: 0 <= k < |items| ==> AllInvoiced(items)[k] == items[k].(invoiced := items[k].delivered)
    ensures QuantitiesOk(AllInvoiced(items))
    ensures LineTerms(items) == LineTerms(AllInvoiced(items))
    ensures NothingDelivered(items) <==> NothingDelivered(AllInvoiced(items))
    ensures FullyDelivered(items) <==> FullyDelivered(AllInvoiced(items))
  {
    var n := AllInvoiced(items);
    forall k | 0 <= k < |items|
      ensures n[k] == items[k].(invoiced := items[k].delivered)
    {
      assert items[k].invoiced <= items[k].delivered;
    }
    LineTermsEqual(items, n);
    SameDelivery(items, n);
  }

  lemma SameDelivery(a: seq<Item>, b: seq<Item>)
    requires |a| == |b|
    requires forall k :: 0 <= k < |a| ==> a[k].delivered == b[k].delivered && a[k].quantity == b[k].quantity
    ensures NothingDelivered(a) <==> NothingDelivered(b)
    ensures FullyDelivered(a) <==> FullyDelivered(b)
  {
    if NothingDelivered(a) {
      assert forall k :: 0 <= k < |b| ==> a[k].delivered == 0;
    }
    if FullyDelivered(b) {
      assert forall k :: 0 <= k < |a| ==> b[k].quantity - b[k].delivered == 0;
    }
  }

  lemma InvoiceKeepsTerms(o: OrderState)
    requires QuantitiesOk(o.items)
    ensures SameTerms(o, o.(items := AllInvoiced(o.items)))
    ensures LinesInv(o) ==> LinesInv(o.(items := AllInvoiced(o.items)))
    ensures Total(o) == Total(o.(items := AllInvoiced(o.items)))
  {
    InvoiceChanges(o.items);
    TermsFix(o, o.(items := AllInvoiced(o.items)));
  }

  /** The response depends on the lines through their two sums and completeness only. */
  lemma RespondFix(a: OrderState, b: OrderState)
    requires a == b.(items := a.items)
    requires Subtotal(a.items) == Subtotal(b.items)
    requires DeliveredSubtotal(a.items) == DeliveredSubtotal(b.items)
    requires FullyDelivered(a.items) <==> FullyDelivered(b.items)
    ensures Respond(a) == Respond(b)
  {
    assert TotalOf(a) == TotalOf(b);
    assert DiscountShare(a) == DiscountShare(b);
    assert DeliveredTotalOf(a) == DeliveredTotalOf(b);
  }

  lemma InvoiceKeepsWellFormed(o: OrderState)
    requires WellFormed(o)
    ensures WellFormed(o.(items := AllInvoiced(o.items)))
  {
    var items := AllInvoiced(o.items);
    assert ItemsOk(items) && QuantitiesOk(o.items);
    assert Respond(o.(items := items)).Ok? by {
      InvoiceChanges(o.items);
      AllInvoicedSubtotals(o.items);
      TermsFixSubtotal(o.items, items);
      RespondFix(o.(items := items), o);
    }
  }

  lemma InvoiceKeeps(o: OrderState)
    requires OrderInv(o) && !NothingDelivered(o.items)
    ensures OrderInv(o.(items := AllInvoiced(o.items)))
  {
    InvoiceKeepsTerms(o);
    InvoiceChanges(o.items);
    InvoiceKeepsWellFormed(o);
  }
}
