/** Runs from the empty store that show what the ledger allows. */
module Witnesses {
  import opened Options
  import opened Orders
  import opened Payments
  import opened Repository
  import opened UseCases
  import opened OrderInvariant
  import Acceptance
  import OrderRequests
  import Deliveries
  import Footprints
  import Ledger
  import Money
  import Text

  /** An order over one untaxed line is created and confirmed. */
  function Opening(quantity: nat, price: nat, discount: nat, shipping: nat): seq<Command> {
    [CreateOrder(1, ActiveClient, "XAF", 0, discount, shipping, None, [NewLine(2, "x", quantity, price, None, 0)]),
     ConfirmOrder(1)]
  }

  function Opened(status: OrderStatus, quantity: nat, price: nat, discount: nat, shipping: nat): OrderState {
    OrderState(1, "XAF", 0, discount, shipping, None, status, Pending,
               [Item(2, "x", quantity, price, None, 0, 0, 0)], 0, 0, false)
  }

  function Only(o: OrderState): Tables {
    Tables(map[1 := ToRow(o)], map[], map[])
  }

  lemma OpenedTotal(o: OrderState, quantity: nat, price: nat)
    requires o.items != [] && o.items == [Item(2, "x", quantity, price, None, 0, o.items[0].delivered, 0)]
    requires o.taxRate == 0
    ensures Subtotal(o.items) == price * quantity
    ensures Total(o) == price * quantity + o.shipping - o.discount
  {
    assert o.items[1..] == [];
    Money.FloorUnique(Money.SCALE / 2, Money.SCALE, 0);
  }

  lemma OpenedRow(t: Tables, status: OrderStatus, quantity: nat, price: nat, discount: nat, shipping: nat)
    requires quantity > 0 && discount <= price * quantity + shipping
    ensures var o := Opened(status, quantity, price, discount, shipping);
            Load(ToRow(o)) == Ok(o) && SaveAndRespond(t, o) == Ok(Put(t, o))
  {
    var o := Opened(status, quantity, price, discount, shipping);
    Text.VisibleNotBlank("x");
    OpenedTotal(o, quantity, price);
    OrderRequests.UntouchedResponse(o);
    SaveThenLoad(o);
  }

  lemma Created(quantity: nat, price: nat, discount: nat, shipping: nat)
    requires quantity > 0 && discount <= price * quantity + shipping
    ensures Commit(EMPTY, Opening(quantity, price, discount, shipping)[0])
         == Only(Opened(Draft, quantity, price, discount, shipping))
  {
    var c := Opening(quantity, price, discount, shipping)[0];
    var o := Opened(Draft, quantity, price, discount, shipping);
    Text.VisibleNotBlank("x");
    OpenedTotal(o, quantity, price);
    assert OrderRequests.LineProper(c.lines[0]);
    assert OrderRequests.Asked(c) == o by {
      assert OrderRequests.Placed(c.lines, 0) == o.items;
    }
    OrderRequests.CreateCommitted(EMPTY, c);
  }

  lemma Confirmed(quantity: nat, price: nat, discount: nat, shipping: nat)
    requires quantity > 0 && discount <= price * quantity + shipping
    ensures Commit(Only(Opened(Draft, quantity, price, discount, shipping)), ConfirmOrder(1))
         == Only(Opened(OrderStatus.Confirmed, quantity, price, discount, shipping))
  {
    var o := Opened(Draft, quantity, price, discount, shipping);
    var t := Only(o);
    OpenedRow(t, Draft, quantity, price, discount, shipping);
    assert GetOrder(t, 1) == Ok(o);
    OpenedRow(t, OrderStatus.Confirmed, quantity, price, discount, shipping);
    assert DoEdit(t, ConfirmOrder(1)) == Ok(Put(t, Opened(OrderStatus.Confirmed, quantity, price, discount, shipping)));
  }

  lemma RunTwo(c: Command, d: Command)
    ensures Run(EMPTY, [c, d]) == Commit(Commit(EMPTY, c), d)
  {
    assert [c, d][1..] == [d] && [d][1..] == [];
    assert Run(Commit(EMPTY, c), [d]) == Run(Commit(Commit(EMPTY, c), d), []);
  }

  lemma AfterOpening(quantity: nat, price: nat, discount: nat, shipping: nat)
    requires quantity > 0 && discount <= price * quantity + shipping
    ensures Run(EMPTY, Opening(quantity, price, discount, shipping))
         == Only(Opened(OrderStatus.Confirmed, quantity, price, discount, shipping))
  {
    var cs := Opening(quantity, price, discount, shipping);
    Created(quantity, price, discount, shipping);
    Confirmed(quantity, price, discount, shipping);
    RunTwo(cs[0], cs[1]);
  }

  // ----- a discount that only fits thanks to the shipping -----

  /** Two units at 50 cents, 1000 cents shipping, 500 cents discount: the order is created and
      confirmed, but neither one unit nor both can ever be delivered. */
  lemma ShippingDiscountBlocksDelivery()
    ensures var t := Run(EMPTY, Opening(2, 50, 500, 1000));
            && 1 in t.orders && t.orders[1].status == OrderStatus.Confirmed
            && Step(t, RecordDelivery(1, [DeliveryLine(2, 1)])).Err?
            && Step(t, RecordDelivery(1, [DeliveryLine(2, 2)])).Err?
  {
    AfterOpening(2, 50, 500, 1000);
    var t := Run(EMPTY, Opening(2, 50, 500, 1000));
    var o := Opened(OrderStatus.Confirmed, 2, 50, 500, 1000);
    SaveThenLoad(o);
    Ledger.EmptyInv();
    Ledger.RunKeeps(EMPTY, Opening(2, 50, 500, 1000));
    Uncovered(o, 1);
    OrderRequests.DeliveryCommitted(t, 1, [DeliveryLine(2, 1)]);
    Uncovered(o, 2);
    OrderRequests.DeliveryCommitted(t, 1, [DeliveryLine(2, 2)]);
  }

  lemma Uncovered(o: OrderState, q: nat)
    requires o == Opened(OrderStatus.Confirmed, 2, 50, 500, 1000) && 1 <= q <= 2
    ensures !OrderRequests.ShareCovered(OrderRequests.WithGrown(o, [DeliveryLine(2, q)]))
  {
    var ds := [DeliveryLine(2, q)];
    assert Deliveries.Delivers(ds, 2) == q by {
      assert ds[1..] == [];
    }
    var n := OrderRequests.WithGrown(o, ds);
    assert n.items == [Item(2, "x", 2, 50, None, 0, q, 0)] && n.items[1..] == [];
    assert DeliveredSubtotal(n.items) == 50 * q;
    OpenedTotal(n, 2, 50);
    Money.FloorUnique(Money.SCALE / 2, Money.SCALE, 0);
    Money.FloorUnique(500 * (50 * q), 100, 250 * q);
  }

  // ----- a refund counted twice -----

  /** A payment in full on an order that has seen no money. */
  lemma PayInFull(t: Tables, o: OrderState, total: nat)
    requires Ledger.Inv(t) && t.txns == map[] && t.refunds == map[]
    requires 1 in t.orders && Entity(t.orders[1]) == o && !o.isDeleted && o.status == OrderStatus.Confirmed
    requires 0 < total == Total(o) && o.paid == 0 && o.refunded == 0
    ensures var n := Commit(t, RecordPayment(1, total, 3, 0));
            && Ledger.Inv(n) && n.refunds == map[]
            && 3 in n.txns && n.txns.Keys == {3} && n.txns[3].orderId == 1
            && 1 in n.orders && var b := Entity(n.orders[1]); b == o.(paid := total, paymentStatus := b.paymentStatus)
  {
    Acceptance.PaymentAccepted(t, 1, total, 3, 0);
    Ledger.PaymentShape(t, 1, total, 3, 0);
    Ledger.StepKeeps(t, RecordPayment(1, total, 3, 0));
    Footprints.InvKeys(t);
    Footprints.PaymentWrites(t, 1, total, 3, 0);
  }

  lemma RequestPart(t: Tables, amount: nat)
    requires Ledger.Inv(t) && t.refunds == map[] && 3 in t.txns && t.txns[3].orderId == 1
    requires 1 in t.orders && !t.orders[1].isDeleted && 0 < amount <= t.orders[1].paidCents
    ensures var n := Commit(t, RequestRefund(4, 1, 3, amount));
            && Ledger.Inv(n) && n.orders == t.orders && n.txns == t.txns
            && 4 in n.refunds && n.refunds[4].orderId == 1 && n.refunds[4].status == Requested
            && n.refunds[4].requested == amount
  {
    Acceptance.RequestAccepted(t, 4, 1, 3, amount);
    Ledger.RequestShape(t, 4, 1, 3, amount);
    Ledger.StepKeeps(t, RequestRefund(4, 1, 3, amount));
  }

  lemma ApproveAll(t: Tables, amount: nat, o: OrderState)
    requires Ledger.Inv(t) && 5 !in t.txns && 4 in t.refunds
    requires t.refunds[4].orderId == 1 && t.refunds[4].status == Requested && t.refunds[4].requested == amount
    requires 1 in t.orders && Entity(t.orders[1]) == o && !o.isDeleted && 0 < amount <= o.paid
    ensures var n := Commit(t, ApproveRefund(4, None, 5, 0));
            && 1 in n.orders && var b := Entity(n.orders[1]);
               b == o.(paid := o.paid - amount, refunded := o.refunded + amount, paymentStatus := b.paymentStatus)
  {
    Acceptance.ApprovalAccepted(t, 4, None, 5, 0);
    Ledger.ApproveShape(t, 4, None, 5, 0);
    assert Ledger.RowInv(1, t.orders[1]);
    RefundChanges(o, amount, 0);
    SaveThenLoad(WithRefund(o, amount, 0).value);
  }

  /** An order is paid in full, and a part is asked back and granted. */
  function Refunding(total: nat, amount: nat): seq<Command> {
    [RecordPayment(1, total, 3, 0), RequestRefund(4, 1, 3, amount), ApproveRefund(4, None, 5, 0)]
  }

  function Settled(t: Tables, total: nat, amount: nat): Tables {
    Commit(Commit(Commit(t, RecordPayment(1, total, 3, 0)), RequestRefund(4, 1, 3, amount)), ApproveRefund(4, None, 5, 0))
  }

  lemma SettledOrder(t: Tables, o: OrderState, total: nat, amount: nat)
    requires Ledger.Inv(t) && t.txns == map[] && t.refunds == map[]
    requires 1 in t.orders && Entity(t.orders[1]) == o && !o.isDeleted && o.status == OrderStatus.Confirmed
    requires 0 < total == Total(o) && o.paid == 0 && o.refunded == 0 && 0 < amount <= total
    ensures 1 in Settled(t, total, amount).orders
    ensures var b := Entity(Settled(t, total, amount).orders[1]);
            b == o.(paid := total - amount, refunded := amount, paymentStatus := b.paymentStatus)
  {
    PayInFull(t, o, total);
    var t1 := Commit(t, RecordPayment(1, total, 3, 0));
    RequestPart(t1, amount);
    ApproveAll(Commit(t1, RequestRefund(4, 1, 3, amount)), amount, Entity(t1.orders[1]));
  }

  lemma RunSettled(t: Tables, total: nat, amount: nat)
    ensures Run(t, Refunding(total, amount)) == Settled(t, total, amount)
  {
    var pay, request, approve := RecordPayment(1, total, 3, 0), RequestRefund(4, 1, 3, amount), ApproveRefund(4, None, 5, 0);
    assert [pay, request, approve] == [pay] + ([request] + ([approve] + []));
    RunOn(t, pay, [request] + ([approve] + []));
    RunOn(Commit(t, pay), request, [approve] + []);
    RunOn(Commit(Commit(t, pay), request), approve, []);
  }

  /** The balance of order 1 says twice what is owed on it. */
  predicate CountedTwice(t: Tables, amount: nat) {
    && 1 in t.orders
    && AtLeastZero(Total(Entity(t.orders[1])) - Entity(t.orders[1]).paid) == amount
    && BalanceDue(Entity(t.orders[1])) == 2 * amount
  }

  /** An order of any price is paid and any part of it refunded: that part is owed, and the balance
      says twice as much. */
  lemma BalanceDueOffAfterRefund(price: nat, amount: nat)
    requires 0 < amount <= price
    ensures CountedTwice(Run(EMPTY, Opening(1, price, 0, 0) + Refunding(price, amount)), amount)
  {
    var o := Opened(OrderStatus.Confirmed, 1, price, 0, 0);
    RunThen(EMPTY, Opening(1, price, 0, 0), Refunding(price, amount));
    AfterOpening(1, price, 0, 0);
    RunSettled(Only(o), price, amount);
    OpeningForRefund(Only(o), o, price);
    OffAfterRefund(Only(o), o, price, amount);
  }

  lemma OffAfterRefund(t: Tables, o: OrderState, total: nat, amount: nat)
    requires Ledger.Inv(t) && t.txns == map[] && t.refunds == map[]
    requires 1 in t.orders && Entity(t.orders[1]) == o && !o.isDeleted && o.status == OrderStatus.Confirmed
    requires total == Total(o) && o.paid == 0 && o.refunded == 0 && 0 < amount <= total
    ensures CountedTwice(Settled(t, total, amount), amount)
  {
    SettledOrder(t, o, total, amount);
    var b := Entity(Settled(t, total, amount).orders[1]);
    assert Total(b) == total;
  }

  lemma OpeningForRefund(t: Tables, o: OrderState, price: nat)
    requires price > 0 && o == Opened(OrderStatus.Confirmed, 1, price, 0, 0) && t == Only(o)
    ensures Ledger.Inv(t) && t.txns == map[] && t.refunds == map[]
    ensures 1 in t.orders && Entity(t.orders[1]) == o && Total(o) == price
  {
    AfterOpening(1, price, 0, 0);
    Ledger.EmptyInv();
    Ledger.RunKeeps(EMPTY, Opening(1, price, 0, 0));
    SaveThenLoad(o);
    OpenedTotal(o, 1, price);
  }
}
