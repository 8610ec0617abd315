/** The order entity, updated in place. Each method is proved against the function of
    the same operation in Orders. A method that refuses says so with an error; the
    entity is then thrown away, so only the delivery loop, which stops half way,
    says what it left behind. */
module OrderEntity {
  import opened Money
  import opened Options
  import opened Orders
  import Text

  class Order {
    const id: Id
    const currency: string
    var taxRate: nat
    var discountCents: nat
    var shippingCents: nat
    var dueDate: Option<int>
    var status: OrderStatus
    var paymentStatus: PaymentStatus
    var items: seq<Item>
    var paidCents: nat
    var refundedCents: nat
    var isDeleted: bool

    function State(): OrderState
      reads this
    {
      OrderState(id, currency, taxRate, discountCents, shippingCents, dueDate, status, paymentStatus,
                 items, paidCents, refundedCents, isDeleted)
    }

    constructor (s: OrderState)
      ensures State() == s
    {
      id, currency := s.id, s.currency;
      taxRate, discountCents, shippingCents, dueDate := s.taxRate, s.discount, s.shipping, s.dueDate;
      status, paymentStatus, items := s.status, s.paymentStatus, s.items;
      paidCents, refundedCents, isDeleted := s.paid, s.refunded, s.isDeleted;
    }

    method AddItem(item: Item) returns (e: Option<Error>)
      modifies this`items
      ensures match WithItem(old(State()), item)
              case Ok(s) => e.None? && State() == s
              case Err(x) => e == Some(x) && State() == old(State())
    {
      if !CanEdit(State()) {
        return Some(InvalidState);
      }
      var k := IndexOf(items, item.id);
      if k < |items| {
        return Some(DuplicateKey);
      }
      items := items + [item];
      e := None;
    }

    method RemoveItem(itemId: Id) returns (e: Option<Error>)
      modifies this`items
      ensures match WithoutItem(old(State()), itemId)
              case Ok(s) => e.None? && State() == s
              case Err(x) => e == Some(x)
    {
      if !CanEdit(State()) {
        return Some(InvalidState);
      }
      var original := items;
      items := [];
      for n := 0 to |original|
        invariant items + Without(original[n..], itemId) == Without(original, itemId)
      {
        assert original[n..][1..] == original[n + 1..];
        if original[n].id != itemId {
          items := items + [original[n]];
        }
      }
      assert items == Without(original, itemId);
      e := if |items| == |original| then Some(InvalidState) else None;
    }

    method UpdateItem(itemId: Id, edit: ItemEdit) returns (e: Option<Error>)
      modifies this`items
      ensures match WithItemEdit(old(State()), itemId, edit)
              case Ok(s) => e.None? && State() == s
              case Err(x) => e == Some(x)
    {
      if !CanEdit(State()) {
        return Some(InvalidState);
      }
      var k := IndexOf(items, itemId);
      if k == |items| {
        return Some(InvalidState);
      }
      var item := items[k];
      if edit.description.Some? {
        if Text.IsBlank(edit.description.value) {
          return Some(InvalidState);
        }
        item := item.(description := Text.Strip(edit.description.value));
      }
      if edit.quantity.Some? {
        if edit.quantity.value <= 0 {
          return Some(InvalidState);
        }
        item := item.(quantity := edit.quantity.value);
      }
      if edit.unitPrice.Some? {
        item := item.(unitPrice := edit.unitPrice.value);
      }
      if edit.unit.Some? {
        item := item.(unit := if edit.unit.value == "" then None else edit.unit);
      }
      items := items[k := item];
      e := None;
    }

    method TransitionTo(target: OrderStatus, allowed: set<OrderStatus>) returns (e: Option<Error>)
      modifies this`status
      ensures old(status) in allowed ==> e.None? && State() == old(State()).(status := target)
      ensures old(status) !in allowed ==> e == Some(InvalidState) && State() == old(State())
    {
      if status !in allowed {
        return Some(InvalidState);
      }
      status := target;
      e := None;
    }

    method ConfirmOrder() returns (e: Option<Error>)
      modifies this`status
      ensures match Confirm(old(State()))
              case Ok(s) => e.None? && State() == s
              case Err(x) => e == Some(x) && State() == old(State())
    {
      if items == [] {
        return Some(InvalidState);
      }
      e := TransitionTo(OrderStatus.Confirmed, {Draft});
    }

    method CancelOrder() returns (e: Option<Error>)
      modifies this`status
      ensures match Cancel(old(State()))
              case Ok(s) => e.None? && State() == s
              case Err(x) => e == Some(x) && State() == old(State())
    {
      e := TransitionTo(Cancelled, {Draft, OrderStatus.Confirmed, InProduction, Ready, Disputed});
    }

    method RecordDelivery(ds: seq<DeliveryLine>) returns (e: Option<Error>)
      modifies this`items, this`status
      ensures match WithDelivery(old(State()), ds)
              case Ok(s) => e.None? && State() == s
              case Err(x) => e == Some(x) && status == old(status)
      ensures Deliverable(old(status)) && ds != [] ==> items == DeliverLines(old(items), ds).items
    {
      if !Deliverable(status) || ds == [] {
        return Some(InvalidState);
      }
      var deliveredAny := false;
      for n := 0 to |ds|
        invariant DeliverLines(items, ds[n..]) == DeliverLines(old(items), ds)
        invariant status == old(status)
        invariant deliveredAny <==> exists k :: 0 <= k < n && ds[k].quantity > 0
      {
        assert ds[n..][1..] == ds[n + 1..];
        if ds[n].quantity > 0 {
          var k := IndexOf(items, ds[n].itemId);
          if k == |items| || items[k].delivered + ds[n].quantity > items[k].quantity {
            return Some(InvalidState);
          }
          items := items[k := items[k].(delivered := items[k].delivered + ds[n].quantity)];
          deliveredAny := true;
        }
      }
      if !deliveredAny {
        return Some(InvalidState);
      }
      status := if FullyDelivered(items) then Delivered else PartiallyDelivered;
      e := None;
    }

    method UpdatePaymentStatus(today: int) returns (e: Option<Error>)
      modifies this`paymentStatus
      ensures match WithClassification(old(State()), today)
              case Ok(s) => e.None? && State() == s
              case Err(x) => e == Some(x) && State() == old(State())
    {
      var total := TotalOf(State());
      if total.Err? {
        return Some(total.error);
      }
      if refundedCents >= total.value {
        paymentStatus := Refunded;
      } else if paidCents >= total.value {
        paymentStatus := Paid;
      } else if paidCents > 0 && refundedCents > 0 {
        paymentStatus := PartialRefund;
      } else if paidCents > 0 {
        paymentStatus := Partial;
      } else if dueDate.Some? && today > dueDate.value {
        paymentStatus := Overdue;
      } else {
        paymentStatus := Pending;
      }
      e := None;
    }

    method ApplyPayment(amount: nat, amountCurrency: string, today: int) returns (e: Option<Error>)
      modifies this`paidCents, this`paymentStatus
      ensures match WithPayment(old(State()), amount, amountCurrency, today)
              case Ok(s) => e.None? && State() == s
              case Err(x) => e == Some(x)
    {
      if status == Cancelled || amount == 0 || amountCurrency != currency {
        return Some(Unhandled);
      }
      paidCents := paidCents + amount;
      e := UpdatePaymentStatus(today);
    }

    method ApplyRefund(amount: nat, today: int) returns (e: Option<Error>)
      modifies this`paidCents, this`refundedCents, this`paymentStatus
      ensures match WithRefund(old(State()), amount, today)
              case Ok(s) => e.None? && State() == s
              case Err(x) => e == Some(x)
    {
      if amount == 0 || amount > paidCents {
        return Some(Unhandled);
      }
      refundedCents := refundedCents + amount;
      paidCents := paidCents - amount;
      e := UpdatePaymentStatus(today);
    }

    method SoftDelete()
      modifies this`isDeleted
      ensures State() == old(State()).(isDeleted := true)
    {
      isDeleted := true;
    }
  }
}
