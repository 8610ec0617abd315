/** Bounds on the delivered total, and what the balance says. */
module Totals {
  import opened Money
  import opened Options
  import opened Orders

  /** The same lines with other delivered and invoiced quantities. */
  predicate SameLines(a: seq<Item>, b: seq<Item>) {
    && |a| == |b|
    && forall k :: 0 <= k < |a| ==> a[k].unitPrice == b[k].unitPrice && a[k].quantity == b[k].quantity
  }

  lemma {:induction false} SameLinesSubtotal(a: seq<Item>, b: seq<Item>)
    requires SameLines(a, b)
    ensures Subtotal(a) == Subtotal(b)
  {
    if a != [] {
      assert a[0].unitPrice == b[0].unitPrice;
      SameLinesSubtotal(a[1..], b[1..]);
    }
  }

  /** The discount share of a delivery fits the delivered part as soon as the whole
      discount fits the goods: rounding never gets in the way. */
  lemma ShareFits(s: nat, d: nat, discount: nat, rate: nat)
    requires 0 < s && d <= s && discount <= s + HalfUp(s, rate)
    ensures Floor(discount * d, s) <= d + HalfUp(d, rate)
  {
    TaxShare(s, d, rate);
    ShareBelow(s, d, discount, HalfUp(d, rate), HalfUp(s, rate));
  }

  lemma ShareBelow(s: nat, d: nat, discount: nat, h: nat, H: nat)
    requires 0 < s && d <= s && discount <= s + H && H * d < (h + 1) * s
    ensures Floor(discount * d, s) <= d + h
  {
    ShareAlgebra(s, d, discount, h, H);
    AtMostFloor(d + (h + 1), discount * d, s);
  }

  lemma ShareAlgebra(s: nat, d: nat, discount: nat, h: nat, H: nat)
    requires discount <= s + H && H * d < (h + 1) * s
    ensures discount * d < (d + (h + 1)) * s
  {
    MulMonotone(discount, s + H, d);
    Distribute(s, H, d);
    Distribute(d, h + 1, s);
    assert s * d == d * s;
  }

  /** The tax of a part, rounded half up, is more than its share of the whole tax less one cent. */
  lemma TaxShare(s: nat, d: nat, rate: nat)
    requires 0 < s && d <= s
    ensures HalfUp(s, rate) * d < (HalfUp(d, rate) + 1) * s
  {
    var h, H := HalfUp(d, rate), HalfUp(s, rate);
    assert H * d * SCALE <= s * rate * d + 5000 * d by {
      MulMonotone(H * SCALE, s * rate + 5000, d);
      SwapFactors(H, SCALE, d);
      Distribute(s * rate, 5000, d);
    }
    assert d * rate * s + 5001 * s <= (h + 1) * s * SCALE by {
      MulMonotone(d * rate + 5001, (h + 1) * SCALE, s);
      SwapFactors(h + 1, SCALE, s);
      Distribute(d * rate, 5001, s);
    }
    assert s * rate * d == d * rate * s by {
      SwapFactors(s, rate, d);
      SwapFactors(d, rate, s);
    }
  }

  /** Multiplying out by s: an excess of two cents would leave h * s - H * d above s. */
  lemma ClearQuotient(s: nat, d: nat, discount: nat, h: nat, H: nat, f: nat)
    requires d <= s && discount <= s + H
    requires discount * d < f * s + s
    requires d + h - f >= s + H - discount + 2
    ensures h * s - H * d > s
  {
    assert s * s + H * s - discount * s + 2 * s <= d * s + h * s - f * s by {
      MulMonotone(s + H - discount + 2, d + h - f, s);
      assert (s + H - discount + 2) * s == s * s + H * s - discount * s + 2 * s;
      assert (d + h - f) * s == d * s + h * s - f * s;
    }
    assert discount * s - discount * d - s * s + s * d <= H * s - H * d by {
      MulMonotone(discount - s, H, s - d);
      assert (discount - s) * (s - d) == discount * s - discount * d - s * s + s * d;
      assert H * (s - d) == H * s - H * d;
    }
    assert d * s == s * d;
  }

  lemma Rounding(s: nat, d: nat, rate: nat)
    requires d <= s
    ensures HalfUp(d, rate) * s - HalfUp(s, rate) * d <= s
  {
    var h, H := HalfUp(d, rate), HalfUp(s, rate);
    assert h * s * SCALE <= d * rate * s + 5000 * s by {
      MulMonotone(h * SCALE, d * rate + 5000, s);
      SwapFactors(h, SCALE, s);
      Distribute(d * rate, 5000, s);
    }
    assert s * rate * d - 4999 * d <= H * d * SCALE by {
      MulMonotone(s * rate - 4999, H * SCALE, d);
      SwapFactors(H, SCALE, d);
      Distribute(s * rate, -4999, d);
    }
    assert s * rate * d == d * rate * s;
  }

  /** A partial delivery is worth at most one cent more than all the goods. */
  lemma PartialAtMostGoods(s: nat, d: nat, discount: nat, rate: nat)
    requires 0 < s && d <= s && discount <= s + HalfUp(s, rate)
    ensures d + HalfUp(d, rate) - Floor(discount * d, s) <= s + HalfUp(s, rate) - discount + 1
  {
    Rounding(s, d, rate);
    ExcessBounded(s, d, discount, HalfUp(d, rate), HalfUp(s, rate), Floor(discount * d, s));
  }

  lemma ExcessBounded(s: nat, d: nat, discount: nat, h: nat, H: nat, f: nat)
    requires d <= s && discount <= s + H
    requires discount * d < f * s + s
    requires h * s - H * d <= s
    ensures d + h - f <= s + H - discount + 1
  {
    if d + h - f >= s + H - discount + 2 {
      ClearQuotient(s, d, discount, h, H, f);
    }
  }

  /** In every delivery state of an order whose discount fits its goods, the delivered total
      is a proper amount; fully delivered it is the total; partly delivered it is at most
      one cent above the goods total. */
  lemma DeliveredTotalBounds(o: OrderState)
    requires CurrencyOk(o.currency) && QuantitiesOk(o.items)
    requires o.discount <= Subtotal(o.items) + HalfUp(Subtotal(o.items), o.taxRate)
    ensures DeliveredTotalOf(o) == Ok(DeliveredTotal(o)) && 0 <= DeliveredTotal(o)
    ensures FullyDelivered(o.items) ==> DeliveredTotal(o) == Total(o)
    ensures !FullyDelivered(o.items) ==> DeliveredTotal(o) <= Total(o) - o.shipping + 1
  {
    SubtotalsOrdered(o.items);
    var s, d := Subtotal(o.items), DeliveredSubtotal(o.items);
    if s > 0 {
      ShareFits(s, d, o.discount, o.taxRate);
      PartialAtMostGoods(s, d, o.discount, o.taxRate);
    }
    if FullyDelivered(o.items) {
      FullSubtotal(o.items);
      if s > 0 {
        FloorUnique(o.discount * s, s, o.discount);
      }
    }
  }

  lemma {:induction false} FullSubtotal(items: seq<Item>)
    requires forall k :: 0 <= k < |items| ==> items[k].quantity == items[k].delivered
    ensures DeliveredSubtotal(items) == Subtotal(items)
  {
    if items != [] {
      FullSubtotal(items[1..]);
    }
  }

  /** The lines once everything is delivered. */
  function Completed(items: seq<Item>): (r: seq<Item>)
    ensures |r| == |items|
    ensures forall k :: 0 <= k < |items| ==> r[k] == items[k].(delivered := items[k].quantity)
  {
    if items == [] then [] else [items[0].(delivered := items[0].quantity)] + Completed(items[1..])
  }

  /** Once everything is delivered, the delivered total exists exactly when the discount fits the
      goods and their tax, or the goods are free; shipping does not help. */
  lemma FullyDeliveredTotal(o: OrderState)
    requires CurrencyOk(o.currency) && FullyDelivered(o.items)
    ensures DeliveredTotalOf(o).Ok?
       <==> Subtotal(o.items) == 0 || o.discount <= Subtotal(o.items) + HalfUp(Subtotal(o.items), o.taxRate)
  {
    FullSubtotal(o.items);
    var s := Subtotal(o.items);
    if s > 0 {
      FloorUnique(o.discount * s, s, o.discount);
    }
  }

  /** Exactly which discounts leave every delivery state of an order with a delivered total:
      those that fit the goods and their tax, or any at all when the goods are free. */
  lemma DeliverableDiscounts(o: OrderState)
    requires CurrencyOk(o.currency) && QuantitiesOk(o.items)
    ensures (forall items :: SameLines(items, o.items) && QuantitiesOk(items) ==> DeliveredTotalOf(o.(items := items)).Ok?)
       <==> Subtotal(o.items) == 0 || o.discount <= Subtotal(o.items) + HalfUp(Subtotal(o.items), o.taxRate)
  {
    var s := Subtotal(o.items);
    if s == 0 || o.discount <= s + HalfUp(s, o.taxRate) {
      forall items | SameLines(items, o.items) && QuantitiesOk(items)
        ensures DeliveredTotalOf(o.(items := items)).Ok?
      {
        SameLinesSubtotal(items, o.items);
        if s > 0 {
          DeliveredTotalBounds(o.(items := items));
        }
      }
    } else {
      var items := Completed(o.items);
      SameLinesSubtotal(items, o.items);
      assert items != [] && FullyDelivered(items);
      FullyDeliveredTotal(o.(items := items));
      assert SameLines(items, o.items) && QuantitiesOk(items) && DeliveredTotalOf(o.(items := items)).Err?;
    }
  }

  /** The balance adds refunds back although they already left the paid amount. It is
      what is really owed exactly when nothing was refunded or nothing would be owed
      even then. */
  lemma BalanceDueExact(o: OrderState)
    ensures BalanceDue(o) == AtLeastZero(Total(o) - o.paid)
       <==> o.refunded == 0 || Total(o) + o.refunded <= o.paid
  {
  }

  /** The three sums of an order are pinned by what one line adds and by adding up. */
  lemma {:induction false} SumsTogether(a: seq<Item>, i: Item, b: seq<Item>)
    ensures Subtotal([i]) == i.quantity * i.unitPrice && Subtotal(a + b) == Subtotal(a) + Subtotal(b)
    ensures DeliveredSubtotal([i]) == i.delivered * i.unitPrice
    ensures DeliveredSubtotal(a + b) == DeliveredSubtotal(a) + DeliveredSubtotal(b)
    ensures InvoicedSubtotal([i]) == i.invoiced * i.unitPrice
    ensures InvoicedSubtotal(a + b) == InvoicedSubtotal(a) + InvoicedSubtotal(b)
  {
    assert [i][1..] == [];
    if a == [] {
      assert a + b == b;
    } else {
      assert (a + b)[1..] == a[1..] + b;
      SumsTogether(a[1..], i, b);
    }
  }
}
