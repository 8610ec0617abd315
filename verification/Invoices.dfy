/** What the partial invoices of an order add up to. */
module Invoices {
  import opened Money
  import opened Options
  import opened Orders
  import opened Repository
  import opened UseCases
  import opened OrderInvariant
  import opened Ledger
  import opened Footprints
  import opened Runs
  import OrderRequests

  /** The amounts of one invoice; the total is the one spelled out on it. */
  datatype Invoice = Invoice(subtotal: nat, tax: nat, discount: nat, total: int)

  /** The quantity of a line that goes on an invoice: what was delivered and not yet
      invoiced, or all of it while nothing was delivered. */
  function BilledQuantity(i: Item, deliveredOnly: bool): int {
    if deliveredOnly then i.delivered - i.invoiced else i.quantity
  }

  function BilledSubtotal(items: seq<Item>, deliveredOnly: bool): nat {
    if items == [] then 0
    else
      var q := BilledQuantity(items[0], deliveredOnly);
      (if q <= 0 then 0 else items[0].unitPrice * q) + BilledSubtotal(items[1..], deliveredOnly)
  }

  /** The share of the discount, by the stored subtotal. The program divides in floating point here,
      which can be a cent off; this is the exact quotient. */
  function DiscountFor(row: OrderRow, subtotal: nat): nat {
    if row.subtotalCents <= 0 || row.discountCents <= 0 then 0
    else Floor(row.discountCents * subtotal, row.subtotalCents)
  }

  function InvoiceOf(row: OrderRow): Invoice {
    var items := ToItems(row.items);
    var subtotal := BilledSubtotal(items, HasDelivery(items));
    var tax := Truncated(subtotal, row.taxRate);
    var discount := DiscountFor(row, subtotal);
    Invoice(subtotal, tax, discount, subtotal + tax - discount)
  }

  /** The request issues an invoice for the order. */
  predicate Issues(t: Tables, c: Command, id: Id) {
    c == GenerateInvoice(id) && Step(t, c).Ok?
  }

  /** The invoice a request issues for one order, if any. */
  function IssuedBy(t: Tables, c: Command, id: Id): (vs: seq<Invoice>)
    ensures |vs| <= 1
  {
    if Issues(t, c, id) then [InvoiceOf(t.orders[id])] else []
  }

  /** The invoices a run issues for one order. */
  function InvoicesOf(t: Tables, cs: seq<Command>, id: Id): seq<Invoice>
    decreases |cs|
  {
    if cs == [] then [] else IssuedBy(t, cs[0], id) + InvoicesOf(Commit(t, cs[0]), cs[1..], id)
  }

  function Subtotals(vs: seq<Invoice>): (r: seq<nat>)
    ensures |r| == |vs|
  {
    if vs == [] then [] else [vs[0].subtotal] + Subtotals(vs[1..])
  }

  function Taxes(vs: seq<Invoice>): seq<nat> {
    if vs == [] then [] else [vs[0].tax] + Taxes(vs[1..])
  }

  function Discounts(vs: seq<Invoice>): seq<nat> {
    if vs == [] then [] else [vs[0].discount] + Discounts(vs[1..])
  }

  function TotalBilled(vs: seq<Invoice>): int {
    if vs == [] then 0 else vs[0].total + TotalBilled(vs[1..])
  }

  /** A delivered-only invoice bills exactly what was delivered and not invoiced. */
  lemma {:induction false} BilledDelivered(items: seq<Item>)
    requires QuantitiesOk(items)
    ensures BilledSubtotal(items, true) == DeliveredSubtotal(items) - InvoicedSubtotal(items)
  {
    if items != [] {
      var i := items[0];
      BilledDelivered(items[1..]);
      assert i.unitPrice * (i.delivered - i.invoiced) == i.unitPrice * i.delivered - i.unitPrice * i.invoiced;
    }
  }

  /** The amounts of an invoice on an order with deliveries, in terms of its frozen terms. */
  predicate BilledBy(v: Invoice, rate: nat, discount: nat, whole: nat) {
    && v.tax == Floor(rate * v.subtotal, 10_000)
    && v.discount == (if whole > 0 then Floor(discount * v.subtotal, whole) else 0)
    && v.total == v.subtotal + v.tax - v.discount
  }

  predicate AllBilledBy(vs: seq<Invoice>, rate: nat, discount: nat, whole: nat) {
    forall k :: 0 <= k < |vs| ==> BilledBy(vs[k], rate, discount, whole)
  }

  lemma InvoiceAmounts(row: OrderRow)
    requires QuantitiesOk(Entity(row).items) && HasDelivery(Entity(row).items)
    requires row.subtotalCents == Subtotal(Entity(row).items)
    ensures var o := Entity(row);
            && BilledBy(InvoiceOf(row), o.taxRate, o.discount, Subtotal(o.items))
            && InvoiceOf(row).subtotal == DeliveredSubtotal(o.items) - InvoicedSubtotal(o.items)
  {
    var o := Entity(row);
    var v := InvoiceOf(row);
    BilledDelivered(o.items);
    assert v.subtotal * o.taxRate == o.taxRate * v.subtotal;
    if row.subtotalCents > 0 && row.discountCents == 0 {
      FloorUnique(0, row.subtotalCents, 0);
    }
  }

  /** Over any run of an order with deliveries, the invoice subtotals add up to the growth of
      the invoiced value, and every invoice is computed from the same rate, discount and
      subtotal. */
  lemma {:induction false} InvoicesTelescope(t: Tables, cs: seq<Command>, id: Id)
    requires Inv(t) && id in t.orders && HasDelivery(Entity(t.orders[id]).items)
    ensures id in Run(t, cs).orders
    ensures var a := Entity(t.orders[id]);
            var vs := InvoicesOf(t, cs, id);
            && Sum(Subtotals(vs)) == InvoicedSubtotal(Entity(Run(t, cs).orders[id]).items) - InvoicedSubtotal(a.items)
            && AllBilledBy(vs, a.taxRate, a.discount, Subtotal(a.items))
    decreases |cs|
  {
    if cs != [] {
      var n := Commit(t, cs[0]);
      InvoiceStep(t, cs[0], id);
      InvoicesTelescope(n, cs[1..], id);
      var a := Entity(t.orders[id]);
      OneMore(IssuedBy(t, cs[0], id), InvoicesOf(n, cs[1..], id), a.taxRate, a.discount, Subtotal(a.items));
    }
  }

  /** One invoice, or none, and then the others. */
  lemma OneMore(first: seq<Invoice>, rest: seq<Invoice>, rate: nat, discount: nat, whole: nat)
    requires |first| <= 1 && AllBilledBy(first, rate, discount, whole) && AllBilledBy(rest, rate, discount, whole)
    ensures AllBilledBy(first + rest, rate, discount, whole)
    ensures Sum(Subtotals(first + rest)) == Sum(Subtotals(first)) + Sum(Subtotals(rest))
  {
    if first == [] {
      assert first + rest == rest;
    } else {
      assert (first + rest)[1..] == rest && first[1..] == [];
      assert Subtotals(first + rest)[1..] == Subtotals(rest) && Subtotals(first)[1..] == Subtotals([]);
    }
  }

  /** What one request does to an order with deliveries, as far as invoices see it. */
  predicate InvoiceEffect(a: OrderState, b: OrderState, vs: seq<Invoice>) {
    && SameFrozen(a, b)
    && InvoicedSubtotal(b.items) == InvoicedSubtotal(a.items) + Sum(Subtotals(vs))
    && AllBilledBy(vs, a.taxRate, a.discount, Subtotal(a.items))
  }

  lemma InvoiceStep(t: Tables, c: Command, id: Id)
    requires Inv(t) && id in t.orders && HasDelivery(Entity(t.orders[id]).items)
    ensures id in Commit(t, c).orders && Inv(Commit(t, c))
    ensures InvoiceEffect(Entity(t.orders[id]), Entity(Commit(t, c).orders[id]), IssuedBy(t, c, id))
  {
    assert KeysOk(t) by {
      InvKeys(t);
    }
    assert RowInv(id, t.orders[id]);
    StepKeeps(t, c);
    if Issues(t, c, id) {
      IssuingStep(t, id);
    } else {
      OtherStep(t, c, id);
    }
  }

  lemma IssuingStep(t: Tables, id: Id)
    requires id in t.orders && RowInv(id, t.orders[id]) && HasDelivery(Entity(t.orders[id]).items)
    requires DoInvoice(t, id).Ok?
    ensures var n := Commit(t, GenerateInvoice(id));
            id in n.orders && InvoiceEffect(Entity(t.orders[id]), Entity(n.orders[id]), [InvoiceOf(t.orders[id])])
  {
    InvoicedRow(t, id);
    InvoiceIssued(t.orders[id]);
  }

  lemma InvoicedRow(t: Tables, id: Id)
    requires DoInvoice(t, id).Ok? && HasDelivery(Entity(t.orders[id]).items)
    ensures var n := Commit(t, GenerateInvoice(id));
            && id in n.orders
            && Entity(n.orders[id])
               == Entity(t.orders[id]).(items := AllInvoiced(Entity(t.orders[id]).items))
  {
    InvoiceWrites(t, id);
  }

  /** An invoice issued once something was delivered bills what it marks as invoiced. */
  lemma InvoiceIssued(row: OrderRow)
    requires OrderInv(Entity(row)) && row.status != Draft && StoredTotals(row) && HasDelivery(Entity(row).items)
    ensures var a := Entity(row);
            InvoiceEffect(a, a.(items := AllInvoiced(a.items)), [InvoiceOf(row)])
  {
    var a := Entity(row);
    InvoiceAmounts(row);
    AllInvoicedSubtotals(a.items);
    FrozenByInvoice(a);
    OneInvoice(InvoiceOf(row));
  }

  lemma FrozenByInvoice(o: OrderState)
    requires QuantitiesOk(o.items) && HasDelivery(o.items)
    ensures SameFrozen(o, o.(items := AllInvoiced(o.items)))
  {
    InvoiceProgress(o);
    ProgressFrozen(o, o.(items := AllInvoiced(o.items)));
  }

  lemma OneInvoice(v: Invoice)
    ensures Sum(Subtotals([v])) == v.subtotal
  {
    assert Subtotals([v])[1..] == [];
  }

  lemma OtherStep(t: Tables, c: Command, id: Id)
    requires KeysOk(t) && id in t.orders && OrderInv(Entity(t.orders[id])) && HasDelivery(Entity(t.orders[id]).items)
    requires !Issues(t, c, id)
    ensures id in Commit(t, c).orders
    ensures InvoiceEffect(Entity(t.orders[id]), Entity(Commit(t, c).orders[id]), [])
  {
    if Step(t, c).Ok? {
      ClosedRowStep(t, c, id);
      ProgressFrozen(Entity(t.orders[id]), Entity(Commit(t, c).orders[id]));
    }
  }

  lemma ProgressFrozen(a: OrderState, b: OrderState)
    requires OnlyProgress(a, b) && HasDelivery(a.items)
    ensures SameFrozen(a, b)
  {
    ProgressKeepsDelivery(a, b);
    TermsFix(a, b);
  }

  /** Everything an invoice is computed from, apart from what is still to invoice. */
  predicate SameFrozen(a: OrderState, b: OrderState) {
    && HasDelivery(b.items) && b.taxRate == a.taxRate && b.discount == a.discount
    && Subtotal(b.items) == Subtotal(a.items)
  }

  lemma {:induction false} BilledSums(vs: seq<Invoice>, rate: nat, discount: nat, whole: nat)
    requires AllBilledBy(vs, rate, discount, whole)
    ensures Taxes(vs) == FloorEach(Subtotals(vs), rate, SCALE)
    ensures whole > 0 ==> Discounts(vs) == FloorEach(Subtotals(vs), discount, whole)
    ensures whole == 0 ==> Sum(Discounts(vs)) == 0
    ensures TotalBilled(vs) == Sum(Subtotals(vs)) + Sum(Taxes(vs)) - Sum(Discounts(vs))
  {
    if vs != [] {
      assert BilledBy(vs[0], rate, discount, whole);
      BilledSums(vs[1..], rate, discount, whole);
      assert Taxes(vs)[1..] == Taxes(vs[1..]) && Discounts(vs)[1..] == Discounts(vs[1..]);
      assert Subtotals(vs)[1..] == Subtotals(vs[1..]);
    }
  }

  predicate NothingInvoiced(items: seq<Item>) {
    forall k :: 0 <= k < |items| ==> items[k].invoiced == 0
  }

  predicate FullyInvoiced(items: seq<Item>) {
    forall k :: 0 <= k < |items| ==> items[k].invoiced == items[k].quantity
  }

  lemma {:induction false} InvoicedExtremes(items: seq<Item>)
    ensures NothingInvoiced(items) ==> InvoicedSubtotal(items) == 0
    ensures FullyInvoiced(items) ==> InvoicedSubtotal(items) == Subtotal(items)
  {
    if items != [] {
      InvoicedExtremes(items[1..]);
      assert NothingInvoiced(items) ==> items[0].invoiced == 0 && NothingInvoiced(items[1..]);
      assert FullyInvoiced(items) ==> items[0].invoiced == items[0].quantity && FullyInvoiced(items[1..]);
    }
  }

  /** From the first delivery, before anything is invoiced, through any run of requests to the
      point where everything is delivered and invoiced, the k invoices of an order add up:
      subtotals to the order's subtotal exactly, truncated taxes to the truncated tax and
      discount shares to the discount, each short by at most k - 1 cents, so that the totals
      are within k - 1 cents of subtotal plus tax less discount. An order whose goods are
      free gets no discount on its invoices at all. */
  lemma PartialInvoicesAddUp(t: Tables, cs: seq<Command>, id: Id)
    requires Inv(t) && id in t.orders && HasDelivery(Entity(t.orders[id]).items)
    requires NothingInvoiced(Entity(t.orders[id]).items)
    requires id in Run(t, cs).orders && FullyInvoiced(Entity(Run(t, cs).orders[id]).items)
    ensures var o := Entity(t.orders[id]);
            var whole := Subtotal(o.items);
            var tax := Truncated(whole, o.taxRate);
            var vs := InvoicesOf(t, cs, id);
            && 1 <= |vs|
            && Sum(Subtotals(vs)) == whole
            && tax - (|vs| - 1) <= Sum(Taxes(vs)) <= tax
            && (if whole > 0 then o.discount - (|vs| - 1) <= Sum(Discounts(vs)) <= o.discount
                else Sum(Discounts(vs)) == 0)
            && (whole > 0 ==>
                  -(|vs| - 1) <= TotalBilled(vs) - (whole + tax - o.discount) <= |vs| - 1)
  {
    var o := Entity(t.orders[id]);
    InvoicesTelescope(t, cs, id);
    SomethingInvoiced(t, cs, id);
    InvoicedExtremes(o.items);
    FrozenOnceDelivered(t, cs, id);
    var last := Entity(Run(t, cs).orders[id]);
    InvoicedExtremes(last.items);
    TermsFix(o, last);
    SeriesBounds(InvoicesOf(t, cs, id), o.taxRate, o.discount, Subtotal(o.items));
  }

  /** A series of invoices whose subtotals add up to the whole. */
  lemma SeriesBounds(vs: seq<Invoice>, rate: nat, discount: nat, whole: nat)
    requires AllBilledBy(vs, rate, discount, whole) && Sum(Subtotals(vs)) == whole && vs != []
    ensures var tax := Truncated(whole, rate);
            && tax - (|vs| - 1) <= Sum(Taxes(vs)) <= tax
            && (if whole > 0 then discount - (|vs| - 1) <= Sum(Discounts(vs)) <= discount
                else Sum(Discounts(vs)) == 0)
            && (whole > 0 ==> -(|vs| - 1) <= TotalBilled(vs) - (whole + tax - discount) <= |vs| - 1)
  {
    BilledSums(vs, rate, discount, whole);
    TaxesShort(Subtotals(vs), rate);
    if whole > 0 {
      SharesShort(Subtotals(vs), discount);
    }
  }

  lemma TaxesShort(xs: seq<nat>, rate: nat)
    requires xs != []
    ensures Truncated(Sum(xs), rate) - (|xs| - 1) <= Sum(FloorEach(xs, rate, SCALE)) <= Truncated(Sum(xs), rate)
  {
    FloorSumBounds(xs, rate, SCALE);
    assert rate * Sum(xs) == Sum(xs) * rate;
  }

  lemma SharesShort(xs: seq<nat>, discount: nat)
    requires xs != [] && Sum(xs) > 0
    ensures discount - (|xs| - 1) <= Sum(FloorEach(xs, discount, Sum(xs))) <= discount
  {
    FloorSumBounds(xs, discount, Sum(xs));
    FloorUnique(discount * Sum(xs), Sum(xs), discount);
  }

  lemma NotYetInvoiced(t: Tables, id: Id)
    requires Inv(t) && id in t.orders && HasDelivery(Entity(t.orders[id]).items)
    requires NothingInvoiced(Entity(t.orders[id]).items)
    ensures !FullyInvoiced(Entity(t.orders[id]).items)
  {
    assert RowInv(id, t.orders[id]);
    var items := Entity(t.orders[id]).items;
    var k :| 0 <= k < |items| && items[k].delivered > 0;
    assert items[k].quantity > 0 && items[k].invoiced == 0;
  }

  /** Without an invoice nothing becomes invoiced, free goods included. */
  lemma {:induction false} SomethingInvoiced(t: Tables, cs: seq<Command>, id: Id)
    requires Inv(t) && id in t.orders && HasDelivery(Entity(t.orders[id]).items)
    requires NothingInvoiced(Entity(t.orders[id]).items)
    requires id in Run(t, cs).orders && FullyInvoiced(Entity(Run(t, cs).orders[id]).items)
    ensures InvoicesOf(t, cs, id) != []
    decreases |cs|
  {
    if cs == [] {
      NotYetInvoiced(t, id);
    } else if !Issues(t, cs[0], id) {
      InvKeys(t);
      assert RowInv(id, t.orders[id]);
      InvoiceStep(t, cs[0], id);
      StillNothing(t, cs[0], id);
      SomethingInvoiced(Commit(t, cs[0]), cs[1..], id);
    }
  }

  lemma StillNothing(t: Tables, c: Command, id: Id)
    requires KeysOk(t) && id in t.orders && OrderInv(Entity(t.orders[id])) && HasDelivery(Entity(t.orders[id]).items)
    requires NothingInvoiced(Entity(t.orders[id]).items) && !Issues(t, c, id)
    ensures id in Commit(t, c).orders && NothingInvoiced(Entity(Commit(t, c).orders[id]).items)
  {
    if Step(t, c).Err? || Target(t, c) != Some(id) {
      OthersUntouched(t, c, id);
    } else if IsEdit(c) {
      EditWrites(t, c);
      ClosedEditNothing(Entity(t.orders[id]), c);
    } else {
      NonEditNothing(t, c, id);
    }
  }

  lemma ClosedEditNothing(o: OrderState, c: Command)
    requires OrderInv(o) && !CanEdit(o) && IsEdit(c) && Changed(o, c).Ok? && NothingInvoiced(o.items)
    ensures NothingInvoiced(Changed(o, c).value.items)
  {
    if c.RecordDelivery? {
      DeliveryChanges(o, c.deliveries);
    }
  }

  lemma NonEditNothing(t: Tables, c: Command, id: Id)
    requires KeysOk(t) && id in t.orders && NothingInvoiced(Entity(t.orders[id]).items)
    requires Step(t, c).Ok? && Target(t, c) == Some(id) && !IsEdit(c) && !c.GenerateInvoice?
    ensures id in Commit(t, c).orders && NothingInvoiced(Entity(Commit(t, c).orders[id]).items)
  {
    match c
    case CreateOrder(_, _, _, _, _, _, _, _) => CreateWrites(t, c);
    case ConvertQuote(_, _, _, _) =>
    case DeleteOrder(_) => DeleteWrites(t, id);
    case RecordPayment(_, amount, txnId, today) => PaymentWrites(t, id, amount, txnId, today);
    case ApproveRefund(r, approved, txnId, today) => ApprovalWrites(t, r, approved, txnId, today);
  }

  // ----- the first and the last invoice -----

  lemma {:induction false} BilledWhole(items: seq<Item>)
    requires QuantitiesOk(items)
    ensures BilledSubtotal(items, false) == Subtotal(items)
  {
    if items != [] {
      BilledWhole(items[1..]);
    }
  }

  /** An invoice before any delivery bills the whole order: every line in full, the tax truncated, and
      the whole discount unless the goods are free. */
  lemma WholeOrderBilled(t: Tables, id: Id)
    requires Inv(t) && id in t.orders && Step(t, GenerateInvoice(id)).Ok?
    requires !HasDelivery(Entity(t.orders[id]).items)
    ensures var o := Entity(t.orders[id]);
            && InvoiceOf(t.orders[id]).subtotal == Subtotal(o.items)
            && InvoiceOf(t.orders[id]).tax == Truncated(Subtotal(o.items), o.taxRate)
            && InvoiceOf(t.orders[id]).discount == (if Subtotal(o.items) > 0 then o.discount else 0)
  {
    OrderRequests.InvoiceCommitted(t, id);
    assert RowInv(id, t.orders[id]);
    WholeBill(t.orders[id]);
  }

  lemma WholeBill(row: OrderRow)
    requires QuantitiesOk(ToItems(row.items)) && !HasDelivery(ToItems(row.items))
    requires row.subtotalCents == Subtotal(ToItems(row.items))
    ensures var s := Subtotal(ToItems(row.items));
            && InvoiceOf(row).subtotal == s && InvoiceOf(row).tax == Truncated(s, row.taxRate)
            && InvoiceOf(row).discount == (if s > 0 then row.discountCents else 0)
  {
    BilledWhole(ToItems(row.items));
    if row.subtotalCents > 0 {
      FloorUnique(row.discountCents * row.subtotalCents, row.subtotalCents, row.discountCents);
    }
  }

  /** Once everything is delivered, an invoice is issued on request, and nothing is left to invoice. */
  lemma LastInvoice(t: Tables, id: Id)
    requires Inv(t) && id in t.orders && FullyDelivered(Entity(t.orders[id]).items)
    ensures Step(t, GenerateInvoice(id)).Ok?
    ensures var n := Commit(t, GenerateInvoice(id));
            id in n.orders && FullyInvoiced(Entity(n.orders[id]).items)
  {
    assert RowInv(id, t.orders[id]);
    OrderRequests.InvoiceCommitted(t, id);
  }

  /** So every series of invoices can be ended: after any run that delivers everything, one more
      request leaves the order fully invoiced. */
  lemma SeriesEnds(t: Tables, cs: seq<Command>, id: Id)
    requires Inv(t) && id in Run(t, cs).orders && FullyDelivered(Entity(Run(t, cs).orders[id]).items)
    ensures var n := Run(t, cs + [GenerateInvoice(id)]);
            id in n.orders && FullyInvoiced(Entity(n.orders[id]).items)
  {
    RunKeeps(t, cs);
    LastInvoice(Run(t, cs), id);
    RunThen(t, cs, [GenerateInvoice(id)]);
    RunOn(Run(t, cs), GenerateInvoice(id), []);
    assert [GenerateInvoice(id)] + [] == [GenerateInvoice(id)];
  }
}
