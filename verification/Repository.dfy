/** Order rows and the mapping between rows and order states. */
module Repository {
  import opened Money
  import opened Options
  import opened Orders
  import Text

  datatype ItemRow = ItemRow(
    id: Id,
    sortOrder: nat,
    description: string,
    unit: Option<string>,
    quantity: nat,
    deliveredQuantity: nat,
    invoicedQuantity: nat,
    unitPriceCents: nat)

  datatype OrderRow = OrderRow(
    id: Id,
    status: OrderStatus,
    paymentStatus: PaymentStatus,
    currency: string,
    taxRate: nat,
    discountCents: nat,
    shippingCents: nat,
    paidCents: nat,
    refundedCents: nat,
    dueDate: Option<int>,
    isDeleted: bool,
    items: seq<ItemRow>,
    subtotalCents: int,
    taxCents: int,
    totalCents: int)

  function ToItem(r: ItemRow): Item {
    Item(r.id, r.description, r.quantity, r.unitPriceCents, r.unit, r.sortOrder,
         r.deliveredQuantity, r.invoicedQuantity)
  }

  function ToItems(rows: seq<ItemRow>): (r: seq<Item>)
    ensures |r| == |rows|
    ensures forall k :: 0 <= k < |rows| ==> r[k] == ToItem(rows[k])
  {
    if rows == [] then [] else [ToItem(rows[0])] + ToItems(rows[1..])
  }

  function FromItem(i: Item): ItemRow {
    ItemRow(i.id, i.sortOrder, i.description, i.unit, i.quantity, i.delivered, i.invoiced, i.unitPrice)
  }

  function FromItems(items: seq<Item>): (r: seq<ItemRow>)
    ensures |r| == |items|
    ensures forall k :: 0 <= k < |items| ==> r[k] == FromItem(items[k])
  {
    if items == [] then [] else [FromItem(items[0])] + FromItems(items[1..])
  }

  /** The order a row describes. */
  function Entity(row: OrderRow): OrderState {
    OrderState(row.id, row.currency, row.taxRate, row.discountCents, row.shippingCents, row.dueDate,
               row.status, row.paymentStatus, ToItems(row.items), row.paidCents, row.refundedCents,
               row.isDeleted)
  }

  /** Loading a row builds its lines, and building a line checks it. */
  function Load(row: OrderRow): Result<OrderState> {
    var o := Entity(row);
    if ItemsOk(o.items) && (o.items == [] || CurrencyOk(o.currency)) then Ok(o) else Err(Unhandled)
  }

  /** The row an order is saved as, with its stored totals: the tax is truncated here. */
  function ToRow(o: OrderState): OrderRow {
    var subtotal := Subtotal(o.items);
    var tax := Truncated(subtotal, o.taxRate);
    OrderRow(o.id, o.status, o.paymentStatus, o.currency, o.taxRate, o.discount, o.shipping,
             o.paid, o.refunded, o.dueDate, o.isDeleted, FromItems(o.items),
             subtotal, tax, subtotal + tax - o.discount + o.shipping)
  }

  /** Saving and loading gives the same order back, lines and all; it succeeds exactly for
      orders whose lines are proper and whose currency can carry money. */
  lemma SaveThenLoad(o: OrderState)
    ensures Entity(ToRow(o)) == o
    ensures Load(ToRow(o)) == if ItemsOk(o.items) && (o.items == [] || CurrencyOk(o.currency))
                              then Ok(o) else Err(Unhandled)
  {
    assert ToItems(FromItems(o.items)) == o.items;
  }

  predicate StoredTotals(row: OrderRow) {
    && row.subtotalCents == Subtotal(Entity(row).items)
    && 0 <= Total(Entity(row)) - row.totalCents <= 1
  }

  /** The stored amounts of a saved order: the sum of its lines, the tax on it truncated to cents, and
      what they come to with the discount and the shipping. */
  lemma SavedAmounts(o: OrderState)
    ensures var row := ToRow(o);
            && row.subtotalCents == Subtotal(o.items)
            && row.taxCents * 10_000 <= Subtotal(o.items) * o.taxRate < (row.taxCents + 1) * 10_000
            && row.totalCents == row.subtotalCents + row.taxCents + o.shipping - o.discount
  {
    TruncatedBelow(Subtotal(o.items), o.taxRate, ToRow(o).taxCents);
  }

  /** The stored total trails the exact one by at most the cent the two tax roundings differ. */
  lemma SavedTotals(o: OrderState)
    ensures StoredTotals(ToRow(o))
  {
    SaveThenLoad(o);
    HalfUpAboveTruncated(Subtotal(o.items), o.taxRate);
  }

  /** Invoicing sets the invoiced column of a row to the delivered one. */
  function InvoicedRows(rows: seq<ItemRow>): (r: seq<ItemRow>)
    ensures |r| == |rows|
    ensures forall k :: 0 <= k < |rows| ==>
              r[k] == if rows[k].deliveredQuantity > rows[k].invoicedQuantity
                      then rows[k].(invoicedQuantity := rows[k].deliveredQuantity) else rows[k]
  {
    if rows == [] then []
    else
      [if rows[0].deliveredQuantity > rows[0].invoicedQuantity
       then rows[0].(invoicedQuantity := rows[0].deliveredQuantity) else rows[0]]
      + InvoicedRows(rows[1..])
  }

  lemma InvoicedRowsEntity(rows: seq<ItemRow>)
    ensures ToItems(InvoicedRows(rows)) == AllInvoiced(ToItems(rows))
  {
  }
}
