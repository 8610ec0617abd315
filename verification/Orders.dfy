/** The order aggregate: lines, computed amounts, payment classification and the
    operations that change an order.

    Every operation appears twice: as a function on order states, about which the
    properties are proved, and as a method of the class Order, which updates the
    fields in place and is proved to do what the function says. */
module Orders {
  import opened Money
  import opened Options
  import Text

  type Id = nat

  datatype Error =
    | NotFound           // no such row, or soft-deleted
    | InvalidState       // the order's state refuses the operation
    | BusinessRule       // a business rule is broken
    | RefundExceedsPaid  // more asked back than was paid
    | DuplicateKey       // a row id is already taken
    | BadRequest         // the request body is refused
    | Unhandled          // an exception no use case catches

  datatype Result<+T> = Ok(value: T) | Err(error: Error) {
    predicate IsFailure() { Err? }
    function PropagateFailure<U>(): Result<U>
      requires Err?
    {
      Err(error)
    }
    function Extract(): T
      requires Ok?
    {
      value
    }
  }

  datatype OrderStatus =
    | Draft | Confirmed | InProduction | Ready | PartiallyDelivered
    | Delivered | Disputed | Cancelled | Archived

  datatype PaymentStatus = Pending | Partial | Paid | Overdue | Refunded | PartialRefund

  /** One order line. */
  datatype Item = Item(
    id: Id,
    description: string,
    quantity: nat,
    unitPrice: nat,
    unit: Option<string>,
    sortOrder: nat,
    delivered: nat,
    invoiced: nat)

  /** What the line constructor insists on. */
  predicate ItemOk(i: Item) {
    0 < i.quantity && !Text.IsBlank(i.description) && i.invoiced <= i.delivered <= i.quantity
  }

  predicate ItemsOk(items: seq<Item>) {
    forall k :: 0 <= k < |items| ==> ItemOk(items[k])
  }

  /** The quantities of a line, whatever its description. */
  predicate QuantitiesOk(items: seq<Item>) {
    forall k :: 0 <= k < |items| ==> 0 < items[k].quantity && items[k].invoiced <= items[k].delivered <= items[k].quantity
  }

  predicate DistinctIds(items: seq<Item>) {
    forall j, k :: 0 <= j < k < |items| ==> items[j].id != items[k].id
  }

  /** The state of an order. */
  datatype OrderState = OrderState(
    id: Id,
    currency: string,
    taxRate: nat,
    discount: nat,
    shipping: nat,
    dueDate: Option<int>,
    status: OrderStatus,
    paymentStatus: PaymentStatus,
    items: seq<Item>,
    paid: nat,
    refunded: nat,
    isDeleted: bool)

  // ----- computed amounts -----

  function Subtotal(items: seq<Item>): nat {
    if items == [] then 0 else items[0].unitPrice * items[0].quantity + Subtotal(items[1..])
  }

  function DeliveredSubtotal(items: seq<Item>): nat {
    if items == [] then 0 else items[0].unitPrice * items[0].delivered + DeliveredSubtotal(items[1..])
  }

  function InvoicedSubtotal(items: seq<Item>): nat {
    if items == [] then 0 else items[0].unitPrice * items[0].invoiced + InvoicedSubtotal(items[1..])
  }

  lemma {:induction false} SubtotalsOrdered(items: seq<Item>)
    requires QuantitiesOk(items)
    ensures 0 <= InvoicedSubtotal(items) <= DeliveredSubtotal(items) <= Subtotal(items)
  {
    if items != [] {
      var i := items[0];
      MulMonotone(i.invoiced, i.delivered, i.unitPrice);
      MulMonotone(i.delivered, i.quantity, i.unitPrice);
      SubtotalsOrdered(items[1..]);
    }
  }

  function AtLeastZero(x: int): nat {
    if x < 0 then 0 else x
  }

  /** Subtotal, tax and shipping less the discount; negative when the discount is too big. */
  function Total(o: OrderState): int {
    Subtotal(o.items) + HalfUp(Subtotal(o.items), o.taxRate) + o.shipping - o.discount
  }

  predicate FullyDelivered(items: seq<Item>) {
    items != [] && forall k :: 0 <= k < |items| ==> items[k].quantity - items[k].delivered == 0
  }

  predicate HasDelivery(items: seq<Item>) {
    exists k :: 0 <= k < |items| && items[k].delivered > 0
  }

  /** The part of the discount that falls on what was delivered. The program divides in floating
      point here, which can be a cent off; this is the exact quotient. */
  function DiscountShare(o: OrderState): nat {
    if Subtotal(o.items) > 0 then Floor(o.discount * DeliveredSubtotal(o.items), Subtotal(o.items)) else 0
  }

  /** What the delivered part is worth; negative when the discount share is too big. */
  function DeliveredTotal(o: OrderState): int {
    DeliveredSubtotal(o.items) + HalfUp(DeliveredSubtotal(o.items), o.taxRate) - DiscountShare(o)
    + if FullyDelivered(o.items) then o.shipping else 0
  }

  predicate CurrencyOk(currency: string) {
    |currency| == 3
  }

  /** The total as the entity computes it: money may not be negative and carries a
      three-letter currency. */
  function TotalOf(o: OrderState): (r: Result<nat>)
    ensures r.Ok? <==> CurrencyOk(o.currency) && 0 <= Total(o)
    ensures r.Ok? ==> r.value == Total(o)
  {
    if !CurrencyOk(o.currency) then Err(Unhandled)
    else if o.discount > Subtotal(o.items) + HalfUp(Subtotal(o.items), o.taxRate) + o.shipping then Err(Unhandled)
    else Ok(Total(o))
  }

  /** The delivered total as the entity computes it: the discount share is taken off
      before the shipping is added. */
  function DeliveredTotalOf(o: OrderState): Result<nat> {
    if !CurrencyOk(o.currency) then Err(Unhandled)
    else if DiscountShare(o) > DeliveredSubtotal(o.items) + HalfUp(DeliveredSubtotal(o.items), o.taxRate) then Err(Unhandled)
    else Ok(DeliveredTotal(o))
  }

  /** Building the response evaluates both totals, so either may refuse the request. */
  function Respond(o: OrderState): Result<nat> {
    var total :- TotalOf(o);
    var delivered :- DeliveredTotalOf(o);
    Ok(total)
  }

  function BalanceDue(o: OrderState): nat {
    AtLeastZero(Total(o) - o.paid + o.refunded)
  }

  predicate CanEdit(o: OrderState) {
    && o.status in {Draft, OrderStatus.Confirmed, InProduction, Ready}
    && o.paid == 0
    && forall k :: 0 <= k < |o.items| ==> o.items[k].delivered == 0 && o.items[k].invoiced == 0
  }

  function Classify(paid: nat, refunded: nat, total: nat, dueDate: Option<int>, today: int): PaymentStatus {
    if refunded >= total then Refunded
    else if paid >= total then Paid
    else if paid > 0 && refunded > 0 then PartialRefund
    else if paid > 0 then Partial
    else if dueDate.Some? && today > dueDate.value then Overdue
    else Pending
  }

  // ----- line edits -----

  function MakeItem(id: Id, description: string, quantity: int, unitPrice: nat,
                    unit: Option<string>, sortOrder: nat): Result<Item> {
    if quantity <= 0 || Text.IsBlank(description) then Err(Unhandled)
    else Ok(Item(id, description, quantity, unitPrice, unit, sortOrder, 0, 0))
  }

  /** The position of the first line with this id, or the number of lines. */
  function IndexOf(items: seq<Item>, id: Id): (k: nat)
    ensures k <= |items|
    ensures k < |items| ==> items[k].id == id
    ensures forall j :: 0 <= j < k ==> items[j].id != id
  {
    if items == [] || items[0].id == id then 0 else 1 + IndexOf(items[1..], id)
  }

  function Without(items: seq<Item>, id: Id): (r: seq<Item>)
    ensures |r| <= |items|
  {
    if items == [] then []
    else if items[0].id == id then Without(items[1..], id)
    else [items[0]] + Without(items[1..], id)
  }

  function WithItem(o: OrderState, item: Item): Result<OrderState> {
    if !CanEdit(o) then Err(InvalidState)
    else if IndexOf(o.items, item.id) < |o.items| then Err(DuplicateKey)
    else Ok(o.(items := o.items + [item]))
  }

  function WithoutItem(o: OrderState, id: Id): Result<OrderState> {
    if !CanEdit(o) then Err(InvalidState)
    else if |Without(o.items, id)| == |o.items| then Err(InvalidState)
    else Ok(o.(items := Without(o.items, id)))
  }

  /** The fields of a line edit that were given. */
  datatype ItemEdit = ItemEdit(
    description: Option<string>,
    quantity: Option<int>,
    unitPrice: Option<nat>,
    unit: Option<string>)

  function EditedItem(i: Item, e: ItemEdit): Item
    requires e.quantity.Some? ==> e.quantity.value >= 0
  {
    var described := if e.description.Some? then i.(description := Text.Strip(e.description.value)) else i;
    var counted := if e.quantity.Some? then described.(quantity := e.quantity.value) else described;
    var priced := if e.unitPrice.Some? then counted.(unitPrice := e.unitPrice.value) else counted;
    if e.unit.Some? then priced.(unit := if e.unit.value == "" then None else e.unit) else priced
  }

  function WithItemEdit(o: OrderState, id: Id, e: ItemEdit): Result<OrderState> {
    var k := IndexOf(o.items, id);
    if !CanEdit(o) || k == |o.items| then Err(InvalidState)
    else if e.description.Some? && Text.IsBlank(e.description.value) then Err(InvalidState)
    else if e.quantity.Some? && e.quantity.value <= 0 then Err(InvalidState)
    else Ok(o.(items := o.items[k := EditedItem(o.items[k], e)]))
  }

  // ----- life cycle -----

  function Confirm(o: OrderState): Result<OrderState> {
    if o.items == [] || o.status != Draft then Err(InvalidState)
    else Ok(o.(status := OrderStatus.Confirmed))
  }

  function Cancel(o: OrderState): Result<OrderState> {
    if o.status !in {Draft, OrderStatus.Confirmed, InProduction, Ready, Disputed} then Err(InvalidState)
    else Ok(o.(status := Cancelled))
  }

  // ----- deliveries -----

  datatype DeliveryLine = DeliveryLine(itemId: Id, quantity: int)

  /** The lines after the loop over a delivery list, and whether the loop got through.
      When it did not, the earlier entries have already been added. */
  datatype LoopState = LoopState(items: seq<Item>, through: bool)

  function DeliverLines(items: seq<Item>, ds: seq<DeliveryLine>): LoopState
    decreases |ds|
  {
    if ds == [] then LoopState(items, true)
    else if ds[0].quantity <= 0 then DeliverLines(items, ds[1..])
    else
      var k := IndexOf(items, ds[0].itemId);
      if k == |items| || items[k].delivered + ds[0].quantity > items[k].quantity then LoopState(items, false)
      else DeliverLines(items[k := items[k].(delivered := items[k].delivered + ds[0].quantity)], ds[1..])
  }

  predicate AnyPositive(ds: seq<DeliveryLine>) {
    exists k :: 0 <= k < |ds| && ds[k].quantity > 0
  }

  predicate Deliverable(status: OrderStatus) {
    status in {OrderStatus.Confirmed, InProduction, Ready, PartiallyDelivered}
  }

  function WithDelivery(o: OrderState, ds: seq<DeliveryLine>): Result<OrderState> {
    if !Deliverable(o.status) || ds == [] then Err(InvalidState)
    else
      var l := DeliverLines(o.items, ds);
      if !l.through || !AnyPositive(ds) then Err(InvalidState)
      else Ok(o.(items := l.items, status := if FullyDelivered(l.items) then Delivered else PartiallyDelivered))
  }

  /** Every delivered quantity becomes invoiced. */
  function AllInvoiced(items: seq<Item>): (r: seq<Item>)
    ensures |r| == |items|
    ensures forall k :: 0 <= k < |items| ==>
              r[k] == if items[k].delivered > items[k].invoiced
                      then items[k].(invoiced := items[k].delivered) else items[k]
  {
    if items == [] then []
    else
      [if items[0].delivered > items[0].invoiced then items[0].(invoiced := items[0].delivered) else items[0]]
      + AllInvoiced(items[1..])
  }

  // ----- money -----

  /** The checks of the domain service before a payment. */
  function ValidatePayment(o: OrderState, amount: nat, currency: string): Option<Error> {
    if o.status in {Cancelled, Archived, Draft} then Some(InvalidState)
    else if amount == 0 || currency != o.currency then Some(BusinessRule)
    else
      match TotalOf(o)
      case Err(e) => Some(e)
      case Ok(total) =>
        if total > 0 && (o.paid >= total || o.paid + amount > total) then Some(BusinessRule) else None
  }

  function ValidateRefund(o: OrderState, amount: nat): Option<Error> {
    if amount > o.paid then Some(RefundExceedsPaid)
    else if amount == 0 then Some(BusinessRule)
    else None
  }

  function WithClassification(o: OrderState, today: int): Result<OrderState> {
    var total :- TotalOf(o);
    Ok(o.(paymentStatus := Classify(o.paid, o.refunded, total, o.dueDate, today)))
  }

  function WithPayment(o: OrderState, amount: nat, currency: string, today: int): Result<OrderState> {
    if o.status == Cancelled || amount == 0 || currency != o.currency then Err(Unhandled)
    else WithClassification(o.(paid := o.paid + amount), today)
  }

  function WithRefund(o: OrderState, amount: nat, today: int): Result<OrderState> {
    if amount == 0 || amount > o.paid then Err(Unhandled)
    else WithClassification(o.(refunded := o.refunded + amount, paid := o.paid - amount), today)
  }
}
