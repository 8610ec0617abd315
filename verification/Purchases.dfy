/** Purchase orders and the stock their receipts add to: the rows and what each request does
    to them. A request either gives the rows to commit or is refused and commits nothing. */
module Purchases {
  import opened Money
  import opened Options

  type Id = nat

  datatype Status = Draft | Ordered | PartiallyReceived | Received

  datatype Line = Line(id: Id, product: Option<Id>, quantity: nat, price: nat, received: nat)

  datatype Purchase = Purchase(
    status: Status,
    supplier: Id,
    salesOrder: Option<Id>,
    source: Option<Id>,
    lines: seq<Line>,
    subtotal: nat,
    taxRate: nat,
    tax: nat,
    total: nat)

  /** A stock that was never set counts as none. */
  datatype Product = Product(trackStock: bool, stock: Option<int>)

  datatype Store = Store(
    purchases: map<Id, Purchase>,
    products: map<Id, Product>,
    suppliers: set<Id>,
    salesOrders: set<Id>,
    scans: set<Id>)

  /** One line of a request; the id is the one the new row draws. */
  datatype LineInput = LineInput(id: Id, product: Option<Id>, quantity: int, price: int)

  datatype Body = Body(
    supplier: Id,
    salesOrder: Option<Id>,
    source: Option<Id>,
    applyTax: bool,
    taxRate: nat,
    lines: seq<LineInput>)

  datatype Receipt = Receipt(item: Id, quantity: int)

  datatype Refusal =
    | Unprocessable   // 422
    | NotFound        // 404
    | Conflict        // 409
    | BadRequest      // 400
    | DuplicateKey    // a drawn row id is taken

  datatype Outcome = Done(store: Store) | Refused(why: Refusal)

  datatype Command =
    | Create(id: Id, body: Body)
    | Update(id: Id, body: Body)
    | Confirm(id: Id)
    | Receive(id: Id, receipts: seq<Receipt>)
    | SetStock(product: Id, newStock: Product)    // anything else that edits a product's stock

  // ----- creating and updating -----

  predicate BodyOk(b: Body) {
    && b.taxRate <= SCALE
    && b.lines != []
    && forall k :: 0 <= k < |b.lines| ==> b.lines[k].quantity > 0 && b.lines[k].price >= 0
  }

  predicate DistinctInputs(ls: seq<LineInput>) {
    forall j, k :: 0 <= j < k < |ls| ==> ls[j].id != ls[k].id
  }

  predicate ProductsKnown(products: map<Id, Product>, ls: seq<LineInput>) {
    forall k :: 0 <= k < |ls| && ls[k].product.Some? ==> ls[k].product.value in products
  }

  /** Another purchase already comes from this scan. */
  predicate SourceTaken(purchases: map<Id, Purchase>, source: Id, current: Option<Id>) {
    exists i :: i in purchases && purchases[i].source == Some(source) && current != Some(i)
  }

  /** What the database is asked before a purchase is written; current is the one updated. */
  function Objection(s: Store, b: Body, current: Option<Id>): Option<Refusal> {
    if b.supplier !in s.suppliers then Some(NotFound)
    else if b.salesOrder.Some? && b.salesOrder.value !in s.salesOrders then Some(NotFound)
    else if b.source.Some? && b.source.value !in s.scans then Some(NotFound)
    else if b.source.Some? && SourceTaken(s.purchases, b.source.value, current) then Some(Conflict)
    else if !ProductsKnown(s.products, b.lines) then Some(BadRequest)
    else None
  }

  function NewLines(ls: seq<LineInput>): (r: seq<Line>)
    requires forall k :: 0 <= k < |ls| ==> ls[k].quantity > 0 && ls[k].price >= 0
  {
    seq(|ls|, k requires 0 <= k < |ls| => Line(ls[k].id, ls[k].product, ls[k].quantity, ls[k].price, 0))
  }

  function Cost(lines: seq<Line>): nat {
    if lines == [] then 0 else lines[0].quantity * lines[0].price + Cost(lines[1..])
  }

  /** Tax is dropped to whole cents; a request may leave it off whatever its rate. */
  function WithTotals(p: Purchase, applyTax: bool, taxRate: nat): Purchase {
    var subtotal := Cost(p.lines);
    var rate := if applyTax then taxRate else 0;
    var tax := Truncated(subtotal, rate);
    p.(subtotal := subtotal, taxRate := rate, tax := tax, total := subtotal + tax)
  }

  function Written(status: Status, b: Body): Purchase
    requires BodyOk(b)
  {
    WithTotals(Purchase(status, b.supplier, b.salesOrder, b.source, NewLines(b.lines), 0, 0, 0, 0), b.applyTax, b.taxRate)
  }

  function DoCreate(s: Store, id: Id, b: Body): Outcome {
    if !BodyOk(b) then Refused(Unprocessable)
    else
      var objection := Objection(s, b, None);
      if objection.Some? then Refused(objection.value)
      else if id in s.purchases || !DistinctInputs(b.lines) then Refused(DuplicateKey)
      else Done(s.(purchases := s.purchases[id := Written(Draft, b)]))
  }

  predicate NothingReceived(lines: seq<Line>) {
    forall k :: 0 <= k < |lines| ==> lines[k].received == 0
  }

  /** Whether a purchase may still be rewritten. */
  predicate Editable(p: Purchase) {
    (p.status == Draft || p.status == Ordered) && NothingReceived(p.lines)
  }

  function DoUpdate(s: Store, id: Id, b: Body): Outcome {
    if !BodyOk(b) then Refused(Unprocessable)
    else if id !in s.purchases then Refused(NotFound)
    else if !Editable(s.purchases[id]) then Refused(Conflict)
    else
      var objection := Objection(s, b, Some(id));
      if objection.Some? then Refused(objection.value)
      else if !DistinctInputs(b.lines) then Refused(DuplicateKey)
      else Done(s.(purchases := s.purchases[id := Written(s.purchases[id].status, b)]))
  }

  function DoConfirm(s: Store, id: Id): Outcome {
    if id !in s.purchases then Refused(NotFound)
    else if s.purchases[id].status != Draft then Refused(Conflict)
    else Done(s.(purchases := s.purchases[id := s.purchases[id].(status := Ordered)]))
  }

  // ----- receiving -----

  /** The line a dictionary of the lines by id gives; beyond the end when there is none. */
  function Find(lines: seq<Line>, id: Id): (k: nat)
    ensures k <= |lines|
    ensures k < |lines| ==> lines[k].id == id
    ensures k == |lines| ==> forall j :: 0 <= j < |lines| ==> lines[j].id != id
  {
    if lines == [] then 0
    else if lines[0].id == id then 0
    else 1 + Find(lines[1..], id)
  }

  function Held(p: Product): int {
    if p.stock.Some? then p.stock.value else 0
  }

  function Restocked(products: map<Id, Product>, product: Option<Id>, quantity: int): map<Id, Product> {
    if product.Some? && product.value in products then
      products[product.value := Product(true, Some(Held(products[product.value]) + quantity))]
    else products
  }

  datatype Progress = Progress(through: bool, lines: seq<Line>, products: map<Id, Product>)

  predicate Receivable(lines: seq<Line>, r: Receipt) {
    var k := Find(lines, r.item);
    k < |lines| && lines[k].received + r.quantity <= lines[k].quantity
  }

  function ReceiveLine(lines: seq<Line>, r: Receipt): seq<Line>
    requires r.quantity > 0 && Receivable(lines, r)
  {
    var k := Find(lines, r.item);
    lines[k := lines[k].(received := lines[k].received + r.quantity)]
  }

  predicate ReceiptsOk(rs: seq<Receipt>) {
    forall n :: 0 <= n < |rs| ==> rs[n].quantity > 0
  }

  /** Receipt after receipt, up to the first that does not fit. */
  function ReceiveLines(lines: seq<Line>, products: map<Id, Product>, rs: seq<Receipt>): Progress
    requires ReceiptsOk(rs)
    decreases |rs|
  {
    if rs == [] then Progress(true, lines, products)
    else if !Receivable(lines, rs[0]) then Progress(false, lines, products)
    else
      ReceiveLines(ReceiveLine(lines, rs[0]),
                   Restocked(products, lines[Find(lines, rs[0].item)].product, rs[0].quantity), rs[1..])
  }

  predicate Complete(lines: seq<Line>) {
    forall k :: 0 <= k < |lines| ==> lines[k].received >= lines[k].quantity
  }

  function DoReceive(s: Store, id: Id, rs: seq<Receipt>): Outcome {
    if !ReceiptsOk(rs) then Refused(Unprocessable)
    else if id !in s.purchases then Refused(NotFound)
    else if s.purchases[id].status != Ordered && s.purchases[id].status != PartiallyReceived then Refused(Conflict)
    else if rs == [] then Refused(BadRequest)
    else
      var after := ReceiveLines(s.purchases[id].lines, s.products, rs);
      if !after.through then Refused(BadRequest)
      else
        var status := if Complete(after.lines) then Received else PartiallyReceived;
        Done(s.(purchases := s.purchases[id := s.purchases[id].(lines := after.lines, status := status)],
                products := after.products))
  }

  function DoSetStock(s: Store, product: Id, p: Product): Outcome {
    if product !in s.products then Refused(NotFound) else Done(s.(products := s.products[product := p]))
  }

  function Step(s: Store, c: Command): Outcome {
    match c
    case Create(id, body) => DoCreate(s, id, body)
    case Update(id, body) => DoUpdate(s, id, body)
    case Confirm(id) => DoConfirm(s, id)
    case Receive(id, receipts) => DoReceive(s, id, receipts)
    case SetStock(product, newStock) => DoSetStock(s, product, newStock)
  }

  function Commit(s: Store, c: Command): Store {
    var outcome := Step(s, c);
    if outcome.Done? then outcome.store else s
  }

  function Run(s: Store, cs: seq<Command>): Store
    decreases |cs|
  {
    if cs == [] then s else Run(Commit(s, cs[0]), cs[1..])
  }
}
