/** The purchase requests as they run, changing rows in place; what a refused request has
    written is rolled back. Each is proved to do what the function of the same name says. */
module Procurement {
  import opened Money
  import opened Options
  import opened Purchases

  /** The loop goes on with the next receipt if it fits. */
  lemma ReceiveNext(lines: seq<Line>, products: map<Id, Product>, rs: seq<Receipt>, n: nat)
    requires ReceiptsOk(rs) && n < |rs|
    ensures !Receivable(lines, rs[n]) ==> !ReceiveLines(lines, products, rs[n..]).through
    ensures Receivable(lines, rs[n]) ==>
              ReceiveLines(lines, products, rs[n..])
              == ReceiveLines(ReceiveLine(lines, rs[n]),
                              Restocked(products, lines[Find(lines, rs[n].item)].product, rs[n].quantity), rs[n + 1..])
  {
    assert rs[n..][0] == rs[n] && rs[n..][1..] == rs[n + 1..];
  }

  class Procurement {
    var purchases: map<Id, Purchase>
    var products: map<Id, Product>
    const suppliers: set<Id>
    const salesOrders: set<Id>
    const scans: set<Id>

    constructor (s: Store)
      ensures State() == s
    {
      purchases, products := s.purchases, s.products;
      suppliers, salesOrders, scans := s.suppliers, s.salesOrders, s.scans;
    }

    function State(): Store
      reads this
    {
      Store(purchases, products, suppliers, salesOrders, scans)
    }

    /** Recomputes the amounts of a row from its lines. */
    method SetTotals(p: Purchase, applyTax: bool, taxRate: nat) returns (q: Purchase)
      ensures q == WithTotals(p, applyTax, taxRate)
    {
      var subtotal := 0;
      for n := 0 to |p.lines|
        invariant subtotal + Cost(p.lines[n..]) == Cost(p.lines)
      {
        assert p.lines[n..][1..] == p.lines[n + 1..];
        subtotal := subtotal + p.lines[n].quantity * p.lines[n].price;
      }
      var rate := if applyTax then taxRate else 0;
      var tax := Truncated(subtotal, rate);
      q := p.(subtotal := subtotal, taxRate := rate, tax := tax, total := subtotal + tax);
    }

    method Create(id: Id, b: Body) returns (why: Option<Refusal>)
      modifies this
      ensures why.None? ==> DoCreate(old(State()), id, b) == Done(State())
      ensures why.Some? ==> DoCreate(old(State()), id, b) == Refused(why.value) && State() == old(State())
    {
      if !BodyOk(b) {
        return Some(Unprocessable);
      }
      why := Objection(State(), b, None);
      if why.Some? {
        return;
      }
      if id in purchases || !DistinctInputs(b.lines) {
        return Some(DuplicateKey);
      }
      var row := Purchase(Draft, b.supplier, b.salesOrder, b.source, NewLines(b.lines), 0, 0, 0, 0);
      row := SetTotals(row, b.applyTax, b.taxRate);
      purchases := purchases[id := row];
    }

    method Update(id: Id, b: Body) returns (why: Option<Refusal>)
      modifies this
      ensures why.None? ==> DoUpdate(old(State()), id, b) == Done(State())
      ensures why.Some? ==> DoUpdate(old(State()), id, b) == Refused(why.value) && State() == old(State())
    {
      if !BodyOk(b) {
        return Some(Unprocessable);
      }
      if id !in purchases {
        return Some(NotFound);
      }
      if !Editable(purchases[id]) {
        return Some(Conflict);
      }
      why := Objection(State(), b, Some(id));
      if why.Some? {
        return;
      }
      if !DistinctInputs(b.lines) {
        return Some(DuplicateKey);
      }
      var row := Purchase(purchases[id].status, b.supplier, b.salesOrder, b.source, NewLines(b.lines), 0, 0, 0, 0);
      row := SetTotals(row, b.applyTax, b.taxRate);
      purchases := purchases[id := row];
    }

    method Confirm(id: Id) returns (why: Option<Refusal>)
      modifies this
      ensures why.None? ==> DoConfirm(old(State()), id) == Done(State())
      ensures why.Some? ==> DoConfirm(old(State()), id) == Refused(why.value) && State() == old(State())
    {
      if id !in purchases {
        return Some(NotFound);
      }
      if purchases[id].status != Draft {
        return Some(Conflict);
      }
      purchases := purchases[id := purchases[id].(status := Ordered)];
      why := None;
    }

    /** Adds receipt after receipt to its line and to its product's stock. A receipt that does
        not fit ends the request, and the receipts before it are rolled back. */
    method Receive(id: Id, rs: seq<Receipt>) returns (why: Option<Refusal>)
      modifies this
      ensures why.None? ==> DoReceive(old(State()), id, rs) == Done(State())
      ensures why.Some? ==> DoReceive(old(State()), id, rs) == Refused(why.value) && State() == old(State())
    {
      if exists n :: 0 <= n < |rs| && rs[n].quantity <= 0 {
        return Some(Unprocessable);
      }
      if id !in purchases {
        return Some(NotFound);
      }
      if purchases[id].status != Ordered && purchases[id].status != PartiallyReceived {
        return Some(Conflict);
      }
      if rs == [] {
        return Some(BadRequest);
      }
      var stored := products;
      var lines := purchases[id].lines;
      for n := 0 to |rs|
        invariant purchases == old(purchases)
        invariant ReceiveLines(lines, products, rs[n..]) == ReceiveLines(old(purchases)[id].lines, old(products), rs)
      {
        ReceiveNext(lines, products, rs, n);
        var k := Find(lines, rs[n].item);
        if k == |lines| || lines[k].received + rs[n].quantity > lines[k].quantity {
          products := stored;
          return Some(BadRequest);
        }
        var product := lines[k].product;
        lines := lines[k := lines[k].(received := lines[k].received + rs[n].quantity)];
        if product.Some? && product.value in products {
          var p := products[product.value];
          products := products[product.value := Product(true, Some(Held(p) + rs[n].quantity))];
        }
      }
      var status := if Complete(lines) then Received else PartiallyReceived;
      purchases := purchases[id := purchases[id].(lines := lines, status := status)];
      why := None;
    }

    method Handle(c: Command) returns (why: Option<Refusal>)
      modifies this
      ensures State() == Commit(old(State()), c)
      ensures why == match Step(old(State()), c) case Done(_) => None case Refused(w) => Some(w)
    {
      match c
      case Create(id, body) => why := Create(id, body);
      case Update(id, body) => why := Update(id, body);
      case Confirm(id) => why := Confirm(id);
      case Receive(id, receipts) => why := Receive(id, receipts);
      case SetStock(product, newStock) =>
        if product in products {
          products := products[product := newStock];
          why := None;
        } else {
          why := Some(NotFound);
        }
    }

    /** Any number of requests, one after the other. */
    method Serve(cs: seq<Command>)
      modifies this
      ensures State() == Run(old(State()), cs)
    {
      for n := 0 to |cs|
        invariant Run(State(), cs[n..]) == Run(old(State()), cs)
      {
        assert cs[n..][1..] == cs[n + 1..];
        var why := Handle(cs[n]);
      }
    }
  }
}
