/** Exactly which requests on purchases are committed, and what the committed ones write. The conditions
    are spelled out on the stored rows and the request. */
module PurchaseRequests {
  import opened Options
  import opened Purchases
  import opened Receipts
  import opened PurchaseRuns
  import Money

  // ----- writing a purchase -----

  /** At least one line, every line of a positive quantity at a price, a tax rate of at most 100 %. */
  predicate Valid(b: Body) {
    && b.lines != [] && b.taxRate <= 10_000
    && forall k :: 0 <= k < |b.lines| ==> 0 < b.lines[k].quantity && 0 <= b.lines[k].price
  }

  predicate NamesKnown(s: Store, b: Body) {
    && b.supplier in s.suppliers
    && (b.salesOrder.Some? ==> b.salesOrder.value in s.salesOrders)
    && (b.source.Some? ==> b.source.value in s.scans)
    && forall k :: 0 <= k < |b.lines| ==> b.lines[k].product.None? || b.lines[k].product.value in s.products
  }

  /** No other purchase comes from the scan named. */
  predicate SourceFree(s: Store, b: Body, own: Id) {
    b.source.Some? ==> forall i :: i in s.purchases && i != own ==> s.purchases[i].source != b.source
  }

  predicate DrawnApart(b: Body) {
    forall j, k :: 0 <= j < k < |b.lines| ==> b.lines[j].id != b.lines[k].id
  }

  /** The row says what the request asked for, line by line, with nothing received, and carries the cost
      of its lines, the tax on it truncated to cents, and their sum. */
  predicate Records(p: Purchase, b: Body) {
    && p.supplier == b.supplier && p.salesOrder == b.salesOrder && p.source == b.source
    && |p.lines| == |b.lines|
    && (forall k :: 0 <= k < |b.lines| ==>
          && p.lines[k].id == b.lines[k].id && p.lines[k].product == b.lines[k].product
          && p.lines[k].quantity == b.lines[k].quantity && p.lines[k].price == b.lines[k].price
          && p.lines[k].received == 0)
    && p.subtotal == Cost(p.lines)
    && p.taxRate == (if b.applyTax then b.taxRate else 0)
    && p.tax * 10_000 <= p.subtotal * p.taxRate < (p.tax + 1) * 10_000
    && p.total == p.subtotal + p.tax
  }

  /** The cost is pinned by what one line costs and by adding up. */
  lemma {:induction false} CostTogether(a: seq<Line>, l: Line, b: seq<Line>)
    ensures Cost([l]) == l.quantity * l.price
    ensures Cost(a + b) == Cost(a) + Cost(b)
  {
    assert [l][1..] == [];
    if a == [] {
      assert a + b == b;
    } else {
      assert (a + b)[1..] == a[1..] + b;
      CostTogether(a[1..], l, b);
    }
  }

  lemma WrittenRecords(status: Status, b: Body)
    requires BodyOk(b)
    ensures Records(Written(status, b), b) && Written(status, b).status == status
  {
    var p := Written(status, b);
    Money.TruncatedBelow(p.subtotal, p.taxRate, p.tax);
  }

  lemma NoObjection(s: Store, b: Body, own: Id, current: Option<Id>)
    requires current == Some(own) || (current.None? && own !in s.purchases)
    ensures Objection(s, b, current).None? <==> NamesKnown(s, b) && SourceFree(s, b, own)
  {
  }

  /** A purchase is created exactly from a valid request under a new id, when everything it names is
      there, no other purchase comes from its scan and its lines draw distinct ids. The new row is a
      draft that records the request. */
  lemma CreateCommitted(s: Store, id: Id, b: Body)
    ensures Step(s, Create(id, b)).Done? <==>
              Valid(b) && id !in s.purchases && NamesKnown(s, b) && SourceFree(s, b, id) && DrawnApart(b)
    ensures Step(s, Create(id, b)).Done? ==>
              var t := Step(s, Create(id, b)).store;
              && id in t.purchases && t == s.(purchases := s.purchases[id := t.purchases[id]])
              && Records(t.purchases[id], b) && t.purchases[id].status == Draft
  {
    if id !in s.purchases {
      NoObjection(s, b, id, None);
    }
    if BodyOk(b) {
      WrittenRecords(Draft, b);
    }
  }

  /** A purchase is rewritten exactly by such a request while nothing of it has been received; the row
      then records the request and keeps its status. */
  lemma UpdateCommitted(s: Store, id: Id, b: Body)
    requires Inv(s)
    ensures Step(s, Update(id, b)).Done? <==>
              && Valid(b) && id in s.purchases
              && (s.purchases[id].status == Draft || s.purchases[id].status == Ordered)
              && NamesKnown(s, b) && SourceFree(s, b, id) && DrawnApart(b)
    ensures Step(s, Update(id, b)).Done? ==>
              var t := Step(s, Update(id, b)).store;
              && id in t.purchases && t == s.(purchases := s.purchases[id := t.purchases[id]])
              && Records(t.purchases[id], b) && t.purchases[id].status == s.purchases[id].status
  {
    NoObjection(s, b, id, Some(id));
    if id in s.purchases && BodyOk(b) {
      assert PurchaseOk(s.purchases[id]);
      WrittenRecords(s.purchases[id].status, b);
    }
  }

  /** A purchase is sent to its supplier exactly while it is a draft; only its status changes. */
  lemma ConfirmCommitted(s: Store, id: Id)
    ensures Step(s, Confirm(id)).Done? <==> id in s.purchases && s.purchases[id].status == Draft
    ensures Step(s, Confirm(id)).Done? ==>
              Step(s, Confirm(id)).store == s.(purchases := s.purchases[id := s.purchases[id].(status := Ordered)])
  {
  }

  // ----- why a request is refused -----

  predicate PartiesKnown(s: Store, b: Body) {
    && b.supplier in s.suppliers
    && (b.salesOrder.Some? ==> b.salesOrder.value in s.salesOrders)
    && (b.source.Some? ==> b.source.value in s.scans)
  }

  predicate ProductsThere(s: Store, b: Body) {
    forall k :: 0 <= k < |b.lines| ==> b.lines[k].product.None? || b.lines[k].product.value in s.products
  }

  /** The refusals of a request to write purchase own, in the order they are looked for. */
  lemma ObjectionExactly(s: Store, b: Body, own: Id, current: Option<Id>)
    requires current == Some(own) || (current.None? && own !in s.purchases)
    ensures Objection(s, b, current) == Some(NotFound) <==> !PartiesKnown(s, b)
    ensures Objection(s, b, current) == Some(Conflict) <==> PartiesKnown(s, b) && !SourceFree(s, b, own)
    ensures Objection(s, b, current) == Some(BadRequest) <==>
              PartiesKnown(s, b) && SourceFree(s, b, own) && !ProductsThere(s, b)
  {
  }

  /** Creating under a new id: malformed requests first, then what is not there, then a scan used twice,
      then products. */
  lemma CreateRefused(s: Store, id: Id, b: Body)
    requires id !in s.purchases
    ensures var r := Step(s, Create(id, b));
            && (r == Refused(Unprocessable) <==> !Valid(b))
            && (r == Refused(NotFound) <==> Valid(b) && !PartiesKnown(s, b))
            && (r == Refused(Conflict) <==> Valid(b) && PartiesKnown(s, b) && !SourceFree(s, b, id))
            && (r == Refused(BadRequest) <==> Valid(b) && PartiesKnown(s, b) && SourceFree(s, b, id) && !ProductsThere(s, b))
  {
    ObjectionExactly(s, b, id, None);
  }

  /** Rewriting: a purchase already being received is a conflict before anything it names is looked up. */
  lemma UpdateRefused(s: Store, id: Id, b: Body)
    requires Inv(s) && id in s.purchases
    ensures var r := Step(s, Update(id, b));
            var open := s.purchases[id].status == Draft || s.purchases[id].status == Ordered;
            && (r == Refused(Unprocessable) <==> !Valid(b))
            && (r == Refused(NotFound) <==> Valid(b) && open && !PartiesKnown(s, b))
            && (r == Refused(Conflict) <==> Valid(b) && (!open || (PartiesKnown(s, b) && !SourceFree(s, b, id))))
            && (r == Refused(BadRequest) <==>
                  Valid(b) && open && PartiesKnown(s, b) && SourceFree(s, b, id) && !ProductsThere(s, b))
  {
    assert PurchaseOk(s.purchases[id]);
    ObjectionExactly(s, b, id, Some(id));
  }

  /** Sending and receiving: a purchase in the wrong state is a conflict, a list that is empty or does
      not fit a bad request. */
  lemma ProgressRefused(s: Store, id: Id, rs: seq<Receipt>)
    requires Inv(s) && ReceiptsOk(rs)
    ensures Step(s, Confirm(id)) == Refused(NotFound) <==> id !in s.purchases
    ensures Step(s, Confirm(id)) == Refused(Conflict) <==> id in s.purchases && s.purchases[id].status != Draft
    ensures Step(s, Receive(id, rs)) == Refused(NotFound) <==> id !in s.purchases
    ensures Step(s, Receive(id, rs)) == Refused(Conflict) <==>
              id in s.purchases && s.purchases[id].status != Ordered && s.purchases[id].status != PartiallyReceived
    ensures Step(s, Receive(id, rs)) == Refused(BadRequest) <==>
              && id in s.purchases && (s.purchases[id].status == Ordered || s.purchases[id].status == PartiallyReceived)
              && (rs == [] || !Fits(s.purchases[id].lines, rs))
  {
    ReceiptAccepted(s, id, rs);
  }

  // ----- from the request to the stock -----

  /** How much of a product a request asks for. */
  function Wanted(ls: seq<LineInput>, product: Id): int {
    if ls == [] then 0
    else (if ls[0].product == Some(product) then ls[0].quantity else 0) + Wanted(ls[1..], product)
  }

  /** Everything a request asks for arrives, line by line. */
  predicate Everything(rs: seq<Receipt>, ls: seq<LineInput>) {
    && |rs| == |ls|
    && forall k :: 0 <= k < |ls| ==> rs[k] == Receipt(ls[k].id, ls[k].quantity)
  }

  lemma {:induction false} ClaimsNone(rs: seq<Receipt>, id: Id)
    requires ReceiptsOk(rs) && forall k :: 0 <= k < |rs| ==> rs[k].item != id
    ensures Claimed(rs, id) == 0
  {
    if rs != [] {
      ClaimsNone(rs[1..], id);
    }
  }

  lemma {:induction false} ClaimsOne(rs: seq<Receipt>, k: nat)
    requires ReceiptsOk(rs) && k < |rs|
    requires forall i, j :: 0 <= i < j < |rs| ==> rs[i].item != rs[j].item
    ensures Claimed(rs, rs[k].item) == rs[k].quantity
  {
    if k == 0 {
      assert forall j :: 0 <= j < |rs[1..]| ==> rs[1..][j] == rs[j + 1];
      ClaimsNone(rs[1..], rs[0].item);
    } else {
      assert rs[1..][k - 1] == rs[k];
      ClaimsOne(rs[1..], k - 1);
    }
  }

  /** Receiving everything fits a purchase of which nothing was received, and completes its lines. */
  lemma EverythingFits(lines: seq<Line>, b: Body, rs: seq<Receipt>)
    requires Valid(b) && DrawnApart(b) && Everything(rs, b.lines)
    requires |lines| == |b.lines| && NothingReceived(lines)
    requires forall k :: 0 <= k < |lines| ==> lines[k].id == b.lines[k].id && lines[k].quantity == b.lines[k].quantity
    ensures ReceiptsOk(rs) && Fits(lines, rs)
    ensures forall after :: GrownBy(lines, rs, after) ==>
              forall k :: 0 <= k < |after| ==> after[k] == lines[k].(received := lines[k].quantity)
  {
    assert ReceiptsOk(rs);
    forall k | 0 <= k < |lines|
      ensures Claimed(rs, lines[k].id) == lines[k].quantity
    {
      ClaimsOne(rs, k);
    }
    forall k | 0 <= k < |rs|
      ensures Find(lines, rs[k].item) < |lines|
    {
      assert lines[k].id == rs[k].item;
    }
  }

  lemma {:induction false} ReceivedWanted(lines: seq<Line>, ls: seq<LineInput>, product: Id)
    requires |lines| == |ls|
    requires forall k :: 0 <= k < |ls| ==> lines[k].product == ls[k].product && lines[k].received == ls[k].quantity
    ensures ReceivedOf(lines, product) == Wanted(ls, product)
  {
    if ls != [] {
      assert lines[0].product == ls[0].product && lines[0].received == ls[0].quantity;
      ReceivedWanted(lines[1..], ls[1..], product);
    }
  }

  /** The store after a purchase is created, sent and received in full. */
  function Bought(s: Store, id: Id, b: Body, rs: seq<Receipt>): Store {
    Commit(Commit(Commit(s, Create(id, b)), Confirm(id)), Receive(id, rs))
  }

  lemma OutForDelivery(s: Store, id: Id, b: Body)
    requires Inv(s) && Step(s, Create(id, b)).Done?
    ensures var t := Commit(Commit(s, Create(id, b)), Confirm(id));
            && Inv(t) && id in t.purchases && t.products == s.products
            && Records(t.purchases[id], b) && t.purchases[id].status == Ordered
            && NothingReceived(t.purchases[id].lines)
  {
    CreateCommitted(s, id, b);
    var t := Commit(s, Create(id, b));
    StepKeeps(s, Create(id, b));
    ConfirmCommitted(t, id);
    StepKeeps(t, Confirm(id));
  }

  /** A purchase that is created, sent and received in full ends received, and the stock of every
      product has grown by exactly what the request asked for of it. */
  lemma BoughtIntoStock(s: Store, id: Id, b: Body, rs: seq<Receipt>)
    requires Inv(s) && Step(s, Create(id, b)).Done? && Everything(rs, b.lines)
    ensures var t := Bought(s, id, b, rs);
            && id in t.purchases && t.purchases[id].status == Received
            && t.products.Keys == s.products.Keys
            && forall x :: x in s.products ==>
                 && StockOf(t.products, x) == StockOf(s.products, x) + Wanted(b.lines, x)
                 && (if Asks(b.lines, x) then t.products[x].trackStock else t.products[x] == s.products[x])
  {
    CreateCommitted(s, id, b);
    OutForDelivery(s, id, b);
    var u := Commit(Commit(s, Create(id, b)), Confirm(id));
    ReceivedInFull(u, id, b, rs, Bought(s, id, b, rs));
  }

  predicate Asks(ls: seq<LineInput>, product: Id) {
    exists k :: 0 <= k < |ls| && ls[k].product == Some(product)
  }

  lemma ReceivedInFull(s: Store, id: Id, b: Body, rs: seq<Receipt>, t: Store)
    requires Inv(s) && id in s.purchases && s.purchases[id].status == Ordered && NothingReceived(s.purchases[id].lines)
    requires Valid(b) && DrawnApart(b) && Records(s.purchases[id], b) && Everything(rs, b.lines)
    requires t == Commit(s, Receive(id, rs))
    ensures id in t.purchases && t.purchases[id].status == Received && t.products.Keys == s.products.Keys
    ensures forall x :: x in s.products ==>
              && StockOf(t.products, x) == StockOf(s.products, x) + Wanted(b.lines, x)
              && (if Asks(b.lines, x) then t.products[x].trackStock else t.products[x] == s.products[x])
  {
    LinesInFull(s, id, b, rs, t);
    var lines, after := s.purchases[id].lines, t.purchases[id].lines;
    forall x | x in s.products
      ensures StockOf(t.products, x) == StockOf(s.products, x) + Wanted(b.lines, x)
      ensures if Asks(b.lines, x) then t.products[x].trackStock else t.products[x] == s.products[x]
    {
      StockFollows(lines, s.products, rs, x);
      StockInFull(lines, after, s.products, b.lines, rs, x);
    }
  }

  lemma LinesInFull(s: Store, id: Id, b: Body, rs: seq<Receipt>, t: Store)
    requires Inv(s) && id in s.purchases && s.purchases[id].status == Ordered && NothingReceived(s.purchases[id].lines)
    requires Valid(b) && DrawnApart(b) && Records(s.purchases[id], b) && Everything(rs, b.lines)
    requires t == Commit(s, Receive(id, rs))
    ensures ReceiptsOk(rs) && DistinctIds(s.purchases[id].lines)
    ensures id in t.purchases && t.purchases[id].status == Received
    ensures |t.purchases[id].lines| == |b.lines|
    ensures forall k :: 0 <= k < |b.lines| ==>
              t.purchases[id].lines[k].product == b.lines[k].product && t.purchases[id].lines[k].received == b.lines[k].quantity
    ensures ReceiveLines(s.purchases[id].lines, s.products, rs) == Progress(true, t.purchases[id].lines, t.products)
    ensures t.products.Keys == s.products.Keys
  {
    ListInFull(s.purchases[id].lines, s.products, b, rs);
    assert Step(s, Receive(id, rs)) == DoReceive(s, id, rs);
  }

  lemma ListInFull(lines: seq<Line>, products: map<Id, Product>, b: Body, rs: seq<Receipt>)
    requires Valid(b) && DrawnApart(b) && Everything(rs, b.lines)
    requires |lines| == |b.lines| && NothingReceived(lines)
    requires forall k :: 0 <= k < |lines| ==>
               lines[k].id == b.lines[k].id && lines[k].quantity == b.lines[k].quantity && lines[k].product == b.lines[k].product
    ensures ReceiptsOk(rs) && DistinctIds(lines)
    ensures var after := ReceiveLines(lines, products, rs);
            && after.through && Complete(after.lines) && |after.lines| == |b.lines|
            && (forall k :: 0 <= k < |b.lines| ==>
                  after.lines[k].product == b.lines[k].product && after.lines[k].received == b.lines[k].quantity)
            && after.products.Keys == products.Keys
  {
    EverythingFits(lines, b, rs);
    LoopMeetsSums(lines, products, rs);
    StockFollows(lines, products, rs, 0);
    assert GrownBy(lines, rs, ReceiveLines(lines, products, rs).lines);
  }

  lemma StockInFull(lines: seq<Line>, after: seq<Line>, products: map<Id, Product>, ls: seq<LineInput>,
                    rs: seq<Receipt>, product: Id)
    requires ReceiptsOk(rs) && ReceiveLines(lines, products, rs).through && product in products
    requires Everything(rs, ls) && DistinctIds(lines) && NothingReceived(lines)
    requires |after| == |lines| == |ls|
    requires forall k :: 0 <= k < |ls| ==> lines[k].id == ls[k].id && lines[k].product == ls[k].product
    requires forall k :: 0 <= k < |ls| ==> after[k].product == ls[k].product && after[k].received == ls[k].quantity
    ensures ReceivedOf(after, product) - ReceivedOf(lines, product) == Wanted(ls, product)
    ensures var p := ReceiveLines(lines, products, rs).products;
            && product in p
            && (if Asks(ls, product) then p[product].trackStock else p[product] == products[product])
  {
    ReceivedWanted(after, ls, product);
    NothingOf(lines, product);
    TouchedAsks(lines, ls, rs, product);
    StockTouched(lines, products, rs, product);
  }

  lemma TouchedAsks(lines: seq<Line>, ls: seq<LineInput>, rs: seq<Receipt>, product: Id)
    requires |lines| == |ls| && Everything(rs, ls) && DistinctIds(lines)
    requires forall k :: 0 <= k < |ls| ==> lines[k].id == ls[k].id && lines[k].product == ls[k].product
    ensures Touched(lines, rs, product) <==> Asks(ls, product)
  {
    forall k | 0 <= k < |ls|
      ensures Find(lines, rs[k].item) == k
    {
      assert lines[k].id == rs[k].item;
    }
    if Asks(ls, product) {
      var k :| 0 <= k < |ls| && ls[k].product == Some(product);
      assert Find(lines, rs[k].item) == k;
    }
  }
}
