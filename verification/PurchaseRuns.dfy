/** What holds of purchases and stock over any run of requests. */
module PurchaseRuns {
  import opened Money
  import opened Options
  import opened Purchases
  import opened Receipts
  import opened Sums

  // ----- every reachable row is in order -----

  predicate SomethingReceived(lines: seq<Line>) {
    exists k :: 0 <= k < |lines| && lines[k].received > 0
  }

  /** The status says how far the receipts are. */
  predicate StatusAgrees(p: Purchase) {
    && (p.status == Received <==> Complete(p.lines))
    && (p.status == PartiallyReceived <==> SomethingReceived(p.lines) && !Complete(p.lines))
    && (p.status == Draft || p.status == Ordered <==> !SomethingReceived(p.lines))
  }

  predicate LinesOk(lines: seq<Line>) {
    && lines != [] && DistinctIds(lines)
    && forall k :: 0 <= k < |lines| ==> 0 < lines[k].quantity && lines[k].received <= lines[k].quantity
  }

  predicate TotalsOk(p: Purchase) {
    && p.subtotal == Cost(p.lines)
    && p.tax == Truncated(p.subtotal, p.taxRate)
    && p.total == p.subtotal + p.tax
  }

  predicate PurchaseOk(p: Purchase) {
    LinesOk(p.lines) && StatusAgrees(p) && TotalsOk(p)
  }

  /** No line names a product that is not there. */
  predicate LinesKnown(s: Store, p: Purchase) {
    forall k :: 0 <= k < |p.lines| && p.lines[k].product.Some? ==> p.lines[k].product.value in s.products
  }

  predicate PurchasesOk(s: Store) {
    forall i {:trigger s.purchases[i]} :: i in s.purchases ==> PurchaseOk(s.purchases[i]) && LinesKnown(s, s.purchases[i])
  }

  /** No two purchases come from the same scan. */
  predicate SourcesDistinct(ps: map<Id, Purchase>) {
    forall i, j :: i in ps && j in ps && i != j && ps[i].source.Some? ==> ps[i].source != ps[j].source
  }

  predicate Inv(s: Store) {
    PurchasesOk(s) && SourcesDistinct(s.purchases)
  }

  lemma WrittenOk(status: Status, b: Body)
    requires BodyOk(b) && DistinctInputs(b.lines) && (status == Draft || status == Ordered)
    ensures PurchaseOk(Written(status, b)) && NothingReceived(Written(status, b).lines)
  {
    var p := Written(status, b);
    assert p.lines[0].received < p.lines[0].quantity;
  }

  lemma WriteKeeps(s: Store, id: Id, p: Purchase, current: Option<Id>)
    requires Inv(s) && PurchaseOk(p) && LinesKnown(s, p)
    requires p.source.Some? ==> !SourceTaken(s.purchases, p.source.value, Some(id))
    ensures Inv(s.(purchases := s.purchases[id := p]))
  {
    var t := s.(purchases := s.purchases[id := p]);
    forall i | i in t.purchases
      ensures PurchaseOk(t.purchases[i]) && LinesKnown(t, t.purchases[i])
    {
      assert i != id ==> t.purchases[i] == s.purchases[i];
    }
    forall i, j | i in t.purchases && j in t.purchases && i != j && t.purchases[i].source.Some?
      ensures t.purchases[i].source != t.purchases[j].source
    {
      if i != id && j != id {
        assert s.purchases[i].source != s.purchases[j].source;
      }
    }
  }

  lemma CreateKeeps(s: Store, id: Id, b: Body)
    requires Inv(s) && DoCreate(s, id, b).Done?
    ensures Inv(DoCreate(s, id, b).store)
  {
    WrittenOk(Draft, b);
    WriteKeeps(s, id, Written(Draft, b), None);
  }

  lemma UpdateKeeps(s: Store, id: Id, b: Body)
    requires Inv(s) && DoUpdate(s, id, b).Done?
    ensures Inv(DoUpdate(s, id, b).store)
  {
    var status := s.purchases[id].status;
    WrittenOk(status, b);
    WriteKeeps(s, id, Written(status, b), Some(id));
  }

  lemma OwnSource(s: Store, id: Id)
    requires Inv(s) && id in s.purchases
    ensures s.purchases[id].source.Some? ==> !SourceTaken(s.purchases, s.purchases[id].source.value, Some(id))
  {
  }

  lemma ConfirmKeeps(s: Store, id: Id)
    requires Inv(s) && DoConfirm(s, id).Done?
    ensures Inv(DoConfirm(s, id).store)
  {
    var p := s.purchases[id];
    OwnSource(s, id);
    WriteKeeps(s, id, p.(status := Ordered), Some(id));
  }

  /** What the receipts leave the same. */
  lemma GrownLines(before: seq<Line>, rs: seq<Receipt>, after: seq<Line>)
    requires ReceiptsOk(rs) && rs != [] && LinesOk(before) && Fits(before, rs) && GrownBy(before, rs, after)
    ensures LinesOk(after) && SomethingReceived(after) && Cost(after) == Cost(before)
    ensures forall k :: 0 <= k < |before| ==> after[k].product == before[k].product
  {
    var k := Find(before, rs[0].item);
    assert rs[0].quantity > 0 && Find(before, rs[0].item) < |before|;
    assert after[k].received >= Claimed(rs, before[k].id) >= rs[0].quantity;
    CostIgnoresReceipts(before, after);
  }

  lemma {:induction false} CostIgnoresReceipts(before: seq<Line>, after: seq<Line>)
    requires |before| == |after|
    requires forall k :: 0 <= k < |before| ==> after[k] == before[k].(received := after[k].received)
    ensures Cost(after) == Cost(before)
  {
    if before != [] {
      assert after[0] == before[0].(received := after[0].received);
      CostIgnoresReceipts(before[1..], after[1..]);
    }
  }

  lemma ReceiveKeeps(s: Store, id: Id, rs: seq<Receipt>)
    requires Inv(s) && DoReceive(s, id, rs).Done?
    ensures Inv(DoReceive(s, id, rs).store)
  {
    var p := s.purchases[id];
    var after := ReceiveLines(p.lines, s.products, rs);
    var t := s.(products := after.products);
    LoopMeetsSums(p.lines, s.products, rs);
    GrownLines(p.lines, rs, after.lines);
    StockFollows(p.lines, s.products, rs, 0);
    assert Inv(t);
    OwnSource(t, id);
    assert DoReceive(s, id, rs).store.purchases[id].source == p.source;
    WriteKeeps(t, id, DoReceive(s, id, rs).store.purchases[id], Some(id));
  }

  /** Every request keeps every purchase in order: no line over its quantity, the status in step
      with the receipts, the amounts those of the lines, no scan used twice. */
  lemma StepKeeps(s: Store, c: Command)
    requires Inv(s)
    ensures Inv(Commit(s, c))
  {
    if Step(s, c).Done? {
      match c
      case Create(id, body) => CreateKeeps(s, id, body);
      case Update(id, body) => UpdateKeeps(s, id, body);
      case Confirm(id) => ConfirmKeeps(s, id);
      case Receive(id, receipts) => ReceiveKeeps(s, id, receipts);
      case SetStock(product, newStock) =>
    }
  }

  lemma {:induction false} RunKeeps(s: Store, cs: seq<Command>)
    requires Inv(s)
    ensures Inv(Run(s, cs))
    decreases |cs|
  {
    if cs != [] {
      StepKeeps(s, cs[0]);
      RunKeeps(Commit(s, cs[0]), cs[1..]);
    }
  }

  // ----- receipts -----

  /** A list of receipts is taken exactly when the purchase is out for delivery and the list,
      summed up line by line, fits it; then every line and every stock grows by its own sum,
      and the purchase is received exactly when nothing is missing any more. */
  lemma ReceiptAccepted(s: Store, id: Id, rs: seq<Receipt>)
    requires Inv(s)
    ensures DoReceive(s, id, rs).Done? <==>
              && ReceiptsOk(rs) && rs != [] && id in s.purchases
              && (s.purchases[id].status == Ordered || s.purchases[id].status == PartiallyReceived)
              && Fits(s.purchases[id].lines, rs)
    ensures DoReceive(s, id, rs).Done? ==>
              var p, t := s.purchases[id], DoReceive(s, id, rs).store;
              && t == s.(purchases := t.purchases, products := t.products)
              && t.purchases == s.purchases[id := p.(lines := t.purchases[id].lines, status := t.purchases[id].status)]
              && GrownBy(p.lines, rs, t.purchases[id].lines)
              && (t.purchases[id].status == Received <==> Complete(t.purchases[id].lines))
              && (t.purchases[id].status != Received ==> t.purchases[id].status == PartiallyReceived)
              && t.products.Keys == s.products.Keys
              && forall x :: x in s.products ==>
                   StockOf(t.products, x) - StockOf(s.products, x)
                   == ReceivedOf(t.purchases[id].lines, x) - ReceivedOf(p.lines, x)
  {
    if ReceiptsOk(rs) && id in s.purchases {
      var p := s.purchases[id];
      LoopMeetsSums(p.lines, s.products, rs);
      forall x
        ensures var after := ReceiveLines(p.lines, s.products, rs);
                && after.products.Keys == s.products.Keys
                && (x in s.products ==> StockOf(after.products, x) - StockOf(s.products, x)
                                        == ReceivedOf(after.lines, x) - ReceivedOf(p.lines, x))
      {
        StockFollows(p.lines, s.products, rs, x);
      }
    }
  }

  // ----- stock -----

  ghost function ReceivedBy(product: Id): (Id, Purchase) -> int {
    (i: Id, p: Purchase) => ReceivedOf(p.lines, product)
  }

  /** What all purchases together have received of a product. */
  ghost function ReceivedInAll(s: Store, product: Id): int {
    SumMap(s.purchases, ReceivedBy(product))
  }

  /** How much a request changes a stock other than by receipts. */
  function EditedBy(s: Store, c: Command, product: Id): int {
    if c.SetStock? && c.product == product && product in s.products then Held(c.newStock) - Held(s.products[product]) else 0
  }

  function EditedInAll(s: Store, cs: seq<Command>, product: Id): int
    decreases |cs|
  {
    if cs == [] then 0 else EditedBy(s, cs[0], product) + EditedInAll(Commit(s, cs[0]), cs[1..], product)
  }

  lemma {:induction false} NothingOf(lines: seq<Line>, product: Id)
    requires NothingReceived(lines)
    ensures ReceivedOf(lines, product) == 0
  {
    if lines != [] {
      NothingOf(lines[1..], product);
    }
  }

  /** Writing one purchase changes the sum by what it changes in that purchase. */
  lemma WriteSums(s: Store, id: Id, p: Purchase, product: Id)
    ensures SumMap(s.purchases[id := p], ReceivedBy(product))
         == ReceivedInAll(s, product) - (if id in s.purchases then ReceivedOf(s.purchases[id].lines, product) else 0)
            + ReceivedOf(p.lines, product)
  {
    SumUpdate(s.purchases, ReceivedBy(product), id, p);
  }

  lemma StepConserves(s: Store, c: Command, product: Id)
    requires product in s.products
    ensures product in Commit(s, c).products
    ensures StockOf(Commit(s, c).products, product) - StockOf(s.products, product)
         == ReceivedInAll(Commit(s, c), product) - ReceivedInAll(s, product) + EditedBy(s, c, product)
  {
    if Step(s, c).Done? {
      match c
      case Create(id, body) =>
        WriteSums(s, id, Written(Draft, body), product);
        NothingOf(Written(Draft, body).lines, product);
      case Update(id, body) =>
        var p := Written(s.purchases[id].status, body);
        WriteSums(s, id, p, product);
        NothingOf(p.lines, product);
        NothingOf(s.purchases[id].lines, product);
      case Confirm(id) =>
        WriteSums(s, id, s.purchases[id].(status := Ordered), product);
      case Receive(id, receipts) =>
        StockFollows(s.purchases[id].lines, s.products, receipts, product);
        WriteSums(s, id, DoReceive(s, id, receipts).store.purchases[id], product);
      case SetStock(x, newStock) =>
    }
  }

  /** Conservation: over any run, what a product's stock gains, apart from what other edits
      change, is what all lines of all purchases have received of it meanwhile. */
  lemma {:induction false} ReceiptConservation(s: Store, cs: seq<Command>, product: Id)
    requires product in s.products
    ensures product in Run(s, cs).products
    ensures StockOf(Run(s, cs).products, product) - StockOf(s.products, product)
         == ReceivedInAll(Run(s, cs), product) - ReceivedInAll(s, product) + EditedInAll(s, cs, product)
    decreases |cs|
  {
    if cs != [] {
      StepConserves(s, cs[0], product);
      ReceiptConservation(Commit(s, cs[0]), cs[1..], product);
    }
  }

  // ----- what is received stays -----

  /** The same purchase with at least as much received. */
  predicate Advanced(p: Purchase, q: Purchase) {
    && q == p.(lines := q.lines, status := q.status)
    && |q.lines| == |p.lines|
    && forall k :: 0 <= k < |p.lines| ==>
         q.lines[k] == p.lines[k].(received := q.lines[k].received) && p.lines[k].received <= q.lines[k].received
  }

  lemma ReceiveAdvances(s: Store, id: Id, rs: seq<Receipt>)
    requires Inv(s) && DoReceive(s, id, rs).Done?
    ensures id in DoReceive(s, id, rs).store.purchases
    ensures Advanced(s.purchases[id], DoReceive(s, id, rs).store.purchases[id])
    ensures s.purchases[id].status != Received
  {
    LoopMeetsSums(s.purchases[id].lines, s.products, rs);
  }

  lemma StepAdvances(s: Store, c: Command, id: Id)
    requires Inv(s) && id in s.purchases && SomethingReceived(s.purchases[id].lines)
    ensures id in Commit(s, c).purchases && Advanced(s.purchases[id], Commit(s, c).purchases[id])
    ensures s.purchases[id].status == Received ==> Commit(s, c).purchases[id] == s.purchases[id]
  {
    if c.Receive? && Step(s, c).Done? {
      ReceiveAdvances(s, c.id, c.receipts);
    } else {
      assert PurchaseOk(s.purchases[id]);
      OnlyReceiptsAdvance(s, c, id);
    }
  }

  /** No other request touches a purchase of which something was received. */
  lemma OnlyReceiptsAdvance(s: Store, c: Command, id: Id)
    requires id in s.purchases && StatusAgrees(s.purchases[id]) && SomethingReceived(s.purchases[id].lines)
    requires c.Receive? ==> Step(s, c).Refused?
    ensures id in Commit(s, c).purchases && Commit(s, c).purchases[id] == s.purchases[id]
  {
  }

  lemma AdvancedFurther(p: Purchase, q: Purchase, r: Purchase)
    requires Advanced(p, q) && Advanced(q, r)
    ensures Advanced(p, r)
  {
    forall k | 0 <= k < |p.lines|
      ensures r.lines[k] == p.lines[k].(received := r.lines[k].received) && p.lines[k].received <= r.lines[k].received
    {
      assert q.lines[k] == p.lines[k].(received := q.lines[k].received);
      assert r.lines[k] == q.lines[k].(received := r.lines[k].received);
    }
  }

  /** Once anything is received, the terms of a purchase and its lines are fixed and receipts only
      add up; a purchase that is fully received never changes again. */
  lemma {:induction false} FixedOnceReceived(s: Store, cs: seq<Command>, id: Id)
    requires Inv(s) && id in s.purchases && SomethingReceived(s.purchases[id].lines)
    ensures id in Run(s, cs).purchases && Advanced(s.purchases[id], Run(s, cs).purchases[id])
    ensures s.purchases[id].status == Received ==> Run(s, cs).purchases[id] == s.purchases[id]
    decreases |cs|
  {
    if cs != [] {
      var t := Commit(s, cs[0]);
      StepAdvances(s, cs[0], id);
      StepKeeps(s, cs[0]);
      assert SomethingReceived(t.purchases[id].lines) by {
        var k :| 0 <= k < |s.purchases[id].lines| && s.purchases[id].lines[k].received > 0;
        assert t.purchases[id].lines[k].received > 0;
      }
      FixedOnceReceived(t, cs[1..], id);
      AdvancedFurther(s.purchases[id], t.purchases[id], Run(s, cs).purchases[id]);
    }
  }
}
