/** What a list of receipts does: it goes through exactly when, summed up line by line, it fits
    what was ordered, and then lines and stock grow by the same quantities. */
module Receipts {
  import opened Options
  import opened Purchases

  /** The quantity a list of receipts brings in for one line, repeated entries added up. */
  function Claimed(rs: seq<Receipt>, id: Id): nat
    requires ReceiptsOk(rs)
  {
    if rs == [] then 0 else (if rs[0].item == id then rs[0].quantity else 0) + Claimed(rs[1..], id)
  }

  predicate Known(lines: seq<Line>, rs: seq<Receipt>) {
    forall n :: 0 <= n < |rs| ==> Find(lines, rs[n].item) < |lines|
  }

  predicate Fits(lines: seq<Line>, rs: seq<Receipt>)
    requires ReceiptsOk(rs)
  {
    && Known(lines, rs)
    && forall k :: 0 <= k < |lines| ==> lines[k].received + Claimed(rs, lines[k].id) <= lines[k].quantity
  }

  predicate DistinctIds(lines: seq<Line>) {
    forall j, k :: 0 <= j < k < |lines| ==> lines[j].id != lines[k].id
  }

  predicate WithinQuantity(lines: seq<Line>) {
    forall k :: 0 <= k < |lines| ==> lines[k].received <= lines[k].quantity
  }

  predicate GrownBy(before: seq<Line>, rs: seq<Receipt>, after: seq<Line>)
    requires ReceiptsOk(rs)
  {
    && |after| == |before|
    && forall k :: 0 <= k < |before| ==>
         after[k] == before[k].(received := before[k].received + Claimed(rs, before[k].id))
  }

  // ----- lines -----

  lemma {:induction false} FindSameIds(a: seq<Line>, b: seq<Line>, id: Id)
    requires |a| == |b| && forall k :: 0 <= k < |a| ==> a[k].id == b[k].id
    ensures Find(a, id) == Find(b, id)
  {
    if a != [] {
      assert a[0].id == b[0].id;
      if a[0].id != id {
        FindSameIds(a[1..], b[1..], id);
      }
    }
  }

  lemma {:induction false} TailKnown(lines: seq<Line>, rs: seq<Receipt>)
    requires rs != [] && Find(lines, rs[0].item) < |lines| && Known(lines, rs[1..])
    ensures Known(lines, rs)
  {
    forall n | 0 <= n < |rs|
      ensures Find(lines, rs[n].item) < |lines|
    {
      assert n > 0 ==> rs[1..][n - 1] == rs[n];
    }
  }

  lemma {:induction false} KnownRest(lines: seq<Line>, rs: seq<Receipt>)
    requires rs != [] && Known(lines, rs)
    ensures Known(lines, rs[1..])
  {
    forall n | 0 <= n < |rs[1..]|
      ensures Find(lines, rs[1..][n].item) < |lines|
    {
      assert rs[1..][n] == rs[n + 1];
    }
  }

  lemma {:induction false} KnownTail(lines: seq<Line>, rs: seq<Receipt>)
    requires rs != []
    ensures Known(lines, rs) <==> Find(lines, rs[0].item) < |lines| && Known(lines, rs[1..])
  {
    if Find(lines, rs[0].item) < |lines| && Known(lines, rs[1..]) {
      TailKnown(lines, rs);
    }
    if Known(lines, rs) {
      KnownRest(lines, rs);
    }
  }

  /** After one receipt that fits, the others fit when the whole list did. */
  lemma FitsStep(lines: seq<Line>, next: seq<Line>, rs: seq<Receipt>)
    requires DistinctIds(lines) && rs != [] && ReceiptsOk(rs)
    requires Receivable(lines, rs[0]) && next == ReceiveLine(lines, rs[0])
    ensures Fits(lines, rs) <==> Fits(next, rs[1..])
    ensures forall after :: GrownBy(next, rs[1..], after) ==> GrownBy(lines, rs, after)
  {
    var k := Find(lines, rs[0].item);
    KnownTail(lines, rs);
    forall n | 0 <= n < |rs[1..]|
      ensures Find(lines, rs[1..][n].item) == Find(next, rs[1..][n].item)
    {
      FindSameIds(lines, next, rs[1..][n].item);
    }
    assert Known(lines, rs[1..]) <==> Known(next, rs[1..]);
    SumsStep(lines, next, rs);
  }

  lemma SumsStep(lines: seq<Line>, next: seq<Line>, rs: seq<Receipt>)
    requires DistinctIds(lines) && rs != [] && ReceiptsOk(rs)
    requires Receivable(lines, rs[0]) && next == ReceiveLine(lines, rs[0])
    ensures forall j :: 0 <= j < |lines| ==>
              next[j].received + Claimed(rs[1..], next[j].id) == lines[j].received + Claimed(rs, lines[j].id)
  {
    var k := Find(lines, rs[0].item);
    forall j | 0 <= j < |lines|
      ensures next[j].received + Claimed(rs[1..], next[j].id) == lines[j].received + Claimed(rs, lines[j].id)
    {
      assert j != k ==> lines[j].id != rs[0].item;
    }
  }

  /** The loop gets through exactly when the list fits, and then adds each line's sum. */
  lemma {:induction false} LoopMeetsSums(lines: seq<Line>, products: map<Id, Product>, rs: seq<Receipt>)
    requires DistinctIds(lines) && WithinQuantity(lines) && ReceiptsOk(rs)
    ensures ReceiveLines(lines, products, rs).through <==> Fits(lines, rs)
    ensures ReceiveLines(lines, products, rs).through ==> GrownBy(lines, rs, ReceiveLines(lines, products, rs).lines)
    decreases |rs|
  {
    if rs == [] {
    } else if Receivable(lines, rs[0]) {
      var next := ReceiveLine(lines, rs[0]);
      FitsStep(lines, next, rs);
      LoopMeetsSums(next, Restocked(products, lines[Find(lines, rs[0].item)].product, rs[0].quantity), rs[1..]);
    } else {
      KnownTail(lines, rs);
      var k := Find(lines, rs[0].item);
      assert k < |lines| ==> lines[k].received + Claimed(rs, lines[k].id) > lines[k].quantity;
    }
  }

  // ----- stock -----

  /** What the lines have received of one product. */
  function ReceivedOf(lines: seq<Line>, product: Id): nat {
    if lines == [] then 0
    else (if lines[0].product == Some(product) then lines[0].received else 0) + ReceivedOf(lines[1..], product)
  }

  lemma {:induction false} ReceivedUpdate(lines: seq<Line>, k: nat, quantity: nat, product: Id)
    requires k < |lines|
    ensures ReceivedOf(lines[k := lines[k].(received := lines[k].received + quantity)], product)
         == ReceivedOf(lines, product) + if lines[k].product == Some(product) then quantity else 0
  {
    var next := lines[k := lines[k].(received := lines[k].received + quantity)];
    if k > 0 {
      assert next[1..] == lines[1..][k - 1 := lines[1..][k - 1].(received := lines[1..][k - 1].received + quantity)];
      ReceivedUpdate(lines[1..], k - 1, quantity, product);
    }
  }

  /** The stock held of a product. */
  function StockOf(products: map<Id, Product>, product: Id): int {
    if product in products then Held(products[product]) else 0
  }

  /** Each product's stock grows by what its lines receive. */
  lemma {:induction false} StockFollows(lines: seq<Line>, products: map<Id, Product>, rs: seq<Receipt>, product: Id)
    requires ReceiptsOk(rs)
    ensures var after := ReceiveLines(lines, products, rs);
            && after.products.Keys == products.Keys
            && (product in products ==>
                  StockOf(after.products, product) - StockOf(products, product)
                  == ReceivedOf(after.lines, product) - ReceivedOf(lines, product))
    decreases |rs|
  {
    if rs != [] && Receivable(lines, rs[0]) {
      var k := Find(lines, rs[0].item);
      ReceivedUpdate(lines, k, rs[0].quantity, product);
      StockFollows(ReceiveLine(lines, rs[0]), Restocked(products, lines[k].product, rs[0].quantity), rs[1..], product);
    }
  }

  /** The stock of a product none of whose lines grew is not touched. */
  lemma {:induction false} OtherStockKept(lines: seq<Line>, products: map<Id, Product>, rs: seq<Receipt>, product: Id)
    requires ReceiptsOk(rs) && product in products
    requires forall k :: 0 <= k < |lines| ==> lines[k].product != Some(product)
    ensures product in ReceiveLines(lines, products, rs).products
    ensures ReceiveLines(lines, products, rs).products[product] == products[product]
    decreases |rs|
  {
    if rs != [] && Receivable(lines, rs[0]) {
      var k := Find(lines, rs[0].item);
      OtherStockKept(ReceiveLine(lines, rs[0]), Restocked(products, lines[k].product, rs[0].quantity), rs[1..], product);
    }
  }

  /** Some receipt of the list is for a line of this product. */
  predicate Touched(lines: seq<Line>, rs: seq<Receipt>, product: Id) {
    exists n :: 0 <= n < |rs|
             && Find(lines, rs[n].item) < |lines| && lines[Find(lines, rs[n].item)].product == Some(product)
  }

  /** A list that goes through turns on stock keeping for the products it brings in and leaves the
      others as they were. */
  lemma {:induction false} StockTouched(lines: seq<Line>, products: map<Id, Product>, rs: seq<Receipt>, product: Id)
    requires ReceiptsOk(rs) && product in products && ReceiveLines(lines, products, rs).through
    ensures product in ReceiveLines(lines, products, rs).products
    ensures var after := ReceiveLines(lines, products, rs).products[product];
            && (products[product].trackStock || Touched(lines, rs, product) ==> after.trackStock)
            && (!Touched(lines, rs, product) ==> after == products[product])
    decreases |rs|
  {
    if rs != [] {
      var k := Find(lines, rs[0].item);
      var next := ReceiveLine(lines, rs[0]);
      TouchedTail(lines, next, rs, product);
      StockTouched(next, Restocked(products, lines[k].product, rs[0].quantity), rs[1..], product);
    }
  }

  lemma TouchedTail(lines: seq<Line>, next: seq<Line>, rs: seq<Receipt>, product: Id)
    requires rs != [] && Find(lines, rs[0].item) < |lines| && |next| == |lines|
    requires forall k :: 0 <= k < |lines| ==> next[k].id == lines[k].id && next[k].product == lines[k].product
    ensures Touched(lines, rs, product)
       <==> lines[Find(lines, rs[0].item)].product == Some(product) || Touched(next, rs[1..], product)
  {
    forall n | 1 <= n < |rs|
      ensures rs[1..][n - 1] == rs[n] && Find(next, rs[n].item) == Find(lines, rs[n].item)
    {
      FindSameIds(lines, next, rs[n].item);
    }
    if Touched(next, rs[1..], product) {
      var m :| 0 <= m < |rs[1..]| && Find(next, rs[1..][m].item) < |next|
            && next[Find(next, rs[1..][m].item)].product == Some(product);
      assert rs[m + 1] == rs[1..][m];
    }
  }
}
