/** Exactly which requests on orders are committed, and what the committed ones leave. The conditions
    are spelled out on the stored rows and the request. */
module OrderRequests {
  import opened Options
  import opened Orders
  import opened Repository
  import opened UseCases
  import opened OrderInvariant
  import opened Ledger
  import Deliveries
  import Money
  import Text
  import Totals

  // ----- what a request may find -----

  predicate Live(t: Tables, id: Id) {
    id in t.orders && !t.orders[id].isDeleted
  }

  /** Neither money nor goods have touched the order. In every reachable store this is when its terms
      may change. */
  predicate Editable(o: OrderState) {
    (o.status == Draft || o.status == OrderStatus.Confirmed) && o.paid == 0
  }

  predicate LinesFine(items: seq<Item>) {
    forall k :: 0 <= k < |items| ==>
      0 < items[k].quantity && !Text.IsBlank(items[k].description)
      && items[k].invoiced <= items[k].delivered <= items[k].quantity
  }

  predicate Loadable(o: OrderState) {
    |o.currency| == 3 && LinesFine(o.items)
  }

  /** The discount is at most what the lines, their tax and the shipping come to. */
  predicate Affordable(o: OrderState) {
    o.discount <= Subtotal(o.items) + Money.HalfUp(Subtotal(o.items), o.taxRate) + o.shipping
  }

  lemma EditableExactly(o: OrderState)
    requires OrderInv(o)
    ensures CanEdit(o) <==> Editable(o)
    ensures CanEdit(o) ==> NothingDelivered(o.items)
  {
  }

  // ----- edits in general -----

  /** An edit loads the order, changes it, saves it and answers with it. */
  lemma EditStep(t: Tables, c: Command, o: OrderState)
    requires IsEdit(c) && (c.UpdateOrder? ==> c.orderEdit.lines != Some([]))
    requires Live(t, c.orderId) && o == Entity(t.orders[c.orderId])
    ensures Step(t, c).Ok? <==>
              Load(t.orders[c.orderId]).Ok? && Changed(o, c).Ok? && SaveAndRespond(t, Changed(o, c).value).Ok?
    ensures Step(t, c).Ok? ==> Step(t, c) == SaveAndRespond(t, Changed(o, c).value)
  {
    assert Step(t, c) == DoEdit(t, c);
  }

  lemma NoOrderNoEdit(t: Tables, c: Command)
    requires IsEdit(c) && !Live(t, c.orderId)
    ensures Step(t, c).Err?
  {
    assert Step(t, c) == DoEdit(t, c);
  }

  /** Before any delivery only the total can stand in the way of a response. */
  lemma UntouchedResponse(o: OrderState)
    requires NothingDelivered(o.items)
    ensures Respond(o).Ok? <==> CurrencyOk(o.currency) && Affordable(o)
  {
    NothingDeliveredYet(o.items);
    if Subtotal(o.items) > 0 {
      Money.FloorUnique(o.discount * 0, Subtotal(o.items), 0);
    }
  }

  lemma UntouchedWritten(t: Tables, o: OrderState)
    requires NothingDelivered(o.items)
    ensures SaveAndRespond(t, o).Ok? <==> Loadable(o) && Affordable(o)
    ensures SaveAndRespond(t, o).Ok? ==> SaveAndRespond(t, o).value == t.(orders := t.orders[o.id := ToRow(o)])
  {
    SaveThenLoad(o);
    UntouchedResponse(o);
  }

  /** An edit that leaves the order n, nothing of it delivered, or none when it is refused. */
  lemma EditCommitted(t: Tables, c: Command, o: OrderState, n: OrderState)
    requires IsEdit(c) && (c.UpdateOrder? ==> c.orderEdit.lines != Some([]))
    requires Live(t, c.orderId) && o == Entity(t.orders[c.orderId]) && o.id == c.orderId
    requires n.id == o.id && n.currency == o.currency && NothingDelivered(n.items)
    requires Changed(o, c).Ok? ==> Changed(o, c).value == n
    ensures Step(t, c).Ok? <==> LinesFine(o.items) && Changed(o, c).Ok? && Loadable(n) && Affordable(n)
    ensures Step(t, c).Ok? ==> Step(t, c).value == t.(orders := t.orders[c.orderId := ToRow(n)])
  {
    EditStep(t, c, o);
    UntouchedWritten(t, n);
  }

  // ----- lines -----

  predicate LineProper(l: NewLine) {
    l.quantity > 0 && !Text.IsBlank(l.description)
  }

  predicate AllProper(lines: seq<NewLine>) {
    forall k :: 0 <= k < |lines| ==> LineProper(lines[k])
  }

  predicate DistinctNew(lines: seq<NewLine>) {
    forall j, k :: 0 <= j < k < |lines| ==> lines[j].id != lines[k].id
  }

  /** The line a request writes: its own data, nothing delivered or invoiced. */
  function Written(l: NewLine, position: nat): Item
    requires LineProper(l)
  {
    Item(l.id, l.description, l.quantity, l.unitPrice, l.unit, position, 0, 0)
  }

  lemma BuildExactly(l: NewLine, currency: string, position: nat)
    requires |currency| == 3
    ensures BuildItem(l, currency, position).Ok? <==> LineProper(l)
    ensures BuildItem(l, currency, position).Ok? ==> BuildItem(l, currency, position).value == Written(l, position)
  {
  }

  lemma {:induction false} FindsId(items: seq<Item>, id: Id)
    ensures IndexOf(items, id) < |items| <==> exists k :: 0 <= k < |items| && items[k].id == id
  {
    if items != [] && items[0].id != id {
      FindsId(items[1..], id);
      assert forall k :: 1 <= k < |items| ==> items[k] == items[1..][k - 1];
    }
  }

  // ----- creating -----

  /** Lines in the order given; one without a sort order gets its place in the request. */
  function Placed(lines: seq<NewLine>, from: nat): (r: seq<Item>)
    requires AllProper(lines)
    ensures |r| == |lines|
  {
    seq(|lines|, k requires 0 <= k < |lines| =>
      assert LineProper(lines[k]);
      Written(lines[k], if lines[k].sortOrder != 0 then lines[k].sortOrder else from + k))
  }

  predicate NoneNamed(items: seq<Item>, lines: seq<NewLine>) {
    forall j, k :: 0 <= j < |items| && 0 <= k < |lines| ==> items[j].id != lines[k].id
  }

  lemma {:induction false} LinesAdded(o: OrderState, lines: seq<NewLine>, from: nat)
    requires |o.currency| == 3 && CanEdit(o)
    ensures AddLines(o, lines, from).Ok? <==> AllProper(lines) && DistinctNew(lines) && NoneNamed(o.items, lines)
    ensures AddLines(o, lines, from).Ok? ==>
              AddLines(o, lines, from).value == o.(items := o.items + Placed(lines, from))
    decreases |lines|
  {
    if lines == [] {
      assert o.items + Placed(lines, from) == o.items;
    } else if LineProper(lines[0]) && IndexOf(o.items, lines[0].id) == |o.items| {
      var item := Written(lines[0], if lines[0].sortOrder != 0 then lines[0].sortOrder else from);
      FirstAdded(o, lines, from, item);
      LinesAdded(o.(items := o.items + [item]), lines[1..], from + 1);
      TailAdded(o.items, item, lines);
      if AllProper(lines) {
        PlacedTail(o.items, lines, from);
      }
    } else {
      FirstRefused(o, lines, from);
    }
  }

  lemma FirstAdded(o: OrderState, lines: seq<NewLine>, from: nat, item: Item)
    requires |o.currency| == 3 && CanEdit(o) && lines != [] && LineProper(lines[0])
    requires item == Written(lines[0], if lines[0].sortOrder != 0 then lines[0].sortOrder else from)
    requires IndexOf(o.items, lines[0].id) == |o.items|
    ensures AddLines(o, lines, from) == AddLines(o.(items := o.items + [item]), lines[1..], from + 1)
    ensures CanEdit(o.(items := o.items + [item]))
  {
    BuildExactly(lines[0], o.currency, item.sortOrder);
    assert WithItem(o, item) == Ok(o.(items := o.items + [item]));
  }

  lemma FirstRefused(o: OrderState, lines: seq<NewLine>, from: nat)
    requires |o.currency| == 3 && lines != []
    requires LineProper(lines[0]) ==> IndexOf(o.items, lines[0].id) < |o.items|
    ensures AddLines(o, lines, from).Err?
    ensures !AllProper(lines) || !NoneNamed(o.items, lines)
  {
    BuildExactly(lines[0], o.currency, if lines[0].sortOrder != 0 then lines[0].sortOrder else from);
    FindsId(o.items, lines[0].id);
  }

  lemma PlacedTail(items: seq<Item>, lines: seq<NewLine>, from: nat)
    requires lines != [] && AllProper(lines) && AllProper(lines[1..])
    ensures var item := Written(lines[0], if lines[0].sortOrder != 0 then lines[0].sortOrder else from);
            items + [item] + Placed(lines[1..], from + 1) == items + Placed(lines, from)
  {
    assert Placed(lines, from) == [Placed(lines, from)[0]] + Placed(lines[1..], from + 1);
  }

  lemma TailAdded(items: seq<Item>, item: Item, lines: seq<NewLine>)
    requires lines != [] && item.id == lines[0].id && LineProper(lines[0])
    requires forall j :: 0 <= j < |items| ==> items[j].id != item.id
    ensures AllProper(lines) && DistinctNew(lines) && NoneNamed(items, lines)
       <==> AllProper(lines[1..]) && DistinctNew(lines[1..]) && NoneNamed(items + [item], lines[1..])
  {
    assert forall k :: 1 <= k < |lines| ==> lines[k] == lines[1..][k - 1];
    assert (items + [item])[|items|] == item;
    assert forall j :: 0 <= j < |items| ==> (items + [item])[j] == items[j];
    if AllProper(lines[1..]) && DistinctNew(lines[1..]) && NoneNamed(items + [item], lines[1..]) {
      forall k | 1 <= k < |lines|
        ensures lines[k].id != item.id && LineProper(lines[k])
      {
        assert (items + [item])[|items|].id != lines[1..][k - 1].id;
      }
    }
  }

  /** The order a request asks for. */
  function Asked(c: Command): OrderState
    requires c.CreateOrder? && AllProper(c.lines)
  {
    OrderState(c.orderId, c.currency, c.taxRate, c.discount, c.shipping, c.dueDate, Draft, Pending,
               Placed(c.lines, 0), 0, 0, false)
  }

  predicate CreateFits(t: Tables, c: Command)
    requires c.CreateOrder?
  {
    && c.client == ActiveClient && c.orderId !in t.orders && |c.currency| == 3
    && AllProper(c.lines) && DistinctNew(c.lines) && Affordable(Asked(c))
  }

  /** An order is created exactly for an active client, under a new id, in a three-letter currency,
      from proper lines with distinct ids, when its discount fits. The row then has the terms of the
      request and its lines one for one. */
  lemma CreateCommitted(t: Tables, c: Command)
    requires c.CreateOrder?
    ensures Step(t, c).Ok? <==> CreateFits(t, c)
    ensures Step(t, c).Ok? ==> Step(t, c).value == t.(orders := t.orders[c.orderId := ToRow(Asked(c))])
  {
    CreateStep(t, c);
    if |c.currency| == 3 {
      AskedLines(c);
      if AllProper(c.lines) {
        UntouchedWritten(t, Asked(c));
      }
    } else {
      NoCurrencyNoOrder(t, c);
    }
  }

  lemma CreateStep(t: Tables, c: Command)
    requires c.CreateOrder?
    ensures Step(t, c) == DoCreate(t, c)
    ensures var o := AddLines(NewOrder(c), c.lines, 0);
            && (Step(t, c).Ok? <==>
                  && c.client == ActiveClient && c.orderId !in t.orders
                  && o.Ok? && SaveAndRespond(t, o.value).Ok?)
            && (Step(t, c).Ok? ==> Step(t, c) == SaveAndRespond(t, o.value))
  {
  }

  /** The lines of a new order, and the order they make. */
  lemma AskedLines(c: Command)
    requires c.CreateOrder? && |c.currency| == 3
    ensures AddLines(NewOrder(c), c.lines, 0).Ok? <==> AllProper(c.lines) && DistinctNew(c.lines)
    ensures AddLines(NewOrder(c), c.lines, 0).Ok? ==> AddLines(NewOrder(c), c.lines, 0).value == Asked(c)
    ensures AllProper(c.lines) ==> NothingDelivered(Asked(c).items) && Loadable(Asked(c))
  {
    LinesAdded(NewOrder(c), c.lines, 0);
    if AllProper(c.lines) {
      assert [] + Placed(c.lines, 0) == Placed(c.lines, 0);
      forall k | 0 <= k < |c.lines|
        ensures LineProper(c.lines[k])
      {
      }
    }
  }

  lemma NoCurrencyNoOrder(t: Tables, c: Command)
    requires c.CreateOrder? && |c.currency| != 3
    ensures DoCreate(t, c).Err?
  {
    if c.lines == [] {
      UntouchedWritten(t, NewOrder(c));
    }
  }

  // ----- adding a line -----

  function WithLine(o: OrderState, l: NewLine): OrderState
    requires LineProper(l)
  {
    o.(items := o.items + [Written(l, l.sortOrder)])
  }

  predicate AddFits(t: Tables, id: Id, l: NewLine) {
    && Live(t, id) && LineProper(l)
    && var o := Entity(t.orders[id]);
    && Editable(o) && Loadable(o) && (forall k :: 0 <= k < |o.items| ==> o.items[k].id != l.id)
    && Affordable(WithLine(o, l))
  }

  /** A line is added exactly to a live, loadable order that money and goods have not touched, under an
      id it does not have yet, when the discount then fits; it comes after the lines already there. */
  lemma AddCommitted(t: Tables, id: Id, l: NewLine)
    requires OrdersInv(t.orders)
    ensures Step(t, AddItem(id, l)).Ok? <==> AddFits(t, id, l)
    ensures Step(t, AddItem(id, l)).Ok? ==>
              Step(t, AddItem(id, l)).value == t.(orders := t.orders[id := ToRow(WithLine(Entity(t.orders[id]), l))])
  {
    if Live(t, id) {
      var o := Entity(t.orders[id]);
      assert RowInv(id, t.orders[id]);
      AddChanges(o, id, l);
      EditableExactly(o);
      if Changed(o, AddItem(id, l)).Ok? {
        EditCommitted(t, AddItem(id, l), o, WithLine(o, l));
        LinesAfter(o.items, Written(l, l.sortOrder));
      } else {
        EditStep(t, AddItem(id, l), o);
      }
    } else {
      NoOrderNoEdit(t, AddItem(id, l));
    }
  }

  lemma AddChanges(o: OrderState, id: Id, l: NewLine)
    ensures Changed(o, AddItem(id, l)).Ok? <==>
              && |o.currency| == 3 && LineProper(l) && CanEdit(o)
              && forall k :: 0 <= k < |o.items| ==> o.items[k].id != l.id
    ensures Changed(o, AddItem(id, l)).Ok? ==>
              Changed(o, AddItem(id, l)).value == WithLine(o, l) && NothingDelivered(WithLine(o, l).items)
  {
    FindsId(o.items, l.id);
  }

  lemma LinesAfter(items: seq<Item>, item: Item)
    ensures LinesFine(items + [item]) <==> LinesFine(items) && LinesFine([item])
  {
    assert forall k :: 0 <= k < |items| ==> (items + [item])[k] == items[k];
    assert (items + [item])[|items|] == item && [item][0] == item;
  }

  // ----- removing a line -----

  function WithoutLine(o: OrderState, k: nat): OrderState
    requires k < |o.items|
  {
    o.(items := o.items[..k] + o.items[k + 1..])
  }

  predicate RemoveFits(t: Tables, id: Id, itemId: Id, k: nat) {
    && Live(t, id)
    && var o := Entity(t.orders[id]);
    && k < |o.items| && o.items[k].id == itemId
    && Editable(o) && Loadable(o) && Affordable(WithoutLine(o, k))
  }

  /** A line is removed exactly from a live, loadable order that money and goods have not touched and
      that has it, when the discount then fits; the other lines stay in their order. */
  lemma RemoveCommitted(t: Tables, id: Id, itemId: Id)
    requires OrdersInv(t.orders)
    ensures Step(t, RemoveItem(id, itemId)).Ok? <==> exists k :: RemoveFits(t, id, itemId, k)
    ensures forall k :: RemoveFits(t, id, itemId, k) ==>
              Step(t, RemoveItem(id, itemId)).value
              == t.(orders := t.orders[id := ToRow(WithoutLine(Entity(t.orders[id]), k))])
  {
    if Live(t, id) {
      var o := Entity(t.orders[id]);
      assert RowInv(id, t.orders[id]);
      EditableExactly(o);
      if k: nat :| k < |o.items| && o.items[k].id == itemId {
        RemoveCommittedAt(t, id, itemId, o, k);
        assert forall j :: RemoveFits(t, id, itemId, j) ==> j == k;
      } else {
        RemovesNone(o.items, itemId);
        EditStep(t, RemoveItem(id, itemId), o);
      }
    } else {
      NoOrderNoEdit(t, RemoveItem(id, itemId));
    }
  }

  lemma RemoveCommittedAt(t: Tables, id: Id, itemId: Id, o: OrderState, k: nat)
    requires Live(t, id) && o == Entity(t.orders[id]) && o.id == id && OrderInv(o)
    requires k < |o.items| && o.items[k].id == itemId
    ensures Step(t, RemoveItem(id, itemId)).Ok? <==> RemoveFits(t, id, itemId, k)
    ensures Step(t, RemoveItem(id, itemId)).Ok? ==>
              Step(t, RemoveItem(id, itemId)).value == t.(orders := t.orders[id := ToRow(WithoutLine(o, k))])
  {
    RemoveChanges(o, RemoveItem(id, itemId), k);
    if CanEdit(o) {
      EditCommitted(t, RemoveItem(id, itemId), o, WithoutLine(o, k));
    } else {
      EditStep(t, RemoveItem(id, itemId), o);
    }
  }

  lemma RemoveChanges(o: OrderState, c: Command, k: nat)
    requires OrderInv(o) && c.RemoveItem? && k < |o.items| && o.items[k].id == c.itemId
    ensures CanEdit(o) <==> Editable(o)
    ensures Changed(o, c).Ok? <==> CanEdit(o)
    ensures Changed(o, c).Ok? ==> Changed(o, c).value == WithoutLine(o, k)
    ensures CanEdit(o) ==> NothingDelivered(WithoutLine(o, k).items)
    ensures LinesFine(o.items) ==> LinesFine(WithoutLine(o, k).items)
  {
    EditableExactly(o);
    RemovesOne(o.items, c.itemId, k);
    assert Changed(o, c) == WithoutItem(o, c.itemId);
  }

  lemma {:induction false} RemovesOne(items: seq<Item>, id: Id, k: nat)
    requires DistinctIds(items) && k < |items| && items[k].id == id
    ensures Without(items, id) == items[..k] + items[k + 1..]
    ensures |Without(items, id)| != |items|
  {
    if k == 0 {
      forall j | 0 <= j < |items[1..]|
        ensures items[1..][j].id != id
      {
        assert items[1..][j] == items[j + 1];
      }
      RemovesNone(items[1..], id);
    } else {
      assert items[1..][k - 1] == items[k];
      RemovesOne(items[1..], id, k - 1);
      assert [items[0]] + items[1..][..k - 1] == items[..k] && items[1..][k..] == items[k + 1..];
    }
  }

  lemma {:induction false} RemovesNone(items: seq<Item>, id: Id)
    requires forall k :: 0 <= k < |items| ==> items[k].id != id
    ensures Without(items, id) == items
  {
    if items != [] {
      assert forall k :: 0 <= k < |items[1..]| ==> items[1..][k] == items[k + 1];
      RemovesNone(items[1..], id);
    }
  }

  // ----- editing a line -----

  /** The line with the data that was given; an empty unit takes the unit away. */
  function EditedLine(i: Item, e: ItemEdit): Item
    requires e.quantity.Some? ==> e.quantity.value > 0
  {
    Item(i.id,
         if e.description.Some? then Text.Strip(e.description.value) else i.description,
         if e.quantity.Some? then e.quantity.value else i.quantity,
         if e.unitPrice.Some? then e.unitPrice.value else i.unitPrice,
         if e.unit == Some("") then None else if e.unit.Some? then e.unit else i.unit,
         i.sortOrder, i.delivered, i.invoiced)
  }

  predicate EditProper(e: ItemEdit) {
    && (e.description.Some? ==> !Text.IsBlank(e.description.value))
    && (e.quantity.Some? ==> e.quantity.value > 0)
  }

  function WithEditedLine(o: OrderState, k: nat, e: ItemEdit): OrderState
    requires k < |o.items| && EditProper(e)
  {
    o.(items := o.items[k := EditedLine(o.items[k], e)])
  }

  predicate LineEditFits(t: Tables, id: Id, itemId: Id, e: ItemEdit, k: nat) {
    && Live(t, id) && EditProper(e)
    && var o := Entity(t.orders[id]);
    && k < |o.items| && o.items[k].id == itemId
    && Editable(o) && Loadable(o) && Affordable(WithEditedLine(o, k, e))
  }

  /** A line is edited exactly on a live, loadable order that money and goods have not touched and that
      has it, when the data given is proper and the discount then fits; nothing else changes. */
  lemma LineEditCommitted(t: Tables, id: Id, itemId: Id, e: ItemEdit)
    requires OrdersInv(t.orders)
    ensures Step(t, UpdateItem(id, itemId, e)).Ok? <==> exists k :: LineEditFits(t, id, itemId, e, k)
    ensures forall k :: LineEditFits(t, id, itemId, e, k) ==>
              Step(t, UpdateItem(id, itemId, e)).value
              == t.(orders := t.orders[id := ToRow(WithEditedLine(Entity(t.orders[id]), k, e))])
  {
    if Live(t, id) {
      var o := Entity(t.orders[id]);
      assert RowInv(id, t.orders[id]);
      if k: nat :| k < |o.items| && o.items[k].id == itemId {
        LineEditCommittedAt(t, id, itemId, e, o, k);
        assert forall j :: LineEditFits(t, id, itemId, e, j) ==> j == k;
      } else {
        NoLineNoEdit(t, id, itemId, e, o);
      }
    } else {
      NoOrderNoEdit(t, UpdateItem(id, itemId, e));
    }
  }

  lemma NoLineNoEdit(t: Tables, id: Id, itemId: Id, e: ItemEdit, o: OrderState)
    requires Live(t, id) && o == Entity(t.orders[id])
    requires forall k :: 0 <= k < |o.items| ==> o.items[k].id != itemId
    ensures Step(t, UpdateItem(id, itemId, e)).Err?
  {
    FindsId(o.items, itemId);
    EditStep(t, UpdateItem(id, itemId, e), o);
  }

  lemma LineEditCommittedAt(t: Tables, id: Id, itemId: Id, e: ItemEdit, o: OrderState, k: nat)
    requires Live(t, id) && o == Entity(t.orders[id]) && o.id == id && OrderInv(o)
    requires k < |o.items| && o.items[k].id == itemId
    ensures Step(t, UpdateItem(id, itemId, e)).Ok? <==> LineEditFits(t, id, itemId, e, k)
    ensures Step(t, UpdateItem(id, itemId, e)).Ok? ==> EditProper(e)
    ensures Step(t, UpdateItem(id, itemId, e)).Ok? ==>
              Step(t, UpdateItem(id, itemId, e)).value == t.(orders := t.orders[id := ToRow(WithEditedLine(o, k, e))])
  {
    LineEditChanges(o, UpdateItem(id, itemId, e), k);
    if CanEdit(o) && EditProper(e) {
      EditCommitted(t, UpdateItem(id, itemId, e), o, WithEditedLine(o, k, e));
    } else {
      EditStep(t, UpdateItem(id, itemId, e), o);
    }
  }

  lemma LineEditChanges(o: OrderState, c: Command, k: nat)
    requires OrderInv(o) && c.UpdateItem? && k < |o.items| && o.items[k].id == c.itemId
    ensures CanEdit(o) <==> Editable(o)
    ensures Changed(o, c).Ok? <==> CanEdit(o) && EditProper(c.itemEdit)
    ensures Changed(o, c).Ok? ==>
              && Changed(o, c).value == WithEditedLine(o, k, c.itemEdit)
              && NothingDelivered(WithEditedLine(o, k, c.itemEdit).items)
              && (LinesFine(o.items) ==> LinesFine(WithEditedLine(o, k, c.itemEdit).items))
  {
    EditableExactly(o);
    LineEditOf(o, c.itemId, c.itemEdit, k);
    assert Changed(o, c) == WithItemEdit(o, c.itemId, c.itemEdit);
    if CanEdit(o) && EditProper(c.itemEdit) {
      EditedFine(o, k, c.itemEdit);
    }
  }

  lemma LineEditOf(o: OrderState, id: Id, e: ItemEdit, k: nat)
    requires DistinctIds(o.items) && k < |o.items| && o.items[k].id == id
    ensures WithItemEdit(o, id, e).Ok? <==> CanEdit(o) && EditProper(e)
    ensures WithItemEdit(o, id, e).Ok? ==> WithItemEdit(o, id, e).value == WithEditedLine(o, k, e)
  {
    assert IndexOf(o.items, id) == k by {
      FindsId(o.items, id);
    }
    if EditProper(e) {
      EditedExactly(o.items[k], e);
    }
  }

  lemma EditedExactly(i: Item, e: ItemEdit)
    requires EditProper(e)
    ensures EditedItem(i, e) == EditedLine(i, e)
  {
  }

  lemma EditedFine(o: OrderState, k: nat, e: ItemEdit)
    requires k < |o.items| && EditProper(e) && CanEdit(o)
    ensures NothingDelivered(WithEditedLine(o, k, e).items)
    ensures LinesFine(o.items) ==> LinesFine(WithEditedLine(o, k, e).items)
  {
    if e.description.Some? {
      Text.StripIdempotent(e.description.value);
    }
  }

  // ----- terms -----

  /** The lines an edit puts in place of the old ones. */
  function Replacing(lines: seq<NewLine>): (r: seq<Item>)
    requires AllProper(lines)
    ensures |r| == |lines|
  {
    seq(|lines|, k requires 0 <= k < |lines| => assert LineProper(lines[k]); Written(lines[k], lines[k].sortOrder))
  }

  predicate LinesProper(lines: seq<NewLine>) {
    lines != [] && DistinctNew(lines) && AllProper(lines)
  }

  /** The order with the terms, and the lines, that an edit gives. */
  function WithTerms(o: OrderState, e: OrderEdit): OrderState
    requires e.lines.Some? ==> LinesProper(e.lines.value)
  {
    o.(taxRate := if e.taxRate.Some? then e.taxRate.value else o.taxRate,
       discount := if e.discount.Some? then e.discount.value else o.discount,
       shipping := if e.shipping.Some? then e.shipping.value else o.shipping,
       dueDate := if e.dueDate.Some? then e.dueDate else o.dueDate,
       items := if e.lines.Some? then Replacing(e.lines.value) else o.items)
  }

  predicate TermsFit(t: Tables, id: Id, e: OrderEdit) {
    && Live(t, id) && (e.lines.Some? ==> LinesProper(e.lines.value))
    && var o := Entity(t.orders[id]);
    && Editable(o) && Loadable(o) && Affordable(WithTerms(o, e))
  }

  /** An edit of the terms is committed exactly on a live, loadable order that money and goods have not
      touched, when the lines it puts are proper and the discount then fits; it changes the terms and
      lines it gives and nothing else. */
  lemma TermsEdited(t: Tables, id: Id, e: OrderEdit)
    requires OrdersInv(t.orders)
    ensures Step(t, UpdateOrder(id, e)).Ok? <==> TermsFit(t, id, e)
    ensures Step(t, UpdateOrder(id, e)).Ok? ==>
              Step(t, UpdateOrder(id, e)).value == t.(orders := t.orders[id := ToRow(WithTerms(Entity(t.orders[id]), e))])
  {
    if e.lines == Some([]) {
      assert Step(t, UpdateOrder(id, e)) == Err(BadRequest);
    } else if Live(t, id) {
      var o := Entity(t.orders[id]);
      assert RowInv(id, t.orders[id]);
      EditableExactly(o);
      TermsEditedOn(t, id, e, o);
    } else {
      NoOrderNoEdit(t, UpdateOrder(id, e));
    }
  }

  lemma TermsEditedOn(t: Tables, id: Id, e: OrderEdit, o: OrderState)
    requires Live(t, id) && o == Entity(t.orders[id]) && o.id == id && e.lines != Some([])
    requires CanEdit(o) <==> Editable(o)
    ensures Step(t, UpdateOrder(id, e)).Ok? <==> TermsFit(t, id, e)
    ensures Step(t, UpdateOrder(id, e)).Ok? ==>
              Step(t, UpdateOrder(id, e)).value == t.(orders := t.orders[id := ToRow(WithTerms(o, e))])
  {
    var c := UpdateOrder(id, e);
    if |o.currency| == 3 {
      TermsOf(o, e);
      if Changed(o, c).Ok? {
        EditCommitted(t, c, o, WithTerms(o, e));
      } else {
        EditStep(t, c, o);
      }
    } else {
      EditStep(t, c, o);
      if Changed(o, c).Ok? {
        NoCurrency(t, o, e);
      }
    }
  }

  lemma {:induction false} NewItemsProper(lines: seq<NewLine>, currency: string)
    requires |currency| == 3
    ensures NewItems(lines, currency).Ok? <==> AllProper(lines)
    ensures NewItems(lines, currency).Ok? ==> NewItems(lines, currency).value == Replacing(lines)
  {
    if lines != [] {
      NewItemsProper(lines[1..], currency);
      BuildExactly(lines[0], currency, lines[0].sortOrder);
      assert forall k :: 1 <= k < |lines| ==> lines[k] == lines[1..][k - 1];
      assert AllProper(lines) <==> LineProper(lines[0]) && AllProper(lines[1..]);
      if AllProper(lines) {
        assert Replacing(lines) == [Replacing(lines)[0]] + Replacing(lines[1..]);
      }
    }
  }

  lemma DistinctReplacing(lines: seq<NewLine>)
    requires AllProper(lines)
    ensures DistinctIds(Replacing(lines)) <==> DistinctNew(lines)
  {
    var r := Replacing(lines);
    assert forall k :: 0 <= k < |lines| ==> r[k].id == lines[k].id;
  }

  /** What the edit makes of an order whose currency can carry money. */
  lemma TermsOf(o: OrderState, e: OrderEdit)
    requires |o.currency| == 3 && e.lines != Some([])
    ensures EditTerms(o, e).Ok? <==> CanEdit(o) && (e.lines.Some? ==> LinesProper(e.lines.value))
    ensures EditTerms(o, e).Ok? ==>
              EditTerms(o, e).value == WithTerms(o, e) && NothingDelivered(EditTerms(o, e).value.items)
  {
    if e.lines.Some? {
      NewItemsProper(e.lines.value, o.currency);
      if AllProper(e.lines.value) {
        DistinctReplacing(e.lines.value);
      }
    }
  }

  lemma NoCurrency(t: Tables, o: OrderState, e: OrderEdit)
    requires |o.currency| != 3 && EditTerms(o, e).Ok?
    ensures SaveAndRespond(t, EditTerms(o, e).value).Err?
  {
    EditTermsShape(o, e);
    SaveThenLoad(EditTerms(o, e).value);
  }

  // ----- life cycle -----

  predicate ConfirmFits(t: Tables, id: Id) {
    && Live(t, id)
    && var o := Entity(t.orders[id]);
    && o.status == Draft && o.items != [] && Loadable(o) && Affordable(o)
  }

  /** An order is confirmed exactly when it is a live, loadable draft with a line and a total; only its
      status changes. */
  lemma ConfirmCommitted(t: Tables, id: Id)
    requires OrdersInv(t.orders)
    ensures Step(t, ConfirmOrder(id)).Ok? <==> ConfirmFits(t, id)
    ensures Step(t, ConfirmOrder(id)).Ok? ==>
              Step(t, ConfirmOrder(id)).value
              == t.(orders := t.orders[id := ToRow(Entity(t.orders[id]).(status := OrderStatus.Confirmed))])
  {
    if Live(t, id) {
      var o := Entity(t.orders[id]);
      assert RowInv(id, t.orders[id]);
      if o.status == Draft {
        EditCommitted(t, ConfirmOrder(id), o, o.(status := OrderStatus.Confirmed));
      } else {
        EditStep(t, ConfirmOrder(id), o);
      }
    } else {
      NoOrderNoEdit(t, ConfirmOrder(id));
    }
  }

  predicate CancelFits(t: Tables, id: Id) {
    && Live(t, id)
    && var o := Entity(t.orders[id]);
    && (o.status == Draft || o.status == OrderStatus.Confirmed) && Loadable(o) && Affordable(o)
  }

  /** An order is cancelled exactly when it is live, loadable and not yet delivered or cancelled, money
      on it or not; only its status changes. */
  lemma CancelCommitted(t: Tables, id: Id)
    requires OrdersInv(t.orders)
    ensures Step(t, CancelOrder(id)).Ok? <==> CancelFits(t, id)
    ensures Step(t, CancelOrder(id)).Ok? ==>
              Step(t, CancelOrder(id)).value
              == t.(orders := t.orders[id := ToRow(Entity(t.orders[id]).(status := Cancelled))])
  {
    if Live(t, id) {
      var o := Entity(t.orders[id]);
      assert RowInv(id, t.orders[id]);
      if o.status == Draft || o.status == OrderStatus.Confirmed {
        EditCommitted(t, CancelOrder(id), o, o.(status := Cancelled));
      } else {
        EditStep(t, CancelOrder(id), o);
      }
    } else {
      NoOrderNoEdit(t, CancelOrder(id));
    }
  }

  predicate DeleteFits(t: Tables, id: Id) {
    && Live(t, id)
    && var o := Entity(t.orders[id]);
    && (o.status == Draft || o.status == Cancelled) && LinesFine(o.items) && (o.items == [] || |o.currency| == 3)
  }

  /** An order is deleted exactly when it is a live draft or cancelled, and loads; it is marked and
      nothing else changes. */
  lemma DeleteCommitted(t: Tables, id: Id)
    requires OrdersInv(t.orders)
    ensures Step(t, DeleteOrder(id)).Ok? <==> DeleteFits(t, id)
    ensures Step(t, DeleteOrder(id)).Ok? ==>
              Step(t, DeleteOrder(id)).value
              == t.(orders := t.orders[id := ToRow(Entity(t.orders[id]).(isDeleted := true))])
  {
    assert Step(t, DeleteOrder(id)) == DoDelete(t, id);
    if Live(t, id) {
      var o := Entity(t.orders[id]);
      assert RowInv(id, t.orders[id]);
      SaveThenLoad(o.(isDeleted := true));
    }
  }

  /** The draft a quote becomes. */
  function Quoted(c: Command): OrderState
    requires c.ConvertQuote?
  {
    OrderState(c.orderId, c.currency, c.taxRate, 0, 0, None, Draft, Pending,
               seq(|c.quoteLines|, k requires 0 <= k < |c.quoteLines| =>
                 var q := c.quoteLines[k];
                 Item(q.id, q.description, q.quantity, q.unitPrice, None, q.position, 0, 0)),
               0, 0, false)
  }

  /** A quote is converted exactly under a new id and with distinct line ids, whatever it says; the row
      has the quote's currency, tax rate and lines, no discount, no shipping and zero stored totals. */
  lemma ConvertCommitted(t: Tables, c: Command)
    requires c.ConvertQuote?
    ensures Step(t, c).Ok? <==>
              && c.orderId !in t.orders
              && forall j, k :: 0 <= j < k < |c.quoteLines| ==> c.quoteLines[j].id != c.quoteLines[k].id
    ensures Step(t, c).Ok? ==>
              && c.orderId in Step(t, c).value.orders
              && var row := Step(t, c).value.orders[c.orderId];
              && Step(t, c).value == t.(orders := t.orders[c.orderId := row])
              && Entity(row) == Quoted(c) && row.subtotalCents == row.taxCents == row.totalCents == 0
  {
    assert Step(t, c) == DoConvert(t, c);
    assert Entity(QuoteRow(c)).items == Quoted(c).items;
  }

  // ----- invoices -----

  /** Every line has all that was delivered of it invoiced. */
  function Invoiced(items: seq<Item>): (r: seq<Item>)
    ensures |r| == |items|
  {
    seq(|items|, k requires 0 <= k < |items| => items[k].(invoiced := items[k].delivered))
  }

  /** An invoice is issued exactly for an order that is neither a draft nor cancelled; every line then
      has all that was delivered of it invoiced, and nothing else changes. */
  lemma InvoiceCommitted(t: Tables, id: Id)
    requires OrdersInv(t.orders)
    ensures Step(t, GenerateInvoice(id)).Ok? <==>
              id in t.orders && t.orders[id].status != Draft && t.orders[id].status != Cancelled
    ensures Step(t, GenerateInvoice(id)).Ok? ==>
              && id in Step(t, GenerateInvoice(id)).value.orders
              && var row := Step(t, GenerateInvoice(id)).value.orders[id];
              && Step(t, GenerateInvoice(id)).value == t.(orders := t.orders[id := row])
              && row == t.orders[id].(items := row.items)
              && ToItems(row.items) == Invoiced(ToItems(t.orders[id].items))
  {
    assert Step(t, GenerateInvoice(id)) == DoInvoice(t, id);
    if id in t.orders {
      assert RowInv(id, t.orders[id]);
      InvoicedOnRow(t, id, t.orders[id]);
    }
  }

  lemma InvoicedOnRow(t: Tables, id: Id, row: OrderRow)
    requires id in t.orders && row == t.orders[id] && StatusInv(Entity(row)) && QuantitiesOk(Entity(row).items)
    ensures DoInvoice(t, id).Ok? <==> row.status != Draft && row.status != Cancelled
    ensures DoInvoice(t, id).Ok? ==>
              && id in DoInvoice(t, id).value.orders
              && var n := DoInvoice(t, id).value.orders[id];
              && DoInvoice(t, id).value == t.(orders := t.orders[id := n])
              && n == row.(items := n.items)
              && ToItems(n.items) == Invoiced(ToItems(row.items))
  {
    InvoicedRowsEntity(row.items);
    AllIsInvoiced(ToItems(row.items));
    assert t.orders == t.orders[id := row];
  }

  lemma AllIsInvoiced(items: seq<Item>)
    requires QuantitiesOk(items)
    ensures AllInvoiced(items) == Invoiced(items)
    ensures !HasDelivery(items) ==> Invoiced(items) == items
  {
  }

  // ----- deliveries -----

  /** The lines once a list of deliveries is added, entry by entry summed up. */
  function Grown(items: seq<Item>, ds: seq<DeliveryLine>): (r: seq<Item>)
    ensures Deliveries.GrownBy(items, ds, r)
  {
    seq(|items|, k requires 0 <= k < |items| =>
      items[k].(delivered := items[k].delivered + Deliveries.Delivers(ds, items[k].id)))
  }

  /** The order once a list of deliveries is added. */
  function WithGrown(o: OrderState, ds: seq<DeliveryLine>): OrderState {
    var items := Grown(o.items, ds);
    o.(items := items, status := if FullyDelivered(items) then Delivered else PartiallyDelivered)
  }

  /** The delivered part is worth its share of the discount. */
  predicate ShareCovered(o: OrderState) {
    DiscountShare(o) <= DeliveredSubtotal(o.items) + Money.HalfUp(DeliveredSubtotal(o.items), o.taxRate)
  }

  /** The order can be delivered, and the list delivers something that fits and is worth its share of
      the discount. */
  predicate Accepts(o: OrderState, ds: seq<DeliveryLine>) {
    && (o.status == OrderStatus.Confirmed || o.status == PartiallyDelivered)
    && (exists n :: 0 <= n < |ds| && ds[n].quantity > 0) && Deliveries.Fits(o.items, ds)
    && ShareCovered(WithGrown(o, ds))
  }

  /** A delivery is committed exactly on a live order that can be delivered, for a list that
      delivers something and fits what is left, when everything delivered by then is worth its
      share of the discount; each line then grows by its own sum and nothing else changes. */
  lemma DeliveryCommitted(t: Tables, id: Id, ds: seq<DeliveryLine>)
    requires OrdersInv(t.orders)
    ensures Step(t, RecordDelivery(id, ds)).Ok? <==> Live(t, id) && Accepts(Entity(t.orders[id]), ds)
    ensures Step(t, RecordDelivery(id, ds)).Ok? ==>
              Step(t, RecordDelivery(id, ds)).value == t.(orders := t.orders[id := ToRow(WithGrown(Entity(t.orders[id]), ds))])
  {
    if Live(t, id) {
      assert RowInv(id, t.orders[id]);
      DeliveryOn(t, RecordDelivery(id, ds), Entity(t.orders[id]));
    } else {
      NoOrderNoEdit(t, RecordDelivery(id, ds));
    }
  }

  lemma DeliveryOn(t: Tables, c: Command, o: OrderState)
    requires c.RecordDelivery? && Live(t, c.orderId) && o == Entity(t.orders[c.orderId]) && o.id == c.orderId
    requires OrderInv(o)
    ensures Step(t, c).Ok? <==> Accepts(o, c.deliveries)
    ensures Step(t, c).Ok? ==>
              Step(t, c).value == t.(orders := t.orders[c.orderId := ToRow(WithGrown(o, c.deliveries))])
  {
    EditStep(t, c, o);
    DeliveryOf(o, c);
    if Changed(o, c).Ok? {
      WrittenDelivery(t, o, c.deliveries);
    }
  }

  /** Before saving, the list alone decides. */
  lemma DeliveryOf(o: OrderState, c: Command)
    requires c.RecordDelivery? && OrderInv(o)
    ensures Changed(o, c) == WithDelivery(o, c.deliveries)
    ensures Accepts(o, c.deliveries) <==> Changed(o, c).Ok? && ShareCovered(WithGrown(o, c.deliveries))
    ensures Changed(o, c).Ok? ==>
              && Changed(o, c).value == WithGrown(o, c.deliveries)
              && o.status != Draft && WellFormed(o)
  {
    GrownExactly(o, c.deliveries);
  }

  lemma GrownExactly(o: OrderState, ds: seq<DeliveryLine>)
    requires LinesInv(o)
    ensures WithDelivery(o, ds).Ok? <==> Deliverable(o.status) && AnyPositive(ds) && Deliveries.Fits(o.items, ds)
    ensures WithDelivery(o, ds).Ok? ==> WithDelivery(o, ds).value == WithGrown(o, ds)
  {
    Deliveries.DeliveryAccepted(o, ds);
    if WithDelivery(o, ds).Ok? {
      DeliveryChanges(o, ds);
      assert WithDelivery(o, ds).value.items == Grown(o.items, ds);
    }
  }

  lemma WrittenDelivery(t: Tables, o: OrderState, ds: seq<DeliveryLine>)
    requires OrderInv(o) && o.status != Draft && WithDelivery(o, ds).Ok?
    ensures var n := WithDelivery(o, ds).value;
            && (SaveAndRespond(t, n).Ok? <==> ShareCovered(n))
            && (SaveAndRespond(t, n).Ok? ==> SaveAndRespond(t, n).value == t.(orders := t.orders[o.id := ToRow(n)]))
  {
    var n := WithDelivery(o, ds).value;
    DeliveryChanges(o, ds);
    DeliveryKeepsTerms(o, ds);
    SaveThenLoad(n);
  }

  /** A list that would complete an order is committed exactly when the discount fits the goods and
      their tax, or the goods are free: a discount that only fits thanks to the shipping leaves an
      order that can never be delivered in full. */
  lemma CompletionCommitted(t: Tables, id: Id, ds: seq<DeliveryLine>)
    requires OrdersInv(t.orders) && id in t.orders && !t.orders[id].isDeleted
    requires var o := Entity(t.orders[id]);
             && Deliverable(o.status) && AnyPositive(ds) && Deliveries.Fits(o.items, ds)
             && FullyDelivered(Grown(o.items, ds))
    ensures var o := Entity(t.orders[id]);
            var s := Subtotal(o.items);
            Step(t, RecordDelivery(id, ds)).Ok? <==> s == 0 || o.discount <= s + Money.HalfUp(s, o.taxRate)
  {
    var o := Entity(t.orders[id]);
    assert RowInv(id, t.orders[id]);
    DeliveryCommitted(t, id, ds);
    Totals.SameLinesSubtotal(Grown(o.items, ds), o.items);
    Totals.FullyDeliveredTotal(WithGrown(o, ds));
  }

  // ----- what the state of an order refuses -----

  predicate HasLine(o: OrderState, itemId: Id) {
    exists k :: 0 <= k < |o.items| && o.items[k].id == itemId
  }

  /** The order is in no state for the change; a line edit without proper data counts as that too, while an
      improper new line fails before the order is asked. */
  predicate StateForbids(o: OrderState, c: Command)
    requires IsEdit(c)
  {
    match c
    case UpdateOrder(_, _) => !Editable(o)
    case ConfirmOrder(_) => o.status != Draft || o.items == []
    case CancelOrder(_) => o.status != Draft && o.status != OrderStatus.Confirmed
    case AddItem(_, l) => |o.currency| == 3 && LineProper(l) && !Editable(o)
    case RemoveItem(_, itemId) => !Editable(o) || !HasLine(o, itemId)
    case UpdateItem(_, itemId, e) => !Editable(o) || !HasLine(o, itemId) || !EditProper(e)
    case RecordDelivery(_, ds) =>
      || (o.status != OrderStatus.Confirmed && o.status != PartiallyDelivered)
      || (forall n :: 0 <= n < |ds| ==> ds[n].quantity <= 0) || !Deliveries.Fits(o.items, ds)
  }

  /** An edit of a live order is refused for its state exactly when the order loads and its state forbids
      the change; an edit that would leave no line is a bad request. */
  lemma StateRefused(t: Tables, c: Command)
    requires OrdersInv(t.orders) && IsEdit(c) && Live(t, c.orderId)
    ensures Step(t, c) == Err(BadRequest) <==> c.UpdateOrder? && c.orderEdit.lines == Some([])
    ensures Step(t, c) == Err(InvalidState) <==>
              && Load(t.orders[c.orderId]).Ok? && StateForbids(Entity(t.orders[c.orderId]), c)
              && !(c.UpdateOrder? && c.orderEdit.lines == Some([]))
  {
    assert RowInv(c.orderId, t.orders[c.orderId]);
    StateRefusedOn(t, c, Entity(t.orders[c.orderId]));
  }

  lemma StateRefusedOn(t: Tables, c: Command, o: OrderState)
    requires IsEdit(c) && Live(t, c.orderId) && o == Entity(t.orders[c.orderId]) && OrderInv(o)
    ensures Step(t, c) == Err(BadRequest) <==> c.UpdateOrder? && c.orderEdit.lines == Some([])
    ensures Step(t, c) == Err(InvalidState) <==>
              && Load(t.orders[c.orderId]).Ok? && StateForbids(o, c)
              && !(c.UpdateOrder? && c.orderEdit.lines == Some([]))
  {
    assert Step(t, c) == DoEdit(t, c);
    ForbiddenChange(o, c);
    if Changed(o, c).Ok? {
      SavingKnowsNoState(t, Changed(o, c).value);
    }
  }

  /** An invoice is refused for the state of exactly the orders that are drafts or cancelled. */
  lemma InvoiceRefused(t: Tables, id: Id)
    requires OrdersInv(t.orders)
    ensures Step(t, GenerateInvoice(id)) == Err(InvalidState) <==>
              id in t.orders && (t.orders[id].status == Draft || t.orders[id].status == Cancelled)
  {
    if id in t.orders {
      KnownOrderStatus(t, id);
    }
  }

  lemma KnownOrderStatus(t: Tables, id: Id)
    requires OrdersInv(t.orders) && id in t.orders
    ensures t.orders[id].status in {Draft, OrderStatus.Confirmed, PartiallyDelivered, Delivered, Cancelled}
  {
    assert RowInv(id, t.orders[id]);
  }

  /** A deletion is refused for the state of exactly the live orders that load and are neither drafts nor
      cancelled. */
  lemma DeletionRefused(t: Tables, id: Id)
    ensures Step(t, DeleteOrder(id)) == Err(InvalidState) <==>
              && Live(t, id) && Load(t.orders[id]).Ok?
              && t.orders[id].status != Draft && t.orders[id].status != Cancelled
  {
    assert Step(t, DeleteOrder(id)) == DoDelete(t, id);
  }

  lemma SavingKnowsNoState(t: Tables, o: OrderState)
    ensures SaveAndRespond(t, o) != Err(InvalidState) && SaveAndRespond(t, o) != Err(BadRequest)
  {
  }

  lemma ForbiddenChange(o: OrderState, c: Command)
    requires OrderInv(o) && IsEdit(c)
    ensures Changed(o, c) == Err(InvalidState) <==> StateForbids(o, c)
    ensures Changed(o, c) != Err(BadRequest)
  {
    EditableExactly(o);
    match c
    case UpdateOrder(_, e) => ForbiddenTerms(o, e);
    case RemoveItem(_, itemId) => ForbiddenRemoval(o, itemId);
    case UpdateItem(_, itemId, e) => ForbiddenEdit(o, itemId, e);
    case AddItem(_, l) => ForbiddenLine(o, l, c);
    case RecordDelivery(_, ds) => ForbiddenDelivery(o, ds);
    case _ =>
  }

  lemma ForbiddenEdit(o: OrderState, itemId: Id, e: ItemEdit)
    ensures WithItemEdit(o, itemId, e) == Err(InvalidState) <==> !CanEdit(o) || !HasLine(o, itemId) || !EditProper(e)
    ensures WithItemEdit(o, itemId, e) != Err(BadRequest)
  {
    FindsId(o.items, itemId);
  }

  lemma ForbiddenLine(o: OrderState, l: NewLine, c: Command)
    requires c.AddItem? && c.line == l
    ensures Changed(o, c) == Err(InvalidState) <==> |o.currency| == 3 && LineProper(l) && !CanEdit(o)
    ensures Changed(o, c) != Err(BadRequest)
  {
    if |o.currency| == 3 {
      BuildExactly(l, o.currency, l.sortOrder);
    }
  }

  lemma ForbiddenDelivery(o: OrderState, ds: seq<DeliveryLine>)
    requires LinesInv(o)
    ensures WithDelivery(o, ds) == Err(InvalidState) <==>
              !Deliverable(o.status) || (forall n :: 0 <= n < |ds| ==> ds[n].quantity <= 0) || !Deliveries.Fits(o.items, ds)
    ensures WithDelivery(o, ds) != Err(BadRequest)
  {
    Deliveries.DeliveryAccepted(o, ds);
  }

  lemma ForbiddenTerms(o: OrderState, e: OrderEdit)
    ensures EditTerms(o, e) == Err(InvalidState) <==> !CanEdit(o)
    ensures EditTerms(o, e) != Err(BadRequest)
  {
    if e.lines.Some? {
      NewItemsErrors(e.lines.value, o.currency);
    }
  }

  lemma {:induction false} NewItemsErrors(lines: seq<NewLine>, currency: string)
    ensures NewItems(lines, currency).Ok? || NewItems(lines, currency) == Err(Unhandled)
  {
    if lines != [] {
      NewItemsErrors(lines[1..], currency);
    }
  }

  lemma ForbiddenRemoval(o: OrderState, itemId: Id)
    requires DistinctIds(o.items)
    ensures WithoutItem(o, itemId) == Err(InvalidState) <==> !CanEdit(o) || !HasLine(o, itemId)
    ensures WithoutItem(o, itemId) != Err(BadRequest)
  {
    if HasLine(o, itemId) {
      var k :| 0 <= k < |o.items| && o.items[k].id == itemId;
      RemovesOne(o.items, itemId, k);
    } else {
      RemovesNone(o.items, itemId);
    }
  }
}
