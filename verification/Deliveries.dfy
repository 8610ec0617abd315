/** What a delivery list does to the lines: it is accepted exactly when, entry by
    entry summed up, it fits what is left, and then each line grows by its own sum. */
module Deliveries {
  import opened Money
  import opened Orders

  /** The quantity a list delivers to one line, repeated entries added up. */
  function Delivers(ds: seq<DeliveryLine>, id: Id): nat {
    if ds == [] then 0
    else (if ds[0].itemId == id && ds[0].quantity > 0 then ds[0].quantity else 0) + Delivers(ds[1..], id)
  }

  /** The quantity a list delivers in all. */
  function DeliversInAll(ds: seq<DeliveryLine>): nat {
    if ds == [] then 0
    else (if ds[0].quantity > 0 then ds[0].quantity else 0) + DeliversInAll(ds[1..])
  }

  predicate Known(items: seq<Item>, ds: seq<DeliveryLine>) {
    forall n :: 0 <= n < |ds| && ds[n].quantity > 0 ==> IndexOf(items, ds[n].itemId) < |items|
  }

  /** The list names known lines only and no line gets more than is left of it. */
  predicate Fits(items: seq<Item>, ds: seq<DeliveryLine>) {
    && Known(items, ds)
    && forall k :: 0 <= k < |items| ==> items[k].delivered + Delivers(ds, items[k].id) <= items[k].quantity
  }

  predicate WithinQuantity(items: seq<Item>) {
    forall k :: 0 <= k < |items| ==> items[k].delivered <= items[k].quantity
  }

  function Remaining(items: seq<Item>): int {
    if items == [] then 0 else items[0].quantity - items[0].delivered + Remaining(items[1..])
  }

  /** The line list after a list that fits. */
  predicate GrownBy(before: seq<Item>, ds: seq<DeliveryLine>, after: seq<Item>) {
    && |after| == |before|
    && forall k :: 0 <= k < |before| ==>
         after[k] == before[k].(delivered := before[k].delivered + Delivers(ds, before[k].id))
  }

  /** Changing a line without touching its id changes no look-up. */
  lemma {:induction false} IndexOfSameIds(a: seq<Item>, b: seq<Item>, id: Id)
    requires |a| == |b|
    requires forall k :: 0 <= k < |a| ==> a[k].id == b[k].id
    ensures IndexOf(a, id) == IndexOf(b, id)
  {
    if a != [] {
      assert a[0].id == b[0].id;
      if a[0].id != id {
        IndexOfSameIds(a[1..], b[1..], id);
      }
    }
  }

  /** The loop gets through exactly when the list fits, and then adds each line's sum. */
  lemma {:induction false} LoopMeetsSums(items: seq<Item>, ds: seq<DeliveryLine>)
    requires DistinctIds(items) && WithinQuantity(items)
    ensures DeliverLines(items, ds).through <==> Fits(items, ds)
    ensures DeliverLines(items, ds).through ==> GrownBy(items, ds, DeliverLines(items, ds).items)
    decreases |ds|
  {
    if ds == [] {
    } else if ds[0].quantity <= 0 {
      LoopMeetsSums(items, ds[1..]);
      assert Known(items, ds) <==> Known(items, ds[1..]) by { KnownTail(items, ds); }
    } else {
      var k := IndexOf(items, ds[0].itemId);
      KnownTail(items, ds);
      if k < |items| {
        if items[k].delivered + ds[0].quantity > items[k].quantity {
          assert items[k].delivered + Delivers(ds, items[k].id) > items[k].quantity;
        } else {
          var next := items[k := items[k].(delivered := items[k].delivered + ds[0].quantity)];
          LoopMeetsSums(next, ds[1..]);
          LoopStep(items, k, next, ds);
        }
      }
    }
  }

  /** One entry that fits: the rest of the list fits the updated lines when the list fits the
      old ones, and grows them to the same lines. */
  lemma LoopStep(items: seq<Item>, k: nat, next: seq<Item>, ds: seq<DeliveryLine>)
    requires DistinctIds(items) && ds != [] && ds[0].quantity > 0
    requires k < |items| && k == IndexOf(items, ds[0].itemId)
    requires next == items[k := items[k].(delivered := items[k].delivered + ds[0].quantity)]
    ensures Fits(items, ds) <==> Fits(next, ds[1..])
    ensures forall after :: GrownBy(next, ds[1..], after) ==> GrownBy(items, ds, after)
  {
    KnownTail(items, ds);
    SameKnown(items, next, ds[1..]);
    SumsStep(items, k, next, ds);
    FitsStep(items, next, ds);
  }

  lemma SameKnown(items: seq<Item>, next: seq<Item>, ds: seq<DeliveryLine>)
    requires |items| == |next| && forall k :: 0 <= k < |items| ==> items[k].id == next[k].id
    ensures Known(next, ds) <==> Known(items, ds)
  {
    forall n | 0 <= n < |ds|
      ensures IndexOf(items, ds[n].itemId) == IndexOf(next, ds[n].itemId)
    {
      IndexOfSameIds(items, next, ds[n].itemId);
    }
  }

  lemma SumsStep(items: seq<Item>, k: nat, next: seq<Item>, ds: seq<DeliveryLine>)
    requires DistinctIds(items) && ds != [] && ds[0].quantity > 0
    requires k < |items| && items[k].id == ds[0].itemId
    requires next == items[k := items[k].(delivered := items[k].delivered + ds[0].quantity)]
    ensures forall j :: 0 <= j < |items| ==>
              next[j].delivered + Delivers(ds[1..], next[j].id) == items[j].delivered + Delivers(ds, items[j].id)
  {
    forall j | 0 <= j < |items|
      ensures next[j].delivered + Delivers(ds[1..], next[j].id) == items[j].delivered + Delivers(ds, items[j].id)
    {
      assert j != k ==> items[j].id != ds[0].itemId;
    }
  }

  lemma KnownTail(items: seq<Item>, ds: seq<DeliveryLine>)
    requires ds != []
    ensures Known(items, ds) <==>
            Known(items, ds[1..]) && (ds[0].quantity > 0 ==> IndexOf(items, ds[0].itemId) < |items|)
  {
    if Known(items, ds) {
      forall n | 0 <= n < |ds[1..]| && ds[1..][n].quantity > 0
        ensures IndexOf(items, ds[1..][n].itemId) < |items|
      {
        assert ds[1..][n] == ds[n + 1];
      }
    }
    if Known(items, ds[1..]) && (ds[0].quantity > 0 ==> IndexOf(items, ds[0].itemId) < |items|) {
      forall n | 0 <= n < |ds| && ds[n].quantity > 0
        ensures IndexOf(items, ds[n].itemId) < |items|
      {
        if n > 0 {
          assert ds[1..][n - 1] == ds[n];
        }
      }
    }
  }

  lemma FitsStep(items: seq<Item>, next: seq<Item>, ds: seq<DeliveryLine>)
    requires ds != [] && |next| == |items|
    requires Known(items, ds) <==> Known(next, ds[1..])
    requires forall j :: 0 <= j < |items| ==>
               && next[j].quantity == items[j].quantity
               && next[j].delivered + Delivers(ds[1..], next[j].id) == items[j].delivered + Delivers(ds, items[j].id)
    ensures Fits(items, ds) <==> Fits(next, ds[1..])
  {
  }

  /** What is left shrinks by exactly what was delivered. */
  lemma {:induction false} RemainingShrinks(items: seq<Item>, ds: seq<DeliveryLine>)
    requires DeliverLines(items, ds).through
    ensures Remaining(DeliverLines(items, ds).items) == Remaining(items) - DeliversInAll(ds)
    decreases |ds|
  {
    if ds != [] {
      if ds[0].quantity <= 0 {
        RemainingShrinks(items, ds[1..]);
      } else {
        var k := IndexOf(items, ds[0].itemId);
        var next := items[k := items[k].(delivered := items[k].delivered + ds[0].quantity)];
        RemainingUpdate(items, k, next[k]);
        RemainingShrinks(next, ds[1..]);
      }
    }
  }

  lemma {:induction false} RemainingUpdate(items: seq<Item>, k: nat, i: Item)
    requires k < |items|
    ensures Remaining(items[k := i])
         == Remaining(items) - (items[k].quantity - items[k].delivered) + (i.quantity - i.delivered)
  {
    if k > 0 {
      assert items[k := i][1..] == items[1..][k - 1 := i];
      RemainingUpdate(items[1..], k - 1, i);
    }
  }

  lemma {:induction false} PositiveInAll(ds: seq<DeliveryLine>)
    ensures AnyPositive(ds) <==> DeliversInAll(ds) > 0
  {
    if ds != [] {
      PositiveInAll(ds[1..]);
      if AnyPositive(ds[1..]) {
        var n :| 0 <= n < |ds[1..]| && ds[1..][n].quantity > 0;
        assert ds[n + 1].quantity > 0;
      }
      if AnyPositive(ds) && ds[0].quantity <= 0 {
        var n :| 0 <= n < |ds| && ds[n].quantity > 0;
        assert ds[1..][n - 1].quantity > 0;
      }
    }
  }

  /** A delivery is accepted exactly when the order can be delivered and the list fits and
      delivers something; it then adds each line's own sum, strictly lowers what is left,
      and ends in Delivered exactly when nothing is left. */
  lemma DeliveryAccepted(o: OrderState, ds: seq<DeliveryLine>)
    requires DistinctIds(o.items) && WithinQuantity(o.items)
    ensures WithDelivery(o, ds).Ok? <==>
              && o.status in {OrderStatus.Confirmed, InProduction, Ready, PartiallyDelivered}
              && AnyPositive(ds) && Fits(o.items, ds)
    ensures WithDelivery(o, ds).Err? ==> WithDelivery(o, ds).error == InvalidState
    ensures WithDelivery(o, ds).Ok? ==>
              var after := WithDelivery(o, ds).value;
              && GrownBy(o.items, ds, after.items)
              && Remaining(after.items) == Remaining(o.items) - DeliversInAll(ds)
              && DeliversInAll(ds) > 0
              && (after.status == Delivered <==> Remaining(after.items) == 0)
              && (after.status != Delivered ==> after.status == PartiallyDelivered)
              && after == o.(items := after.items, status := after.status)
  {
    LoopMeetsSums(o.items, ds);
    PositiveInAll(ds);
    if WithDelivery(o, ds).Ok? {
      RemainingShrinks(o.items, ds);
      NothingRemains(DeliverLines(o.items, ds).items);
      assert AnyPositive(ds) ==> o.items != [] by {
        if AnyPositive(ds) {
          var n :| 0 <= n < |ds| && ds[n].quantity > 0;
          assert IndexOf(o.items, ds[n].itemId) < |o.items|;
        }
      }
    }
  }

  lemma {:induction false} NothingRemains(items: seq<Item>)
    requires WithinQuantity(items)
    ensures 0 <= Remaining(items)
    ensures items != [] ==> (FullyDelivered(items) <==> Remaining(items) == 0)
  {
    if items != [] {
      NothingRemains(items[1..]);
      if |items| > 1 {
        assert FullyDelivered(items) <==> FullyDelivered(items[1..]) && items[0].quantity == items[0].delivered by {
          if FullyDelivered(items[1..]) && items[0].quantity == items[0].delivered {
            forall k | 0 <= k < |items|
              ensures items[k].quantity - items[k].delivered == 0
            {
              if k > 0 {
                assert items[1..][k - 1] == items[k];
              }
            }
          }
        }
      }
    }
  }
}
