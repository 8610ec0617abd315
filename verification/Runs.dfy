/** The main results about whole runs of requests, starting from an empty store. */
module Runs {
  import opened Options
  import opened Orders
  import opened Payments
  import opened Repository
  import opened UseCases
  import opened OrderInvariant
  import opened Ledger
  import opened Footprints
  import Acceptance
  import Money
  import Text

  // ----- money -----

  /** Conservation: after any run, an order's paid amount is its completed payments less its
      completed refunds, its refunded amount is its completed refunds, and that is also what
      its completed refund requests granted. */
  lemma LedgerConservation(cs: seq<Command>, id: Id)
    requires id in Run(EMPTY, cs).orders
    ensures var t := Run(EMPTY, cs);
            var row := t.orders[id];
            && row.paidCents == TotalPayments(t.txns, id) - TotalRefunds(t.txns, id)
            && row.refundedCents == TotalRefunds(t.txns, id) == TotalMoved(t.refunds, id)
  {
    EmptyInv();
    RunKeeps(EMPTY, cs);
    assert Balanced(Run(EMPTY, cs), id);
  }

  // ----- refunds -----

  /** A refund that was turned down or completed never changes again. */
  lemma {:induction false} RefundFinal(t: Tables, cs: seq<Command>, r: Id)
    requires Inv(t) && r in t.refunds && t.refunds[r].status in {Rejected, Completed}
    ensures r in Run(t, cs).refunds && Run(t, cs).refunds[r] == t.refunds[r]
    decreases |cs|
  {
    if cs != [] {
      InvKeys(t);
      ClosedRefundUntouched(t, cs[0], r);
      StepKeeps(t, cs[0]);
      RefundFinal(Commit(t, cs[0]), cs[1..], r);
    }
  }

  /** Over any run a refund moves money at most once: a completed one has a refund
      transaction of its own, shared with no other refund and worth at most the request,
      an open or rejected one has none, and no refund transaction is without its refund. */
  lemma RefundsMoveOnce(cs: seq<Command>)
    ensures var t := Run(EMPTY, cs);
            && (forall r :: r in t.refunds ==>
                  && t.refunds[r].status in {Requested, Rejected, Completed}
                  && (t.refunds[r].status != Completed ==> t.refunds[r].txn.None?)
                  && (t.refunds[r].status == Completed ==>
                        && t.refunds[r].txn.Some? && t.refunds[r].txn.value in t.txns
                        && var x := t.txns[t.refunds[r].txn.value];
                        && x.kind == Refunding && x.orderId == t.refunds[r].orderId
                        && 0 < x.amount <= t.refunds[r].requested))
            && (forall r, s, k :: CompletedBy(t.refunds, r, k) && CompletedBy(t.refunds, s, k) ==> r == s)
            && (forall k :: k in t.txns && t.txns[k].kind == Refunding ==> exists r :: CompletedBy(t.refunds, r, k))
  {
    EmptyInv();
    RunKeeps(EMPTY, cs);
    var t := Run(EMPTY, cs);
    forall r | r in t.refunds
      ensures RefundInv(t.refunds[r], t.txns, t.orders)
    {
    }
  }

  /** A refund turned down stays so: whatever follows, no approval of it is accepted and no
      transaction ever serves it. */
  lemma RejectedForGood(t: Tables, refundId: Id, reason: string, cs: seq<Command>)
    requires Inv(t) && Step(t, RejectRefund(refundId, reason)).Ok?
    ensures var n := Run(Commit(t, RejectRefund(refundId, reason)), cs);
            && refundId in n.refunds && n.refunds[refundId].status == Rejected
            && n.refunds[refundId].rejection == Some(reason)
            && (forall approved, txnId, today :: Step(n, ApproveRefund(refundId, approved, txnId, today)).Err?)
            && (forall k :: !CompletedBy(n.refunds, refundId, k))
  {
    Acceptance.RejectionAccepted(t, refundId, reason);
    var m := Commit(t, RejectRefund(refundId, reason));
    StepKeeps(t, RejectRefund(refundId, reason));
    RefundFinal(m, cs, refundId);
    RunKeeps(m, cs);
    forall approved, txnId, today
      ensures Step(Run(m, cs), ApproveRefund(refundId, approved, txnId, today)).Err?
    {
      Acceptance.ApprovalAccepted(Run(m, cs), refundId, approved, txnId, today);
    }
  }

  // ----- frozen terms -----

  /** What a request may still do to an order whose terms are closed: nothing to the terms,
      and delivered quantities only grow. */
  predicate OnlyProgress(a: OrderState, b: OrderState) {
    && SameTerms(a, b)
    && |a.items| == |b.items|
    && (forall k :: 0 <= k < |a.items| ==> a.items[k].delivered <= b.items[k].delivered)
    && (HasDelivery(a.items) ==> b.isDeleted == a.isDeleted)
  }

  /** Once an order cannot be edited, one request leaves all its terms as they were. */
  lemma ClosedStep(t: Tables, c: Command, id: Id)
    requires Inv(t) && id in t.orders && !CanEdit(Entity(t.orders[id]))
    ensures id in Commit(t, c).orders
    ensures OnlyProgress(Entity(t.orders[id]), Entity(Commit(t, c).orders[id]))
    ensures c != GenerateInvoice(id) ==>
              InvoicedSubtotal(Entity(Commit(t, c).orders[id]).items) == InvoicedSubtotal(Entity(t.orders[id]).items)
  {
    InvKeys(t);
    assert OrderInv(Entity(t.orders[id])) by {
      assert RowInv(id, t.orders[id]);
    }
    ClosedRowStep(t, c, id);
  }

  lemma ClosedRowStep(t: Tables, c: Command, id: Id)
    requires KeysOk(t) && id in t.orders && OrderInv(Entity(t.orders[id])) && !CanEdit(Entity(t.orders[id]))
    ensures id in Commit(t, c).orders
    ensures OnlyProgress(Entity(t.orders[id]), Entity(Commit(t, c).orders[id]))
    ensures c != GenerateInvoice(id) ==>
              InvoicedSubtotal(Entity(Commit(t, c).orders[id]).items) == InvoicedSubtotal(Entity(t.orders[id]).items)
  {
    if Step(t, c).Err? || Target(t, c) != Some(id) {
      ClosedElsewhere(t, c, id);
    } else if IsEdit(c) {
      ClosedEdit(t, c, id);
    } else {
      ClosedNonEdit(t, c, id);
    }
  }

  lemma ClosedElsewhere(t: Tables, c: Command, id: Id)
    requires KeysOk(t) && id in t.orders && (Step(t, c).Err? || Target(t, c) != Some(id))
    ensures id in Commit(t, c).orders && Commit(t, c).orders[id] == t.orders[id]
    ensures OnlyProgress(Entity(t.orders[id]), Entity(Commit(t, c).orders[id]))
  {
    OthersUntouched(t, c, id);
    SameProgress(Entity(t.orders[id]));
  }

  lemma SameProgress(o: OrderState)
    ensures OnlyProgress(o, o)
  {
  }

  lemma ClosedEdit(t: Tables, c: Command, id: Id)
    requires KeysOk(t) && id in t.orders && OrderInv(Entity(t.orders[id])) && !CanEdit(Entity(t.orders[id]))
    requires IsEdit(c) && Step(t, c).Ok? && Target(t, c) == Some(id)
    ensures id in Commit(t, c).orders
    ensures OnlyProgress(Entity(t.orders[id]), Entity(Commit(t, c).orders[id]))
    ensures InvoicedSubtotal(Entity(Commit(t, c).orders[id]).items) == InvoicedSubtotal(Entity(t.orders[id]).items)
  {
    EditStep(t, c);
    EditWrites(t, c);
    ChangedClosed(Entity(t.orders[id]), c);
  }

  lemma EditStep(t: Tables, c: Command)
    requires IsEdit(c)
    ensures Step(t, c) == DoEdit(t, c)
    ensures Step(t, c).Ok? ==> Commit(t, c) == DoEdit(t, c).value
  {
  }

  lemma ClosedNonEdit(t: Tables, c: Command, id: Id)
    requires KeysOk(t) && id in t.orders && StatusInv(Entity(t.orders[id])) && LinesInv(Entity(t.orders[id]))
    requires Step(t, c).Ok? && Target(t, c) == Some(id) && !IsEdit(c)
    ensures id in Commit(t, c).orders
    ensures OnlyProgress(Entity(t.orders[id]), Entity(Commit(t, c).orders[id]))
    ensures !c.GenerateInvoice? ==>
              InvoicedSubtotal(Entity(Commit(t, c).orders[id]).items) == InvoicedSubtotal(Entity(t.orders[id]).items)
  {
    var o := Entity(t.orders[id]);
    match c
    case CreateOrder(_, _, _, _, _, _, _, _) => CreateWrites(t, c);
    case ConvertQuote(_, _, _, _) =>
    case DeleteOrder(_) =>
      DeleteWrites(t, id);
      assert !HasDelivery(o.items);
    case RecordPayment(_, amount, txnId, today) => PaymentWrites(t, id, amount, txnId, today);
    case ApproveRefund(r, approved, txnId, today) => ApprovalWrites(t, r, approved, txnId, today);
    case GenerateInvoice(_) =>
      InvoiceWrites(t, id);
      InvoiceProgress(o);
  }

  lemma InvoiceProgress(o: OrderState)
    requires QuantitiesOk(o.items)
    ensures OnlyProgress(o, o.(items := AllInvoiced(o.items)))
  {
    InvoiceKeepsTerms(o);
  }

  /** The changes a closed order still accepts are deliveries and a cancellation. */
  lemma ChangedClosed(o: OrderState, c: Command)
    requires OrderInv(o) && !CanEdit(o) && IsEdit(c) && Changed(o, c).Ok?
    ensures OnlyProgress(o, Changed(o, c).value)
    ensures InvoicedSubtotal(Changed(o, c).value.items) == InvoicedSubtotal(o.items)
  {
    match c
    case RecordDelivery(_, ds) => DeliveryProgress(o, ds);
    case UpdateOrder(_, e) => EditTermsShape(o, e);
    case _ =>
  }

  lemma DeliveryProgress(o: OrderState, ds: seq<DeliveryLine>)
    requires OrderInv(o) && WithDelivery(o, ds).Ok?
    ensures OnlyProgress(o, WithDelivery(o, ds).value)
    ensures InvoicedSubtotal(WithDelivery(o, ds).value.items) == InvoicedSubtotal(o.items)
  {
    DeliveryChanges(o, ds);
    DeliveryKeepsTerms(o, ds);
  }

  /** While money is on an order, a request never changes its total, never lets the paid
      amount pass a positive total, and leaves its payment status classifying what is paid,
      refunded and due. */
  lemma FrozenWhilePaid(t: Tables, c: Command, id: Id)
    requires Inv(t) && id in t.orders && t.orders[id].paidCents > 0
    ensures id in Commit(t, c).orders
    ensures var a := Entity(t.orders[id]);
            var b := Entity(Commit(t, c).orders[id]);
            && SameTerms(a, b) && Total(b) == Total(a)
            && (b.paid > 0 && Total(b) > 0 ==> b.paid <= Total(b))
            && (b.paid > 0 ==>
                  0 <= Total(b)
                  && forall today :: b.paymentStatus == Classify(b.paid, b.refunded, Total(b), b.dueDate, today))
  {
    ClosedStep(t, c, id);
    StepKeeps(t, c);
    assert RowInv(id, Commit(t, c).orders[id]);
    TermsFix(Entity(t.orders[id]), Entity(Commit(t, c).orders[id]));
    if Commit(t, c).orders[id].paidCents > 0 {
      StandingIsClassification(Entity(Commit(t, c).orders[id]));
    }
  }

  /** With money on an order its payment status is the code's own classification, on any day. */
  lemma StandingIsClassification(o: OrderState)
    requires OrderInv(o) && o.paid > 0
    ensures 0 <= Total(o)
    ensures forall today :: o.paymentStatus == Classify(o.paid, o.refunded, Total(o), o.dueDate, today)
  {
    forall today
      ensures o.paymentStatus == Classify(o.paid, o.refunded, Total(o), o.dueDate, today)
    {
      ClassifyPaid(o.paid, o.refunded, Total(o), o.dueDate, today);
    }
  }

  /** Once anything was delivered, the terms and the total stay for the rest of the run. */
  lemma {:induction false} FrozenOnceDelivered(t: Tables, cs: seq<Command>, id: Id)
    requires Inv(t) && id in t.orders && HasDelivery(Entity(t.orders[id]).items)
    ensures id in Run(t, cs).orders
    ensures var a := Entity(t.orders[id]);
            var b := Entity(Run(t, cs).orders[id]);
            && OnlyProgress(a, b) && Total(b) == Total(a) && HasDelivery(b.items) && !b.isDeleted
    decreases |cs|
  {
    var a := Entity(t.orders[id]);
    DeliveredIsClosed(t, id);
    if cs != [] {
      var n := Commit(t, cs[0]);
      ClosedStep(t, cs[0], id);
      StepKeeps(t, cs[0]);
      var m := Entity(n.orders[id]);
      ProgressKeepsDelivery(a, m);
      FrozenOnceDelivered(n, cs[1..], id);
      TermsFix(a, m);
    }
  }

  lemma DeliveredIsClosed(t: Tables, id: Id)
    requires Inv(t) && id in t.orders && HasDelivery(Entity(t.orders[id]).items)
    ensures !CanEdit(Entity(t.orders[id])) && !t.orders[id].isDeleted
  {
    assert RowInv(id, t.orders[id]);
  }

  lemma ProgressKeepsDelivery(a: OrderState, b: OrderState)
    requires OnlyProgress(a, b) && HasDelivery(a.items)
    ensures HasDelivery(b.items)
  {
    var k :| 0 <= k < |a.items| && a.items[k].delivered > 0;
    assert b.items[k].delivered > 0;
  }

  // ----- deliveries -----

  /** In every reachable store each line keeps 0 <= invoiced <= delivered <= quantity, and the
      status says exactly how far the delivery is. */
  lemma DeliveryMachine(cs: seq<Command>, id: Id)
    requires id in Run(EMPTY, cs).orders
    ensures var o := Entity(Run(EMPTY, cs).orders[id]);
            && (forall k :: 0 <= k < |o.items| ==>
                  0 <= o.items[k].invoiced <= o.items[k].delivered <= o.items[k].quantity)
            && (o.status == Delivered <==> FullyDelivered(o.items))
            && (o.status == PartiallyDelivered <==> HasDelivery(o.items) && !FullyDelivered(o.items))
            && (o.status in {Draft, OrderStatus.Confirmed, Cancelled} <==> !HasDelivery(o.items))
  {
    EmptyInv();
    RunKeeps(EMPTY, cs);
    assert RowInv(id, Run(EMPTY, cs).orders[id]);
  }

  // ----- stored totals -----

  /** Past draft, the stored subtotal is the sum of the lines and the stored total is at most
      one cent below the exact one. */
  lemma StoredTotalsTrack(cs: seq<Command>, id: Id)
    requires id in Run(EMPTY, cs).orders && Run(EMPTY, cs).orders[id].status != Draft
    ensures var row := Run(EMPTY, cs).orders[id];
            && row.subtotalCents == Subtotal(Entity(row).items)
            && 0 <= Total(Entity(row)) - row.totalCents <= 1
  {
    EmptyInv();
    RunKeeps(EMPTY, cs);
    assert RowInv(id, Run(EMPTY, cs).orders[id]);
  }

  /** A freshly converted quote keeps its zero totals; they are right only when it is free. */
  lemma ConvertedTotalsStale(c: Command)
    requires c.ConvertQuote?
    ensures StoredTotals(QuoteRow(c)) <==> Subtotal(Entity(QuoteRow(c)).items) == 0
  {
    Money.FloorUnique(5000, Money.SCALE, 0);
  }

  // ----- well-formed rows -----

  predicate AllWellFormed(t: Tables) {
    forall id :: id in t.orders ==> WellFormed(Entity(t.orders[id]))
  }

  /** A quote whose lines all say what they sell, in a three-letter currency. */
  predicate ProperQuote(c: Command)
    requires c.ConvertQuote?
  {
    CurrencyOk(c.currency) && forall k :: 0 <= k < |c.quoteLines| ==> !Text.IsBlank(c.quoteLines[k].description)
  }

  lemma ConvertedRow(c: Command)
    requires c.ConvertQuote?
    ensures WellFormed(Entity(QuoteRow(c))) <==> ProperQuote(c)
    ensures Broken(Entity(QuoteRow(c))) <==> !ProperQuote(c)
  {
    var o := Entity(QuoteRow(c));
    assert forall k :: 0 <= k < |c.quoteLines| ==>
        o.items[k].description == c.quoteLines[k].description && o.items[k].quantity == c.quoteLines[k].quantity;
    assert NothingDelivered(o.items);
    NothingDeliveredYet(o.items);
  }

  predicate BadConversion(t: Tables, c: Command) {
    c.ConvertQuote? && Step(t, c).Ok? && !ProperQuote(c)
  }

  /** Some request of the run converted an improper quote. */
  predicate EverBadConversion(t: Tables, cs: seq<Command>)
    decreases |cs|
  {
    cs != [] && (BadConversion(t, cs[0]) || EverBadConversion(Commit(t, cs[0]), cs[1..]))
  }

  lemma WellFormedStep(t: Tables, c: Command, id: Id)
    requires KeysOk(t) && AllWellFormed(t) && !BadConversion(t, c) && id in Commit(t, c).orders
    ensures WellFormed(Entity(Commit(t, c).orders[id]))
  {
    if Step(t, c).Err? || Target(t, c) != Some(id) {
      OthersUntouched(t, c, id);
    } else if IsEdit(c) {
      EditWrites(t, c);
    } else {
      WellFormedNonEdit(t, c, id);
    }
  }

  lemma WellFormedNonEdit(t: Tables, c: Command, id: Id)
    requires KeysOk(t) && Step(t, c).Ok? && Target(t, c) == Some(id) && !IsEdit(c) && !BadConversion(t, c)
    requires id in t.orders ==> WellFormed(Entity(t.orders[id]))
    ensures id in Commit(t, c).orders && WellFormed(Entity(Commit(t, c).orders[id]))
  {
    match c
    case CreateOrder(_, _, _, _, _, _, _, _) => CreateWrites(t, c);
    case ConvertQuote(_, _, _, _) => ConvertedRow(c);
    case DeleteOrder(_) =>
      DeleteWrites(t, id);
      RespondDeleted(Entity(t.orders[id]));
    case RecordPayment(_, amount, txnId, today) =>
      PaymentWrites(t, id, amount, txnId, today);
      MoneyOnlyWellFormed(Entity(t.orders[id]), Entity(Commit(t, c).orders[id]));
    case ApproveRefund(r, approved, txnId, today) =>
      ApprovalWrites(t, r, approved, txnId, today);
      MoneyOnlyWellFormed(Entity(t.orders[id]), Entity(Commit(t, c).orders[id]));
    case GenerateInvoice(_) =>
      InvoiceWrites(t, id);
      InvoiceKeepsWellFormed(Entity(t.orders[id]));
  }

  lemma MoneyOnlyWellFormed(a: OrderState, b: OrderState)
    requires WellFormed(a)
    requires b == a.(paid := b.paid, refunded := b.refunded, paymentStatus := b.paymentStatus)
    ensures WellFormed(b)
  {
    MoneyKeepsTerms(a, b.paid, b.refunded, b.paymentStatus);
  }

  /** A broken row stays broken under every request. */
  lemma BrokenStays(t: Tables, c: Command, id: Id)
    requires Inv(t) && id in t.orders && Broken(Entity(t.orders[id]))
    ensures id in Commit(t, c).orders && Broken(Entity(Commit(t, c).orders[id]))
  {
    InvKeys(t);
    BrokenIsDraft(t, id);
    BrokenRowStays(t, c, id);
  }

  lemma BrokenIsDraft(t: Tables, id: Id)
    requires Inv(t) && id in t.orders && Broken(Entity(t.orders[id]))
    ensures t.orders[id].status == Draft && t.orders[id].paidCents == 0
  {
    assert RowInv(id, t.orders[id]);
  }

  lemma BrokenRowStays(t: Tables, c: Command, id: Id)
    requires KeysOk(t) && id in t.orders && Broken(Entity(t.orders[id]))
    requires t.orders[id].status == Draft && t.orders[id].paidCents == 0
    ensures id in Commit(t, c).orders && Broken(Entity(Commit(t, c).orders[id]))
  {
    if Step(t, c).Err? || Target(t, c) != Some(id) {
      OthersUntouched(t, c, id);
    } else if IsEdit(c) {
      EditNotBroken(t, c);
    } else {
      BrokenTarget(t, c, id);
    }
  }

  lemma BrokenTarget(t: Tables, c: Command, id: Id)
    requires KeysOk(t) && id in t.orders && Broken(Entity(t.orders[id]))
    requires t.orders[id].status == Draft && t.orders[id].paidCents == 0
    requires Step(t, c).Ok? && Target(t, c) == Some(id) && !IsEdit(c)
    ensures id in Commit(t, c).orders && Broken(Entity(Commit(t, c).orders[id]))
  {
    match c
    case CreateOrder(_, _, _, _, _, _, _, _) => CreateWrites(t, c);
    case ConvertQuote(_, _, _, _) =>
    case DeleteOrder(_) => DeleteWrites(t, id);
    case RecordPayment(_, amount, txnId, today) => PaymentWrites(t, id, amount, txnId, today);
    case ApproveRefund(r, approved, txnId, today) => ApprovalWrites(t, r, approved, txnId, today);
    case GenerateInvoice(_) => InvoiceWrites(t, id);
  }

  /** No edit of a broken order goes through. */
  lemma EditNotBroken(t: Tables, c: Command)
    requires KeysOk(t) && IsEdit(c) && DoEdit(t, c).Ok?
    ensures c.orderId in t.orders && !Broken(Entity(t.orders[c.orderId]))
  {
    EditWrites(t, c);
    ChangedSameOrder(Entity(t.orders[c.orderId]), c);
  }

  lemma {:induction false} BrokenForever(t: Tables, cs: seq<Command>, id: Id)
    requires Inv(t) && id in t.orders && Broken(Entity(t.orders[id]))
    ensures !AllWellFormed(Run(t, cs))
    decreases |cs|
  {
    if cs == [] {
      assert !WellFormed(Entity(t.orders[id]));
    } else {
      BrokenStays(t, cs[0], id);
      StepKeeps(t, cs[0]);
      BrokenForever(Commit(t, cs[0]), cs[1..], id);
    }
  }

  lemma {:induction false} WellFormedRun(t: Tables, cs: seq<Command>)
    requires Inv(t) && AllWellFormed(t)
    ensures AllWellFormed(Run(t, cs)) <==> !EverBadConversion(t, cs)
    decreases |cs|
  {
    if cs != [] {
      var n := Commit(t, cs[0]);
      InvKeys(t);
      StepKeeps(t, cs[0]);
      if BadConversion(t, cs[0]) {
        ConvertedRow(cs[0]);
        BrokenForever(n, cs[1..], cs[0].orderId);
      } else {
        forall id | id in n.orders
          ensures WellFormed(Entity(n.orders[id]))
        {
          WellFormedStep(t, cs[0], id);
        }
        WellFormedRun(n, cs[1..]);
      }
    }
  }

  /** Every row of a reachable store reloads, and both of its totals exist, exactly when the
      run never converted a quote with a blank line or a currency that is not three letters. */
  lemma CommittedOrdersWellFormed(cs: seq<Command>)
    ensures AllWellFormed(Run(EMPTY, cs)) <==> !EverBadConversion(EMPTY, cs)
  {
    EmptyInv();
    WellFormedRun(EMPTY, cs);
  }

  /** One request with a blank quote line is enough to leave a row that cannot be loaded. */
  lemma BlankQuoteLineBreaks()
    ensures var c := ConvertQuote(1, "XAF", 0, [QuoteLine(2, "", 1, 100, 0)]);
            var t := Run(EMPTY, [c]);
            1 in t.orders && GetOrder(t, 1) == Err(Unhandled)
  {
    var c := ConvertQuote(1, "XAF", 0, [QuoteLine(2, "", 1, 100, 0)]);
    assert Run(EMPTY, [c]) == Commit(EMPTY, c);
    var o := Entity(QuoteRow(c));
    assert Text.IsBlank(o.items[0].description);
    assert !ItemOk(o.items[0]);
  }
}
