/** What an order looks like after cancel_order: its lines' stations and the rollup over them. */
module StoreSummaries {
  import opened Common
  import opened Pricing
  import opened StoreModel
  import opened StoreRuns
  import opened StoreBooks

  /** Every line of a cancelled order is packed or cancelled, and no other line moved. */
  lemma {:induction false} CancelStopsTheLines(db: Db, o: nat)
    requires WellKeyed(db)
    ensures var d := CancelOrder(db, o);
      && d.items.Keys == db.items.Keys
      && (forall i :: i in d.items && d.items[i].fin.order == o ==> d.items[i].status == Packed || d.items[i].status == Cancelled)
      && (forall i :: i in d.items && (d.items[i].fin.order != o || db.items[i].status == Packed) ==> d.items[i] == db.items[i])
  {}

  predicate SomePacked(db: Db, o: nat) {
    exists i :: i in db.items && db.items[i].fin.order == o && db.items[i].status == Packed
  }

  lemma {:induction false} StoppedRollup(d: Db, o: nat)
    requires Books(d) && o < |d.orders|
    requires forall i :: i in d.items && d.items[i].fin.order == o ==> d.items[i].status == Packed || d.items[i].status == Cancelled
    ensures d.orders[o].rollup == if SomePacked(d, o) then Some(Packed) else None
  {
    var ids := Lines(d, o);
    assert OrderAgrees(d, o);
    LeastAdvancedIsLeast(d.items, ids);
    LinesAreTheOrdersItems(d.items, d.nextItem, o);
    assert forall k :: 0 <= k < |ids| ==> ids[k] in ids;
  }

  /** A cancelled order is summarised as packed if it has a packed line, and as nothing otherwise. */
  lemma {:induction false} CancelLeavesOnlyPacked(db: Db, o: nat)
    requires Books(db) && o < |db.orders|
    ensures CancelOrder(db, o).orders[o].rollup == if SomePacked(CancelOrder(db, o), o) then Some(Packed) else None
  {
    CancelOrderKeepsBooks(db, o);
    CancelStopsTheLines(db, o);
    StoppedRollup(CancelOrder(db, o), o);
  }

  // ---------------------------------------------------------------- the announcement

  predicate SaysCancelled(outbox: seq<Message>, o: nat) {
    exists k :: 0 <= k < |outbox| && outbox[k] == OrderCancelled(o)
  }

  /**
   What cancel_order does besides stopping the lines: it flags the order, if there is one, says so once,
   for a missing order too, and leaves every other order, all amounts, payments, refunds and the ledger alone.
   */
  lemma {:induction false} CancelFlagsAndAnnounces(db: Db, o: nat)
    ensures var d := CancelOrder(db, o);
      && d == db.(orders := d.orders, items := d.items, outbox := db.outbox + [OrderCancelled(o)])
      && |d.orders| == |db.orders|
      && (forall k :: 0 <= k < |db.orders| && k != o ==> d.orders[k] == db.orders[k])
      && (o < |db.orders| ==> d.orders[o] == db.orders[o].(cancelled := true, rollup := d.orders[o].rollup))
  {}

  /** Every order flagged cancelled has its message. */
  predicate CancelledSaid(db: Db) {
    forall o :: 0 <= o < |db.orders| && db.orders[o].cancelled ==> SaysCancelled(db.outbox, o)
  }

  /** The messages only grow, and a step flags an order only by announcing it. */
  predicate FlagsBySaying(db: Db, d: Db) {
    && db.outbox <= d.outbox && |db.orders| <= |d.orders|
    && forall o :: 0 <= o < |d.orders| && d.orders[o].cancelled ==>
         (o < |db.orders| && db.orders[o].cancelled) || (d.outbox != [] && d.outbox[|d.outbox| - 1] == OrderCancelled(o))
  }

  lemma {:induction false} FlagsBySayingKeeps(db: Db, d: Db)
    requires CancelledSaid(db) && FlagsBySaying(db, d)
    ensures CancelledSaid(d)
  {
    forall o | 0 <= o < |d.orders| && d.orders[o].cancelled
      ensures SaysCancelled(d.outbox, o)
    {
      if o < |db.orders| && db.orders[o].cancelled {
        var k :| 0 <= k < |db.outbox| && db.outbox[k] == OrderCancelled(o);
        assert d.outbox[k] == OrderCancelled(o);
      }
    }
  }

  lemma {:induction false} LedgerStepsFlagNothing(db: Db, step: Step)
    requires WritesLedger(step) || step.DoCrash?
    ensures FlagsBySaying(db, Commit(db, Attempt(db, step)))
  {}

  lemma {:induction false} OrderStepsFlagBySaying(db: Db, step: Step)
    requires step.DoSetStation? || step.DoRefund? || step.DoCancelOrder?
    ensures FlagsBySaying(db, Commit(db, Attempt(db, step)))
  {
    if step.DoCancelOrder? { CancelFlagsAndAnnounces(db, step.order); }
  }

  lemma {:induction false} RawStepsFlagNothing(db: Db, step: Step)
    requires step.DoEditItem? || step.DoDeleteItem?
    ensures FlagsBySaying(db, Commit(db, Attempt(db, step)))
  {}

  lemma {:induction false} PlacedFlagsNothing(db: Db, ps: seq<Priced>, t: Totals)
    ensures FlagsBySaying(db, Placed(db, ps, t))
  {}

  lemma {:induction false} PlaceOrderFlagsNothing(db: Db, step: Step)
    requires step.DoPlaceOrder?
    ensures FlagsBySaying(db, Commit(db, Attempt(db, step)))
  {
    if Attempt(db, step).Ok? {
      var ps, t := PlaceOrderCommits(db, step);
      PlacedFlagsNothing(db, ps, t);
    }
  }

  lemma {:induction false} StepFlagsBySaying(db: Db, step: Step)
    ensures FlagsBySaying(db, Commit(db, Attempt(db, step)))
  {
    if step.DoPlaceOrder? {
      PlaceOrderFlagsNothing(db, step);
    } else if WritesLedger(step) || step.DoCrash? {
      LedgerStepsFlagNothing(db, step);
    } else if step.DoEditItem? || step.DoDeleteItem? {
      RawStepsFlagNothing(db, step);
    } else {
      OrderStepsFlagBySaying(db, step);
    }
  }

  lemma {:induction false} RunKeepsCancelledSaid(s: Sys, steps: seq<Step>)
    requires CancelledSaid(s.db)
    ensures CancelledSaid(Run(s, steps).db)
    decreases |steps|
  {
    if steps != [] {
      ExecCommitsOrNot(s, steps[0]);
      StepFlagsBySaying(s.db, steps[0]);
      FlagsBySayingKeeps(s.db, Commit(s.db, Attempt(s.db, steps[0])));
      RunKeepsCancelledSaid(Exec(s, steps[0]), steps[1..]);
    }
  }

  /** In every run, whatever is run: an order flagged cancelled has an order.cancelled message in the outbox. */
  lemma {:induction false} CancelledIsAnnounced(s: Sys, steps: seq<Step>, o: nat)
    requires Initial(s)
    ensures var db := Run(s, steps).db;
      o < |db.orders| && db.orders[o].cancelled ==> SaysCancelled(db.outbox, o)
  {
    RunKeepsCancelledSaid(s, steps);
  }
}
