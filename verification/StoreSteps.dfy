/** What each transaction leaves alone: the frame facts the run theorems share. */
module StoreSteps {
  import opened Pricing
  import opened StoreModel
  import opened StoreRuns
  import opened StoreBooks

  // ---------------------------------------------------------------- steps that leave the ledger alone

  /** New lines belong to new, unpaid orders; old lines and payments keep what the phases rest on. */
  predicate Quiet(db: Db, d: Db) {
    && LeavesTheLedger(db, d) && WellKeyed(d) && |db.orders| <= |d.orders|
    && (forall i :: i in db.items ==> i in d.items && d.items[i].fin == db.items[i].fin && d.items[i].variant == db.items[i].variant)
    && (forall i :: i in d.items && i !in db.items ==> d.items[i].fin.qty > 0 && d.items[i].fin.order >= |db.orders|)
    && (forall o :: 0 <= o < |db.orders| ==>
          && d.orders[o].paidAt == db.orders[o].paidAt
          && (d.orders[o].payment != db.orders[o].payment ==> d.orders[o].payment != Unpaid && d.orders[o].payment != Paid))
    && (forall o :: |db.orders| <= o < |d.orders| ==> !d.orders[o].paidAt && d.orders[o].payment == Unpaid)
  }

  lemma {:induction false} PlacedIsQuiet(db: Db, ps: seq<Priced>, t: Totals)
    requires WellKeyed(db) && PlaceChecks(t, ps)
    ensures Quiet(db, Placed(db, ps, t))
  {
    PlacedAddsLines(db, ps, t);
  }

  lemma {:induction false} SetStationIsQuiet(db: Db, i: nat, to: Station)
    requires WellKeyed(db)
    ensures Quiet(db, Commit(db, SetStation(db, i, to)))
  {}

  lemma {:induction false} CancelOrderIsQuiet(db: Db, o: nat)
    requires WellKeyed(db)
    ensures Quiet(db, CancelOrder(db, o))
  {}

  lemma {:induction false} RefundIsQuiet(db: Db, step: Step)
    requires WellKeyed(db) && step.DoRefund?
    ensures Quiet(db, Commit(db, Attempt(db, step)))
  {}

  lemma {:induction false} QuietStep(db: Db, step: Step)
    requires WellKeyed(db) && AppStep(step) && !WritesLedger(step)
    ensures Quiet(db, Commit(db, Attempt(db, step)))
  {
    if step.DoPlaceOrder? {
      if Attempt(db, step).Ok? {
        var ps, t := PlaceOrderCommits(db, step);
        PlacedIsQuiet(db, ps, t);
      }
    } else if step.DoRefund? {
      RefundIsQuiet(db, step);
    } else if step.DoSetStation? {
      SetStationIsQuiet(db, step.item, step.to);
    } else if step.DoCancelOrder? {
      CancelOrderIsQuiet(db, step.order);
    }
  }

  predicate SameLines(db: Db, d: Db) {
    d.bom == db.bom && forall i :: i in db.items ==> i in d.items && d.items[i].variant == db.items[i].variant
  }

  lemma {:induction false} LedgerStepKeepsLines(db: Db, step: Step)
    requires WritesLedger(step)
    ensures SameLines(db, Commit(db, Attempt(db, step)))
  {}

  lemma {:induction false} CommitKeepsLines(db: Db, step: Step)
    requires WellKeyed(db) && AppStep(step)
    ensures SameLines(db, Commit(db, Attempt(db, step)))
  {
    if WritesLedger(step) { LedgerStepKeepsLines(db, step); } else { QuietStep(db, step); }
  }
}
