/**
 Runs of the shop: every transaction is an atomic step that commits or leaves the database as
 it was, and consume_for_item is a call of its own that may be lost after the status commit.
 This module proves what holds in EVERY run, whatever the callers do.
 */
module StoreRuns {
  import opened Common
  import opened Inventory
  import opened Pricing
  import opened StoreModel

  /**
   The database plus the processes' state: `calls` are consume_for_item calls in flight, `lost`
   the lines whose call crashed or was rolled back. Two histories of the production board:
   `entered` are the lines that ever moved to `printing`, `skipped` those ever unblocked past it.
   */
  datatype Sys = Sys(db: Db, calls: multiset<nat>, lost: set<nat>, entered: set<nat>, skipped: set<nat>)

  /** A move from `blocked` straight to a station behind `printing`. */
  predicate Skips(from: Station, to: Station) {
    from == Blocked && to in {Printed, Mounting, Framing, Qc, Packed}
  }

  datatype Step =
    | DoPlaceOrder(cartFound: bool, cat: Catalog, cart: seq<CartLine>)
    | DoMarkPaid(order: nat)
    | DoSetStation(item: nat, to: Station)
    | DoConsume(item: nat)
    | DoCrash(item: nat)
    | DoCancelOrder(order: nat)
    | DoRestock(item: nat, reason: Reason)
    | DoRefund(order: nat, refunded: Option<nat>, amount: int, qty: Option<int>)
    | DoAdjust(component: nat, delta: int, reason: Reason)
    | DoEditItem(item: nat, row: Item)
    | DoDeleteItem(item: nat)

  /** What the step's transaction returns. */
  function Attempt(db: Db, step: Step): Result<Db> {
    match step
    case DoPlaceOrder(found, cat, cart) => PlaceOrder(db, found, cat, cart)
    case DoMarkPaid(o) => MarkPaid(db, o)
    case DoSetStation(i, to) => SetStation(db, i, to)
    case DoConsume(i) => ConsumeForItem(db, i)
    case DoCrash(_) => Ok(db)
    case DoCancelOrder(o) => Ok(CancelOrder(db, o))
    case DoRestock(i, reason) => RestockForItem(db, i, reason)
    case DoRefund(o, item, amount, qty) => RefundOrder(db, o, item, amount, qty)
    case DoAdjust(c, delta, reason) => AdjustStock(db, c, delta, reason)
    case DoEditItem(i, row) => EditItem(db, i, row)
    case DoDeleteItem(i) => DeleteItem(db, i)
  }

  function Commit(db: Db, r: Result<Db>): Db {
    if r.Ok? then r.value else db
  }

  /** A consume or a crash needs a call in flight; every other step can always be tried. */
  function Exec(s: Sys, step: Step): Sys {
    var r := Attempt(s.db, step);
    var d := Commit(s.db, r);
    match step
    case DoConsume(i) =>
      if i !in s.calls then s
      else s.(db := d, calls := s.calls - multiset{i}, lost := if r.Ok? then s.lost else s.lost + {i})
    case DoCrash(i) =>
      if i !in s.calls then s else s.(calls := s.calls - multiset{i}, lost := s.lost + {i})
    case DoSetStation(i, to) =>
      if r.Err? then s
      else s.(db := d,
              calls := if to == Printing then s.calls + multiset{i} else s.calls,
              entered := if to == Printing then s.entered + {i} else s.entered,
              skipped := if Skips(s.db.items[i].status, to) then s.skipped + {i} else s.skipped)
    case _ => s.(db := d)
  }

  function Run(s: Sys, steps: seq<Step>): Sys
    decreases |steps|
  {
    if steps == [] then s else Run(Exec(s, steps[0]), steps[1..])
  }

  /** A seeded shop: a valid bill of materials, empty shelves, no orders. */
  predicate Initial(s: Sys) {
    && ValidBom(s.db)
    && (forall c :: 0 <= c < |s.db.components| ==> s.db.components[c] == ZERO)
    && s.db.ledger == [] && s.db.orders == [] && s.db.items == map[] && s.db.refunds == [] && s.db.outbox == []
    && s.calls == multiset{} && s.lost == {} && s.entered == {} && s.skipped == {}
  }

  predicate ValidBom(db: Db) {
    forall v :: v in db.bom ==> ValidLines(db.bom[v], |db.components|)
  }

  lemma {:induction false} RunAppend(s: Sys, a: seq<Step>, b: seq<Step>)
    ensures Run(s, a + b) == Run(Run(s, a), b)
    decreases |a|
  {
    if a == [] {
      assert a + b == b;
    } else {
      assert (a + b)[0] == a[0] && (a + b)[1..] == a[1..] + b;
      RunAppend(Exec(s, a[0]), a[1..], b);
    }
  }

  // ---------------------------------------------------------------- the ledger is the truth

  /** A committed place_order inserted some checked lines under some totals. */
  lemma {:induction false} PlaceOrderCommits(db: Db, step: Step) returns (ps: seq<Priced>, t: Totals)
    requires step.DoPlaceOrder? && Attempt(db, step).Ok?
    ensures Attempt(db, step).value == Placed(db, ps, t) && PlaceChecks(t, ps)
    ensures t.subtotal == PricedSubtotal(ps) && t.total == t.subtotal - t.discount
  {
    ps := PricedLines(step.cat, step.cart);
    t := TotalsFor(PricedSubtotal(ps), Quantity(step.cart));
  }

  /** Cached balances are the ledger's sums, and stock_sane holds of every one of them. */
  predicate NoDrift(db: Db) {
    && AllSane(db.components)
    && forall c :: 0 <= c < |db.components| ==> !Drifted(db.components, db.ledger, c)
  }

  lemma {:induction false} InsertKeepsNoDrift(db: Db, rows: seq<Row>)
    requires NoDrift(db) && Insert(db, rows).Ok?
    ensures NoDrift(Insert(db, rows).value)
    ensures |Insert(db, rows).value.components| == |db.components|
  {
    var d := Insert(db, rows).value;
    ApplyMovesByTotals(db.components, rows);
    forall c | 0 <= c < |d.components|
      ensures !Drifted(d.components, d.ledger, c)
    {
      TotalAppend(db.ledger, rows, c);
      assert !Drifted(db.components, db.ledger, c);
    }
  }

  predicate WritesLedger(step: Step) {
    step.DoMarkPaid? || step.DoConsume? || step.DoRestock? || step.DoAdjust?
  }

  /** The database part of a step is nothing, or its transaction committed. */
  lemma {:induction false} ExecCommitsOrNot(s: Sys, step: Step)
    ensures Exec(s, step).db == s.db || Exec(s, step).db == Commit(s.db, Attempt(s.db, step))
  {}

  predicate LeavesTheLedger(db: Db, d: Db) {
    d.ledger == db.ledger && d.components == db.components && d.bom == db.bom
  }

  lemma {:induction false} PlaceOrderLeavesTheLedger(db: Db, step: Step)
    requires step.DoPlaceOrder?
    ensures LeavesTheLedger(db, Commit(db, Attempt(db, step)))
  {
    if Attempt(db, step).Ok? { var _, _ := PlaceOrderCommits(db, step); }
  }

  lemma {:induction false} StationStepsLeaveTheLedger(db: Db, step: Step)
    requires step.DoSetStation? || step.DoCancelOrder?
    ensures LeavesTheLedger(db, Commit(db, Attempt(db, step)))
  {}

  lemma {:induction false} RefundAndRawStepsLeaveTheLedger(db: Db, step: Step)
    requires step.DoRefund? || step.DoEditItem? || step.DoDeleteItem? || step.DoCrash?
    ensures LeavesTheLedger(db, Commit(db, Attempt(db, step)))
  {}

  lemma {:induction false} AttemptKeepsNoDrift(db: Db, step: Step)
    requires NoDrift(db) && WritesLedger(step) && Attempt(db, step).Ok?
    ensures var d := Attempt(db, step).value;
      NoDrift(d) && db.ledger <= d.ledger && |d.components| == |db.components| && d.bom == db.bom
  {
    match step
    case DoMarkPaid(o) =>
      if o < |db.orders| && db.orders[o].payment != Paid {
        var paid := db.(orders := db.orders[o := db.orders[o].(payment := Paid, paidAt := true)]);
        InsertKeepsNoDrift(paid, ReserveRows(db, Lines(db, o)));
      }
    case DoConsume(i) =>
      InsertKeepsNoDrift(db, if HasConsume(RowsOf(db.ledger, i)) then [] else LineRows(db, i, -1, -1, Consume));
    case DoRestock(i, reason) =>
      var net := Net(RowsOf(db.ledger, i));
      InsertKeepsNoDrift(db, LineRows(db, i, if net.onHand < 0 then 1 else 0, if net.reserved > 0 then -1 else 0, reason));
    case DoAdjust(c, delta, reason) =>
      InsertKeepsNoDrift(db, [Row(c, delta, 0, reason, None)]);
  }

  lemma {:induction false} StepKeepsNoDrift(s: Sys, step: Step)
    requires NoDrift(s.db)
    ensures var t := Exec(s, step).db;
      NoDrift(t) && s.db.ledger <= t.ledger && |t.components| == |s.db.components| && t.bom == s.db.bom
  {
    ExecCommitsOrNot(s, step);
    if !WritesLedger(step) {
      if step.DoPlaceOrder? {
        PlaceOrderLeavesTheLedger(s.db, step);
      } else if step.DoSetStation? || step.DoCancelOrder? {
        StationStepsLeaveTheLedger(s.db, step);
      } else {
        RefundAndRawStepsLeaveTheLedger(s.db, step);
      }
    } else if Attempt(s.db, step).Ok? {
      AttemptKeepsNoDrift(s.db, step);
    }
  }

  lemma {:induction false} RunKeepsNoDrift(s: Sys, steps: seq<Step>)
    requires NoDrift(s.db)
    ensures var t := Run(s, steps).db;
      NoDrift(t) && s.db.ledger <= t.ledger && |t.components| == |s.db.components| && t.bom == s.db.bom
    decreases |steps|
  {
    if steps != [] {
      StepKeepsNoDrift(s, steps[0]);
      RunKeepsNoDrift(Exec(s, steps[0]), steps[1..]);
    }
  }

  /**
   In every reachable state, after any steps at all, ledger_drift is empty, every balance is
   sane, and the ledger of any earlier moment is a prefix of the present one.
   */
  lemma {:induction false} NeverDrifts(s: Sys, before: seq<Step>, after: seq<Step>)
    requires Initial(s)
    ensures var now, later := Run(s, before).db, Run(s, before + after).db;
      NoDrift(now) && NoDrift(later) && now.ledger <= later.ledger
  {
    RunKeepsNoDrift(s, before);
    RunAppend(s, before, after);
    RunKeepsNoDrift(Run(s, before), after);
  }

  // ---------------------------------------------------------------- history freezes

  /** Ids are never reused and every line belongs to an order. */
  predicate WellKeyed(db: Db) {
    forall i :: i in db.items ==> i < db.nextItem && db.items[i].fin.order < |db.orders|
  }

  /** What one step may do to settled orders and their lines. */
  predicate KeepsHistory(a: Db, b: Db) {
    && |a.orders| <= |b.orders|
    && (forall o :: 0 <= o < |a.orders| && a.orders[o].payment != Unpaid ==> b.orders[o].payment != Unpaid)
    && (forall i :: i in a.items && Frozen(a, i) ==> i in b.items && b.items[i].fin == a.items[i].fin)
  }

  lemma {:induction false} PlacedAddsLines(db: Db, ps: seq<Priced>, t: Totals)
    requires WellKeyed(db)
    ensures WellKeyed(Placed(db, ps, t)) && KeepsHistory(db, Placed(db, ps, t))
    ensures var d, o := Placed(db, ps, t), |db.orders|;
      && (forall i :: i in db.items ==> i in d.items && d.items[i] == db.items[i])
      && (forall i :: i in d.items && i !in db.items ==> i >= db.nextItem)
      && (forall i :: db.nextItem <= i < d.nextItem ==> i in d.items && d.items[i] == NewItem(o, ps[i - db.nextItem]))
  {
    NewItemsAre(|db.orders|, db.nextItem, ps);
  }

  predicate HistoryKept(db: Db, step: Step) {
    WellKeyed(Commit(db, Attempt(db, step))) && KeepsHistory(db, Commit(db, Attempt(db, step)))
  }

  lemma {:induction false} PlaceOrderKeepsHistory(db: Db, step: Step)
    requires WellKeyed(db) && step.DoPlaceOrder?
    ensures HistoryKept(db, step)
  {
    if Attempt(db, step).Ok? {
      var ps, t := PlaceOrderCommits(db, step);
      PlacedAddsLines(db, ps, t);
    }
  }

  lemma {:induction false} PayAndCancelKeepHistory(db: Db, step: Step)
    requires WellKeyed(db) && (step.DoMarkPaid? || step.DoCancelOrder?)
    ensures HistoryKept(db, step)
  {}

  lemma {:induction false} StationAndRefundStepsKeepHistory(db: Db, step: Step)
    requires WellKeyed(db) && (step.DoSetStation? || step.DoRefund?)
    ensures HistoryKept(db, step)
  {}

  lemma {:induction false} RawStepsKeepHistory(db: Db, step: Step)
    requires WellKeyed(db) && (step.DoEditItem? || step.DoDeleteItem?)
    ensures HistoryKept(db, step)
  {}

  lemma {:induction false} LedgerStepsKeepHistory(db: Db, step: Step)
    requires WellKeyed(db) && (step.DoConsume? || step.DoRestock? || step.DoAdjust? || step.DoCrash?)
    ensures HistoryKept(db, step)
  {}

  lemma {:induction false} StepKeepsHistory(s: Sys, step: Step)
    requires WellKeyed(s.db)
    ensures WellKeyed(Exec(s, step).db) && KeepsHistory(s.db, Exec(s, step).db)
  {
    ExecCommitsOrNot(s, step);
    if step.DoPlaceOrder? {
      PlaceOrderKeepsHistory(s.db, step);
    } else if step.DoMarkPaid? || step.DoCancelOrder? {
      PayAndCancelKeepHistory(s.db, step);
    } else if step.DoSetStation? || step.DoRefund? {
      StationAndRefundStepsKeepHistory(s.db, step);
    } else if step.DoEditItem? || step.DoDeleteItem? {
      RawStepsKeepHistory(s.db, step);
    } else {
      LedgerStepsKeepHistory(s.db, step);
    }
  }

  /**
   Once an order leaves `unpaid` it never returns, its lines stay, and no run, raw UPDATE and
   DELETE statements included, ever changes their financial fields.
   */
  lemma {:induction false} HistoryFreezes(s: Sys, steps: seq<Step>)
    requires WellKeyed(s.db)
    ensures WellKeyed(Run(s, steps).db) && KeepsHistory(s.db, Run(s, steps).db)
    decreases |steps|
  {
    if steps != [] {
      var mid := Exec(s, steps[0]);
      StepKeepsHistory(s, steps[0]);
      HistoryFreezes(mid, steps[1..]);
      var t := Run(mid, steps[1..]).db;
      forall i | i in s.db.items && Frozen(s.db, i)
        ensures i in t.items && t.items[i].fin == s.db.items[i].fin
      {
        assert i in mid.db.items && mid.db.items[i].fin == s.db.items[i].fin && Frozen(mid.db, i);
      }
    }
  }
}
