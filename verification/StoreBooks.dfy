/**
 What the application's own transactions keep, in every run without raw edits of order lines:
 totals match lines, the production rollup matches the stations, refunds add up, and each
 order was announced exactly once.
 */
module StoreBooks {
  import opened Common
  import opened Pricing
  import opened StoreModel
  import opened StoreRuns

  predicate AppStep(step: Step) {
    !step.DoEditItem? && !step.DoDeleteItem?
  }

  predicate AppRun(steps: seq<Step>) {
    forall k :: 0 <= k < |steps| ==> AppStep(steps[k])
  }

  // ---------------------------------------------------------------- totals and rollup

  function LineValue(items: map<nat, Item>, ids: seq<nat>): int {
    if ids == [] then 0
    else
      var i := ids[|ids| - 1];
      LineValue(items, ids[..|ids| - 1]) + if i in items then items[i].fin.qty * items[i].fin.unitPrice else 0
  }

  /** An order's stored amounts and rollup agree with its lines. */
  predicate OrderAgrees(db: Db, o: nat)
    requires o < |db.orders|
  {
    && db.orders[o].subtotal == LineValue(db.items, Lines(db, o))
    && db.orders[o].total == db.orders[o].subtotal - db.orders[o].discount
    && db.orders[o].rollup == LeastAdvanced(db.items, Lines(db, o))
  }

  predicate Books(db: Db) {
    && WellKeyed(db)
    && (forall o :: 0 <= o < |db.orders| ==> OrderAgrees(db, o))
    && (forall i :: i in db.items ==> db.items[i].fin.qty > 0)
  }

  /** The id list of an order is exactly its lines, each once, in id order. */
  lemma {:induction false} LinesAreTheOrdersItems(items: map<nat, Item>, n: nat, o: nat)
    ensures var ids := LinesOf(items, n, o);
      && (forall i :: i in ids <==> i < n && i in items && items[i].fin.order == o)
      && (forall j, k :: 0 <= j < k < |ids| ==> ids[j] < ids[k])
  {
    if n > 0 {
      LinesAreTheOrdersItems(items, n - 1, o);
      var ids, before := LinesOf(items, n, o), LinesOf(items, n - 1, o);
      forall j, k | 0 <= j < k < |ids|
        ensures ids[j] < ids[k]
      {
        assert before[j] in before;
      }
    }
  }

  /** The rollup is the station of some live line, and no live line is behind it. */
  lemma {:induction false} LeastAdvancedIsLeast(items: map<nat, Item>, ids: seq<nat>)
    ensures var m := LeastAdvanced(items, ids);
      && (m.None? <==> forall k :: 0 <= k < |ids| && ids[k] in items ==> items[ids[k]].status == Cancelled)
      && (m.Some? ==> exists k :: 0 <= k < |ids| && ids[k] in items && items[ids[k]].status == m.value != Cancelled)
      && (m.Some? ==> forall k :: 0 <= k < |ids| && ids[k] in items && items[ids[k]].status != Cancelled ==>
            m.value.Rank() <= items[ids[k]].status.Rank())
  {
    if ids != [] {
      var front := ids[..|ids| - 1];
      LeastAdvancedIsLeast(items, front);
      assert forall k :: 0 <= k < |front| ==> front[k] == ids[k];
    }
  }

  lemma {:induction false} LinesFrame(a: map<nat, Item>, b: map<nat, Item>, n: nat, o: nat)
    requires forall i :: 0 <= i < n ==> (i in a <==> i in b) && (i in a ==> a[i].fin.order == b[i].fin.order)
    ensures LinesOf(a, n, o) == LinesOf(b, n, o)
  {
    if n > 0 { LinesFrame(a, b, n - 1, o); }
  }

  lemma {:induction false} ValueFrame(a: map<nat, Item>, b: map<nat, Item>, ids: seq<nat>)
    requires forall k :: 0 <= k < |ids| ==> (ids[k] in a <==> ids[k] in b) && (ids[k] in a ==> a[ids[k]].fin == b[ids[k]].fin)
    ensures LineValue(a, ids) == LineValue(b, ids)
  {
    if ids != [] { ValueFrame(a, b, ids[..|ids| - 1]); }
  }

  lemma {:induction false} LeastFrame(a: map<nat, Item>, b: map<nat, Item>, ids: seq<nat>)
    requires forall k :: 0 <= k < |ids| ==> (ids[k] in a <==> ids[k] in b) && (ids[k] in a ==> a[ids[k]].status == b[ids[k]].status)
    ensures LeastAdvanced(a, ids) == LeastAdvanced(b, ids)
  {
    if ids != [] { LeastFrame(a, b, ids[..|ids| - 1]); }
  }

  /** Nothing Books looks at in order `o` changed, except possibly a recomputed rollup. */
  lemma {:induction false} OrderFrame(a: Db, b: Db, o: nat)
    requires Books(a) && o < |a.orders| && |b.orders| >= |a.orders| && b.nextItem == a.nextItem
    requires a.items.Keys == b.items.Keys
    requires forall i :: i in a.items ==> a.items[i].fin == b.items[i].fin
    requires b.orders[o].subtotal == a.orders[o].subtotal && b.orders[o].total == a.orders[o].total
          && b.orders[o].discount == a.orders[o].discount
    requires || b.orders[o].rollup == LeastAdvanced(b.items, Lines(b, o))
             || (&& b.orders[o].rollup == a.orders[o].rollup
                 && forall i :: i in a.items && a.items[i].fin.order == o ==> a.items[i].status == b.items[i].status)
    ensures OrderAgrees(b, o)
  {
    LinesFrame(a.items, b.items, a.nextItem, o);
    LinesAreTheOrdersItems(a.items, a.nextItem, o);
    assert forall k :: 0 <= k < |Lines(a, o)| ==> Lines(a, o)[k] in Lines(a, o);
    ValueFrame(a.items, b.items, Lines(a, o));
    assert OrderAgrees(a, o);
    if b.orders[o].rollup == a.orders[o].rollup &&
       (forall i :: i in a.items && a.items[i].fin.order == o ==> a.items[i].status == b.items[i].status) {
      LeastFrame(a.items, b.items, Lines(a, o));
    }
  }

  lemma {:induction false} LinesPad(items: map<nat, Item>, n: nat, k: nat, o: nat)
    requires forall i :: n <= i < n + k && i in items ==> items[i].fin.order != o
    ensures LinesOf(items, n + k, o) == LinesOf(items, n, o)
  {
    if k > 0 { LinesPad(items, n, k - 1, o); }
  }

  /** Ids n, n+1, ... carry exactly these new lines of order `o`, and nothing before them does. */
  predicate FreshLines(items: map<nat, Item>, n: nat, o: nat, ps: seq<Priced>) {
    && (forall i :: 0 <= i < n && i in items ==> items[i].fin.order != o)
    && (forall k :: n <= k < n + |ps| ==> k in items && items[k] == NewItem(o, ps[k - n]))
  }

  lemma {:induction false} NewLinesStep(items: map<nat, Item>, n: nat, o: nat, ps: seq<Priced>)
    requires FreshLines(items, n, o, ps) && ps != []
    ensures var before, i := LinesOf(items, n + |ps| - 1, o), n + |ps| - 1;
      && FreshLines(items, n, o, ps[..|ps| - 1])
      && items[i] == NewItem(o, ps[|ps| - 1])
      && LinesOf(items, n + |ps|, o) == before + [i] && (before + [i])[..|before|] == before
  {}

  /** The new order's lines are worth the charged subtotal. */
  lemma {:induction false} NewLinesValue(items: map<nat, Item>, n: nat, o: nat, ps: seq<Priced>)
    requires FreshLines(items, n, o, ps)
    ensures LineValue(items, LinesOf(items, n + |ps|, o)) == PricedSubtotal(ps)
  {
    if ps == [] {
      LinesPad(items, 0, n, o);
    } else {
      NewLinesStep(items, n, o, ps);
      NewLinesValue(items, n, o, ps[..|ps| - 1]);
    }
  }

  /** All of them stand at the first station. */
  lemma {:induction false} NewLinesRollup(items: map<nat, Item>, n: nat, o: nat, ps: seq<Priced>)
    requires FreshLines(items, n, o, ps)
    ensures LeastAdvanced(items, LinesOf(items, n + |ps|, o)) == (if ps == [] then None else Some(Queued))
  {
    if ps == [] {
      LinesPad(items, 0, n, o);
    } else {
      NewLinesStep(items, n, o, ps);
      NewLinesRollup(items, n, o, ps[..|ps| - 1]);
    }
  }

  lemma {:induction false} PlacedLinesAreFresh(db: Db, ps: seq<Priced>, t: Totals)
    requires WellKeyed(db)
    ensures FreshLines(Placed(db, ps, t).items, db.nextItem, |db.orders|, ps)
  {
    PlacedAddsLines(db, ps, t);
  }

  /** Tables that agree below `n` show the same order below `n`. */
  lemma {:induction false} SameView(a: map<nat, Item>, b: map<nat, Item>, n: nat, o: nat)
    requires forall i :: 0 <= i < n ==> (i in a <==> i in b) && (i in a ==> a[i] == b[i])
    ensures LinesOf(a, n, o) == LinesOf(b, n, o)
    ensures LineValue(a, LinesOf(a, n, o)) == LineValue(b, LinesOf(a, n, o))
    ensures LeastAdvanced(a, LinesOf(a, n, o)) == LeastAdvanced(b, LinesOf(a, n, o))
  {
    var ids := LinesOf(a, n, o);
    LinesFrame(a, b, n, o);
    LinesAreTheOrdersItems(a, n, o);
    assert forall k :: 0 <= k < |ids| ==> ids[k] in ids;
    ValueFrame(a, b, ids);
    LeastFrame(a, b, ids);
  }

  lemma {:induction false} OldOrderView(db: Db, ps: seq<Priced>, t: Totals, o: nat)
    requires WellKeyed(db) && o < |db.orders|
    ensures var d := Placed(db, ps, t);
      && Lines(d, o) == Lines(db, o)
      && LineValue(d.items, Lines(db, o)) == LineValue(db.items, Lines(db, o))
      && LeastAdvanced(d.items, Lines(db, o)) == LeastAdvanced(db.items, Lines(db, o))
  {
    PlacedAddsLines(db, ps, t);
    LinesPad(Placed(db, ps, t).items, db.nextItem, |ps|, o);
    SameView(db.items, Placed(db, ps, t).items, db.nextItem, o);
  }

  lemma {:induction false} OldOrderAgrees(db: Db, ps: seq<Priced>, t: Totals, o: nat)
    requires Books(db) && o < |db.orders|
    ensures OrderAgrees(Placed(db, ps, t), o)
  {
    OldOrderView(db, ps, t, o);
    assert OrderAgrees(db, o);
  }

  lemma {:induction false} NewOrderView(db: Db, ps: seq<Priced>, t: Totals)
    requires WellKeyed(db)
    ensures var d := Placed(db, ps, t);
      && LineValue(d.items, Lines(d, |db.orders|)) == PricedSubtotal(ps)
      && LeastAdvanced(d.items, Lines(d, |db.orders|)) == (if ps == [] then None else Some(Queued))
  {
    PlacedLinesAreFresh(db, ps, t);
    NewLinesValue(Placed(db, ps, t).items, db.nextItem, |db.orders|, ps);
    NewLinesRollup(Placed(db, ps, t).items, db.nextItem, |db.orders|, ps);
  }

  lemma {:induction false} NewOrderAgrees(db: Db, ps: seq<Priced>, t: Totals)
    requires Books(db) && t.subtotal == PricedSubtotal(ps) && t.total == t.subtotal - t.discount
    ensures OrderAgrees(Placed(db, ps, t), |db.orders|)
  {
    NewOrderView(db, ps, t);
  }

  lemma {:induction false} PlacedKeepsBooks(db: Db, ps: seq<Priced>, t: Totals)
    requires Books(db) && PlaceChecks(t, ps)
    requires t.subtotal == PricedSubtotal(ps) && t.total == t.subtotal - t.discount
    ensures Books(Placed(db, ps, t))
  {
    PlacedAddsLines(db, ps, t);
    forall o | 0 <= o < |db.orders| + 1
      ensures OrderAgrees(Placed(db, ps, t), o)
    {
      if o < |db.orders| { OldOrderAgrees(db, ps, t, o); } else { NewOrderAgrees(db, ps, t); }
    }
  }

  lemma {:induction false} PlaceOrderKeepsBooks(db: Db, step: Step)
    requires Books(db) && step.DoPlaceOrder?
    ensures Books(Commit(db, Attempt(db, step)))
  {
    if Attempt(db, step).Ok? {
      var ps, t := PlaceOrderCommits(db, step);
      PlacedKeepsBooks(db, ps, t);
    }
  }

  lemma {:induction false} FrameKeepsBooks(a: Db, b: Db)
    requires Books(a) && |b.orders| == |a.orders| && b.nextItem == a.nextItem && b.items == a.items
    requires forall o :: 0 <= o < |a.orders| ==>
      b.orders[o] == a.orders[o].(payment := b.orders[o].payment, paidAt := b.orders[o].paidAt)
    ensures Books(b)
  {
    forall o | 0 <= o < |b.orders|
      ensures OrderAgrees(b, o)
    {
      OrderFrame(a, b, o);
    }
  }

  lemma {:induction false} LedgerStepsKeepBooks(db: Db, step: Step)
    requires Books(db) && (WritesLedger(step) || step.DoCrash?)
    ensures Books(Commit(db, Attempt(db, step)))
  {
    FrameKeepsBooks(db, Commit(db, Attempt(db, step)));
  }

  lemma {:induction false} SetStationKeepsBooks(db: Db, i: nat, to: Station)
    requires Books(db)
    ensures Books(Commit(db, SetStation(db, i, to)))
  {
    if SetStation(db, i, to).Ok? {
      var d := SetStation(db, i, to).value;
      forall o | 0 <= o < |d.orders|
        ensures OrderAgrees(d, o)
      {
        OrderFrame(db, d, o);
      }
    }
  }

  lemma {:induction false} CancelOrderKeepsBooks(db: Db, o: nat)
    requires Books(db)
    ensures Books(CancelOrder(db, o))
  {
    var d := CancelOrder(db, o);
    forall k | 0 <= k < |d.orders|
      ensures OrderAgrees(d, k)
    {
      OrderFrame(db, d, k);
    }
  }

  lemma {:induction false} RefundKeepsBooks(db: Db, o: nat, item: Option<nat>, amount: int, qty: Option<int>)
    requires Books(db)
    ensures Books(Commit(db, RefundOrder(db, o, item, amount, qty)))
  {
    if RefundOrder(db, o, item, amount, qty).Ok? {
      var d := RefundOrder(db, o, item, amount, qty).value;
      forall k | 0 <= k < |d.orders|
        ensures OrderAgrees(d, k)
      {
        OrderFrame(db, d, k);
      }
    }
  }

  lemma {:induction false} StepKeepsBooks(s: Sys, step: Step)
    requires Books(s.db) && AppStep(step)
    ensures Books(Exec(s, step).db)
  {
    ExecCommitsOrNot(s, step);
    if step.DoPlaceOrder? {
      PlaceOrderKeepsBooks(s.db, step);
    } else if step.DoSetStation? {
      SetStationKeepsBooks(s.db, step.item, step.to);
    } else if step.DoCancelOrder? {
      CancelOrderKeepsBooks(s.db, step.order);
    } else if step.DoRefund? {
      RefundKeepsBooks(s.db, step.order, step.refunded, step.amount, step.qty);
    } else {
      LedgerStepsKeepBooks(s.db, step);
    }
  }

  // ---------------------------------------------------------------- refunds

  function RefundSum(rs: seq<Refund>, o: nat): int {
    if rs == [] then 0
    else RefundSum(rs[..|rs| - 1], o) + if rs[|rs| - 1].order == o then rs[|rs| - 1].amount else 0
  }

  function RefundedQty(rs: seq<Refund>, i: nat): int {
    if rs == [] then 0
    else
      var r := rs[|rs| - 1];
      RefundedQty(rs[..|rs| - 1], i) + if r.item == Some(i) && r.qty.Some? then r.qty.value else 0
  }

  /** The two counters are sums over the refund rows, and no line is refunded beyond its quantity. */
  predicate RefundsAgree(db: Db) {
    && WellKeyed(db)
    && (forall k :: 0 <= k < |db.refunds| ==>
          && db.refunds[k].order < |db.orders| && db.refunds[k].amount > 0
          && (db.refunds[k].item.Some? ==> db.refunds[k].item.value < db.nextItem))
    && (forall o :: 0 <= o < |db.orders| ==> db.orders[o].refunded == RefundSum(db.refunds, o))
    && (forall i :: i in db.items ==>
          db.items[i].refundedQty == RefundedQty(db.refunds, i) && 0 <= db.items[i].refundedQty <= db.items[i].fin.qty)
  }

  lemma {:induction false} NoRefundsYet(rs: seq<Refund>, orders: nat, nextItem: nat, o: nat, i: nat)
    requires forall k :: 0 <= k < |rs| ==> rs[k].order < orders && (rs[k].item.Some? ==> rs[k].item.value < nextItem)
    ensures o >= orders ==> RefundSum(rs, o) == 0
    ensures i >= nextItem ==> RefundedQty(rs, i) == 0
  {
    if rs != [] { NoRefundsYet(rs[..|rs| - 1], orders, nextItem, o, i); }
  }

  lemma {:induction false} RefundSumNonNegative(rs: seq<Refund>, o: nat)
    requires forall k :: 0 <= k < |rs| ==> rs[k].amount > 0
    ensures RefundSum(rs, o) >= 0
  {
    if rs != [] { RefundSumNonNegative(rs[..|rs| - 1], o); }
  }

  lemma {:induction false} PlacedKeepsRefunds(db: Db, ps: seq<Priced>, t: Totals)
    requires RefundsAgree(db) && PlaceChecks(t, ps)
    ensures RefundsAgree(Placed(db, ps, t))
  {
    var d := Placed(db, ps, t);
    PlacedAddsLines(db, ps, t);
    NoRefundsYet(db.refunds, |db.orders|, db.nextItem, |db.orders|, 0);
    forall i | i in d.items
      ensures d.items[i].refundedQty == RefundedQty(d.refunds, i) && 0 <= d.items[i].refundedQty <= d.items[i].fin.qty
    {
      if i >= db.nextItem { NoRefundsYet(db.refunds, |db.orders|, db.nextItem, 0, i); }
    }
  }

  lemma {:induction false} RefundKeepsRefunds(db: Db, o: nat, item: Option<nat>, amount: int, qty: Option<int>)
    requires RefundsAgree(db)
    ensures RefundsAgree(Commit(db, RefundOrder(db, o, item, amount, qty)))
  {
    if RefundOrder(db, o, item, amount, qty).Ok? {
      var d := RefundOrder(db, o, item, amount, qty).value;
      assert d.refunds[..|db.refunds|] == db.refunds;
    }
  }

  lemma {:induction false} OtherStepsKeepRefunds(db: Db, step: Step)
    requires RefundsAgree(db) && (WritesLedger(step) || step.DoCrash?)
    ensures RefundsAgree(Commit(db, Attempt(db, step)))
  {}

  lemma {:induction false} SetStationKeepsRefunds(db: Db, i: nat, to: Station)
    requires RefundsAgree(db)
    ensures RefundsAgree(Commit(db, SetStation(db, i, to)))
  {}

  lemma {:induction false} CancelOrderKeepsRefunds(db: Db, o: nat)
    requires RefundsAgree(db)
    ensures RefundsAgree(CancelOrder(db, o))
  {}

  lemma {:induction false} StepKeepsRefunds(s: Sys, step: Step)
    requires RefundsAgree(s.db) && AppStep(step)
    ensures RefundsAgree(Exec(s, step).db)
  {
    ExecCommitsOrNot(s, step);
    if step.DoPlaceOrder? {
      if Attempt(s.db, step).Ok? {
        var ps, t := PlaceOrderCommits(s.db, step);
        PlacedKeepsRefunds(s.db, ps, t);
      }
    } else if step.DoRefund? {
      RefundKeepsRefunds(s.db, step.order, step.refunded, step.amount, step.qty);
    } else if step.DoSetStation? {
      SetStationKeepsRefunds(s.db, step.item, step.to);
    } else if step.DoCancelOrder? {
      CancelOrderKeepsRefunds(s.db, step.order);
    } else {
      OtherStepsKeepRefunds(s.db, step);
    }
  }

  // ---------------------------------------------------------------- announcements

  datatype Topic = PlacedTopic | PaidTopic

  predicate About(m: Message, topic: Topic, o: nat) {
    match topic
    case PlacedTopic => m.OrderPlaced? && m.order == o
    case PaidTopic => m.OrderPaid? && m.order == o
  }

  /** How many outbox rows of this topic name the order. */
  function Announcements(outbox: seq<Message>, topic: Topic, o: nat): nat {
    if outbox == [] then 0
    else Announcements(outbox[..|outbox| - 1], topic, o) + if About(outbox[|outbox| - 1], topic, o) then 1 else 0
  }

  ghost predicate PlacedOnce(db: Db) {
    forall o: nat :: Announcements(db.outbox, PlacedTopic, o) == if o < |db.orders| then 1 else 0
  }

  /** A step appends at most one message. */
  lemma {:induction false} StepAppendsOneMessage(db: Db, step: Step)
    requires !step.DoPlaceOrder? && AppStep(step)
    ensures var d := Commit(db, Attempt(db, step));
      && |d.orders| == |db.orders|
      && (d.outbox == db.outbox
          || (|d.outbox| == |db.outbox| + 1 && d.outbox[..|db.outbox|] == db.outbox && !d.outbox[|db.outbox|].OrderPlaced?))
  {}

  lemma {:induction false} PlacedAnnouncesOnce(db: Db, ps: seq<Priced>, t: Totals)
    requires PlacedOnce(db)
    ensures PlacedOnce(Placed(db, ps, t))
  {
    assert Placed(db, ps, t).outbox[..|db.outbox|] == db.outbox;
  }

  lemma {:induction false} OtherMessagesKeepPlacedOnce(a: Db, b: Db)
    requires PlacedOnce(a) && |b.orders| == |a.orders|
    requires b.outbox == a.outbox
          || (|b.outbox| == |a.outbox| + 1 && b.outbox[..|a.outbox|] == a.outbox && !b.outbox[|a.outbox|].OrderPlaced?)
    ensures PlacedOnce(b)
  {}

  lemma {:induction false} StepKeepsPlacedOnce(s: Sys, step: Step)
    requires PlacedOnce(s.db) && AppStep(step)
    ensures PlacedOnce(Exec(s, step).db)
  {
    ExecCommitsOrNot(s, step);
    if !step.DoPlaceOrder? {
      StepAppendsOneMessage(s.db, step);
      OtherMessagesKeepPlacedOnce(s.db, Commit(s.db, Attempt(s.db, step)));
    } else if Attempt(s.db, step).Ok? {
      var ps, t := PlaceOrderCommits(s.db, step);
      PlacedAnnouncesOnce(s.db, ps, t);
    }
  }

  // ---------------------------------------------------------------- all application runs

  ghost predicate AppInvariant(db: Db) {
    Books(db) && RefundsAgree(db) && PlacedOnce(db)
  }

  lemma {:induction false} AppRunsKeepBooks(s: Sys, steps: seq<Step>)
    requires AppInvariant(s.db) && AppRun(steps)
    ensures AppInvariant(Run(s, steps).db)
    decreases |steps|
  {
    if steps != [] {
      StepKeepsBooks(s, steps[0]);
      StepKeepsRefunds(s, steps[0]);
      StepKeepsPlacedOnce(s, steps[0]);
      AppRunsKeepBooks(Exec(s, steps[0]), steps[1..]);
    }
  }

  /** Every reachable state of the application keeps its books. */
  lemma {:induction false} BooksAlwaysBalance(s: Sys, steps: seq<Step>)
    requires Initial(s) && AppRun(steps)
    ensures AppInvariant(Run(s, steps).db)
  {
    assert forall o: nat :: Announcements(s.db.outbox, PlacedTopic, o) == 0;
    AppRunsKeepBooks(s, steps);
  }
}
