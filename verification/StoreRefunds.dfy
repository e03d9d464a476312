/** Refund accounting and the payment status it decides (db/repo/admin.py). */
module StoreRefunds {
  import opened Common
  import opened Pricing
  import opened StoreModel
  import opened StoreRuns
  import opened StoreBooks
  import opened StoreDiscipline

  // ---------------------------------------------------------------- refund status

  /** While nothing was refunded the order is unpaid or paid; afterwards the sum alone decides. */
  predicate StatusMatchesRefunds(db: Db) {
    forall o :: 0 <= o < |db.orders| ==>
      if RefundSum(db.refunds, o) == 0 then db.orders[o].payment == Unpaid || db.orders[o].payment == Paid
      else db.orders[o].payment == if RefundSum(db.refunds, o) >= db.orders[o].total then FullyRefunded else PartiallyRefunded
  }

  lemma {:induction false} RefundSetsStatus(db: Db, o: nat, item: Option<nat>, amount: int, qty: Option<int>)
    requires StatusMatchesRefunds(db) && RefundsAgree(db)
    ensures StatusMatchesRefunds(Commit(db, RefundOrder(db, o, item, amount, qty)))
  {
    if RefundOrder(db, o, item, amount, qty).Ok? {
      var d := RefundOrder(db, o, item, amount, qty).value;
      assert d.refunds[..|db.refunds|] == db.refunds;
      RefundSumNonNegative(db.refunds, o);
    }
  }

  lemma {:induction false} PlacedSetsStatus(db: Db, ps: seq<Priced>, t: Totals)
    requires StatusMatchesRefunds(db) && RefundsAgree(db)
    ensures StatusMatchesRefunds(Placed(db, ps, t))
  {
    NoRefundsYet(db.refunds, |db.orders|, db.nextItem, |db.orders|, 0);
  }

  lemma {:induction false} OtherStepsKeepStatus(s: Sys, step: Step)
    requires StatusMatchesRefunds(s.db) && AppStep(step) && PaysOnce(s, step) && !step.DoRefund? && !step.DoPlaceOrder?
    ensures StatusMatchesRefunds(Commit(s.db, Attempt(s.db, step)))
  {}

  lemma {:induction false} RunKeepsStatus(s: Sys, steps: seq<Step>)
    requires StatusMatchesRefunds(s.db) && RefundsAgree(s.db) && UnrepaidRun(s, steps)
    ensures StatusMatchesRefunds(Run(s, steps).db) && RefundsAgree(Run(s, steps).db)
    decreases |steps|
  {
    if steps != [] {
      var step := steps[0];
      ExecCommitsOrNot(s, step);
      StepKeepsRefunds(s, step);
      if step.DoRefund? {
        RefundSetsStatus(s.db, step.order, step.refunded, step.amount, step.qty);
      } else if step.DoPlaceOrder? {
        if Attempt(s.db, step).Ok? {
          var ps, t := PlaceOrderCommits(s.db, step);
          PlacedSetsStatus(s.db, ps, t);
        }
      } else {
        OtherStepsKeepStatus(s, step);
      }
      RunKeepsStatus(Exec(s, step), steps[1..]);
    }
  }

  /**
   In every application run in which no order is paid again after a refund, refund rows decide the
   counters and the final status, whatever else happened in between.
   */
  lemma {:induction false} RefundsDecideStatus(s: Sys, steps: seq<Step>, o: nat)
    requires Initial(s) && UnrepaidRun(s, steps)
    ensures var db := Run(s, steps).db;
      var sum := RefundSum(db.refunds, o);
      && (o < |db.orders| ==>
            && db.orders[o].refunded == sum
            && (sum > 0 ==> (db.orders[o].payment == FullyRefunded <==> sum >= db.orders[o].total))
            && (sum > 0 ==> (db.orders[o].payment == PartiallyRefunded <==> sum < db.orders[o].total))
            && (sum == 0 ==> db.orders[o].payment == Unpaid || db.orders[o].payment == Paid))
      && forall i :: i in db.items ==>
           db.items[i].refundedQty == RefundedQty(db.refunds, i) && 0 <= RefundedQty(db.refunds, i) <= db.items[i].fin.qty
  {
    RunKeepsStatus(s, steps);
  }

  /** The sums, per order and per line, do not depend on the order in which the refunds were made. */
  lemma {:induction false} RefundOrderIrrelevant(a: seq<Refund>, b: seq<Refund>, o: nat, i: nat)
    requires multiset(a) == multiset(b)
    ensures RefundSum(a, o) == RefundSum(b, o) && RefundedQty(a, i) == RefundedQty(b, i)
    decreases |a|
  {
    if a == [] {
      assert |multiset(b)| == 0;
    } else {
      var r, front := a[|a| - 1], a[..|a| - 1];
      assert a == front + [r];
      var x, y := TakeOut(r, front, b);
      RefundOrderIrrelevant(front, x + y, o, i);
      RefundRemove(x, r, y, o, i);
    }
  }

  lemma {:induction false} RefundRemove(x: seq<Refund>, r: Refund, y: seq<Refund>, o: nat, i: nat)
    ensures RefundSum(x + [r] + y, o) == RefundSum(x + y, o) + if r.order == o then r.amount else 0
    ensures RefundedQty(x + [r] + y, i) == RefundedQty(x + y, i) + if r.item == Some(i) && r.qty.Some? then r.qty.value else 0
  {
    if y == [] {
      assert x + [r] + y == x + [r] && (x + [r])[..|x|] == x && x + y == x;
    } else {
      var front := y[..|y| - 1];
      RefundRemove(x, r, front, o, i);
      assert (x + [r] + y)[..|x| + |y|] == x + [r] + front && (x + y)[..|x| + |y| - 1] == x + front;
    }
  }
}
