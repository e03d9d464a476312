/**
 What the outbox says is true: the amounts in the announcements are those of the orders, in every
 run of the application.
 */
module StoreMessages {
  import opened Pricing
  import opened StoreModel
  import opened StoreRuns
  import opened StoreBooks

  /** The message agrees with the order it names. */
  predicate Says(db: Db, m: Message) {
    match m
    case OrderPlaced(o, total, _) => o < |db.orders| && db.orders[o].total == total
    case OrderPaid(o, total) => o < |db.orders| && db.orders[o].total == total && db.orders[o].paidAt
    case OrderCancelled(_) => true
    case OrderRefunded(o, amount) => o < |db.orders| && 0 < amount <= db.orders[o].refunded
    case External(_, _) => true
  }

  /** The refund amounts announced for an order. */
  function RefundsSaid(outbox: seq<Message>, o: nat): int {
    if outbox == [] then 0
    else
      var m := outbox[|outbox| - 1];
      RefundsSaid(outbox[..|outbox| - 1], o) + if m.OrderRefunded? && m.order == o then m.amount else 0
  }

  function RefundedAt(db: Db, o: nat): int {
    if o < |db.orders| then db.orders[o].refunded else 0
  }

  ghost predicate Truthful(db: Db) {
    && (forall k :: 0 <= k < |db.outbox| ==> Says(db, db.outbox[k]))
    && (forall o: nat :: RefundsSaid(db.outbox, o) == RefundedAt(db, o) >= 0)
  }

  /** Orders keep what the messages speak of, and the refunded amount only grows. */
  predicate OrdersKept(a: Db, b: Db) {
    && |a.orders| <= |b.orders|
    && forall o :: 0 <= o < |a.orders| ==>
         && b.orders[o].total == a.orders[o].total && b.orders[o].refunded >= a.orders[o].refunded
         && (a.orders[o].paidAt ==> b.orders[o].paidAt)
  }

  /** The step said nothing, or appended one true message that accounts for what was refunded. */
  ghost predicate SaidSo(a: Db, b: Db) {
    && OrdersKept(a, b)
    && if b.outbox == a.outbox then forall o: nat :: RefundedAt(b, o) == RefundedAt(a, o)
       else
         && |b.outbox| == |a.outbox| + 1 && b.outbox[..|a.outbox|] == a.outbox
         && var m := b.outbox[|a.outbox|];
            && (RefundsTrue(a) ==> Says(b, m))
            && forall o: nat :: RefundedAt(b, o) == RefundedAt(a, o) + if m.OrderRefunded? && m.order == o then m.amount else 0
  }

  ghost predicate RefundsTrue(db: Db) {
    forall o: nat :: RefundedAt(db, o) >= 0
  }

  lemma {:induction false} SaidSoKeepsTruthful(a: Db, b: Db)
    requires Truthful(a) && SaidSo(a, b)
    ensures Truthful(b)
  {
    forall k | 0 <= k < |b.outbox|
      ensures Says(b, b.outbox[k])
    {
      if k < |a.outbox| { assert Says(a, a.outbox[k]) && b.outbox[..|a.outbox|][k] == a.outbox[k]; }
    }
  }

  lemma {:induction false} PlacedSaysSo(db: Db, ps: seq<Priced>, t: Totals)
    ensures SaidSo(db, Placed(db, ps, t))
  {
    assert Placed(db, ps, t).outbox[..|db.outbox|] == db.outbox;
  }

  lemma {:induction false} PaymentSaysSo(db: Db, o: nat)
    ensures SaidSo(db, Commit(db, MarkPaid(db, o)))
  {
    if o < |db.orders| && db.orders[o].payment != Paid && MarkPaid(db, o).Ok? {
      var d := MarkPaid(db, o).value;
      assert d.outbox == db.outbox + [OrderPaid(o, db.orders[o].total)];
      assert d.orders == db.orders[o := db.orders[o].(payment := Paid, paidAt := true)];
    }
  }

  lemma {:induction false} RefundSaysSo(db: Db, step: Step)
    requires step.DoRefund?
    ensures SaidSo(db, Commit(db, Attempt(db, step)))
  {
    if Attempt(db, step).Ok? {
      assert Attempt(db, step).value.outbox[..|db.outbox|] == db.outbox;
      assert RefundedAt(db, step.order) == db.orders[step.order].refunded;
    }
  }

  lemma {:induction false} CancelSaysSo(db: Db, o: nat)
    ensures SaidSo(db, CancelOrder(db, o))
  {
    assert CancelOrder(db, o).outbox[..|db.outbox|] == db.outbox;
  }

  lemma {:induction false} QuietStepsSayNothing(db: Db, step: Step)
    requires step.DoSetStation? || step.DoConsume? || step.DoCrash? || step.DoRestock? || step.DoAdjust?
    ensures SaidSo(db, Commit(db, Attempt(db, step)))
  {}

  lemma {:induction false} StepSaysSo(db: Db, step: Step)
    requires AppStep(step)
    ensures SaidSo(db, Commit(db, Attempt(db, step)))
  {
    match step
    case DoPlaceOrder(_, _, _) =>
      if Attempt(db, step).Ok? {
        var ps, t := PlaceOrderCommits(db, step);
        PlacedSaysSo(db, ps, t);
      }
    case DoMarkPaid(o) => PaymentSaysSo(db, o);
    case DoRefund(_, _, _, _) => RefundSaysSo(db, step);
    case DoCancelOrder(o) => CancelSaysSo(db, o);
    case _ => QuietStepsSayNothing(db, step);
  }

  lemma {:induction false} RunKeepsTruthful(s: Sys, steps: seq<Step>)
    requires Truthful(s.db) && AppRun(steps)
    ensures Truthful(Run(s, steps).db)
    decreases |steps|
  {
    if steps != [] {
      var t := Exec(s, steps[0]);
      ExecCommitsOrNot(s, steps[0]);
      StepSaysSo(s.db, steps[0]);
      if t.db != s.db { SaidSoKeepsTruthful(s.db, t.db); }
      assert forall k :: 0 <= k < |steps[1..]| ==> steps[1..][k] == steps[k + 1];
      RunKeepsTruthful(t, steps[1..]);
    }
  }

  /**
   In every application run: each placed or paid message carries its order's total, a paid message
   names an order that was paid, and the refund messages of an order sum to its refunded cents.
   */
  lemma {:induction false} MessagesAreTrue(s: Sys, steps: seq<Step>)
    requires Initial(s) && AppRun(steps)
    ensures Truthful(Run(s, steps).db)
  {
    RunKeepsTruthful(s, steps);
  }
}
