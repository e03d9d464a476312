/**
 What happens at most once per line and order, over every run of the application: stations in any
 order, unpaid lines printed, restocks racing consumes, webhooks replayed, crashes anywhere.
 */
module StoreOnce {
  import opened Common
  import opened Inventory
  import opened Pricing
  import opened StoreModel
  import opened StoreRuns
  import opened StoreBooks
  import opened StorePhases
  import opened StoreSteps
  import opened StoreDiscipline
  import opened StoreAdmissible

  // ---------------------------------------------------------------- counting a line's rows

  /** How many rows of a reason a line has for one component. */
  function Count(rows: seq<Row>, reason: Reason, c: nat): nat {
    if rows == [] then 0
    else (if rows[0].reason == reason && rows[0].component == c then 1 else 0) + Count(rows[1..], reason, c)
  }

  lemma {:induction false} CountAppend(a: seq<Row>, b: seq<Row>, reason: Reason, c: nat)
    ensures Count(a + b, reason, c) == Count(a, reason, c) + Count(b, reason, c)
  {
    if a == [] {
      assert a + b == b;
    } else {
      assert (a + b)[0] == a[0] && (a + b)[1..] == a[1..] + b;
      CountAppend(a[1..], b, reason, c);
    }
  }

  lemma {:induction false} CountItemRows(lines: seq<BomLine>, components: nat, qty: int, i: nat, a: int, b: int,
                                         written: Reason, reason: Reason, c: nat)
    requires -1 <= a <= 1 && -1 <= b <= 1 && ValidLines(lines, components)
    ensures Count(ItemRows(lines, qty, i, a, b, written), reason, c)
         == if written == reason && BomQty(lines, c) > 0 then 1 else 0
  {
    if lines != [] {
      var rest := ItemRows(lines[1..], qty, i, a, b, written);
      assert ItemRows(lines, qty, i, a, b, written)[1..] == rest;
      CountItemRows(lines[1..], components, qty, i, a, b, written, reason, c);
      if lines[0].component == c { BomQtyAbsent(lines[1..], c); }
    }
  }

  /** Does this transaction flip the order to paid? */
  predicate Flips(db: Db, step: Step, o: nat) {
    step.DoMarkPaid? && step.order == o < |db.orders| && db.orders[o].payment != Paid
  }

  /** The ledger rows a transaction inserts when it commits. */
  function NewRows(db: Db, step: Step): seq<Row> {
    match step
    case DoMarkPaid(o) => if Flips(db, step, o) then ReserveRows(db, Lines(db, o)) else []
    case DoConsume(i) => if HasConsume(RowsOf(db.ledger, i)) then [] else LineRows(db, i, -1, -1, Consume)
    case DoRestock(i, reason) =>
      var net := Net(RowsOf(db.ledger, i));
      LineRows(db, i, if net.onHand < 0 then 1 else 0, if net.reserved > 0 then -1 else 0, reason)
    case DoAdjust(c, delta, reason) => [Row(c, delta, 0, reason, None)]
    case _ => []
  }

  /** A committed ledger step appends those rows and touches nothing else the counts rest on. */
  lemma {:induction false} CommitAppends(db: Db, step: Step)
    requires WritesLedger(step) && Attempt(db, step).Ok?
    ensures var d := Attempt(db, step).value;
      && d.ledger == db.ledger + NewRows(db, step) && d.items == db.items && d.bom == db.bom
      && d.nextItem == db.nextItem && |d.components| == |db.components| && |d.orders| == |db.orders|
      && forall o :: 0 <= o < |db.orders| ==>
           d.orders[o] == if Flips(db, step, o) then db.orders[o].(payment := Paid, paidAt := true) else db.orders[o]
  {
    match step
    case DoMarkPaid(o) =>
      if Flips(db, step, o) {
        var paid := db.(orders := db.orders[o := db.orders[o].(payment := Paid, paidAt := true)]);
        ApplyMovesByTotals(paid.components, ReserveRows(db, Lines(db, o)));
      }
    case DoConsume(i) => ApplyMovesByTotals(db.components, NewRows(db, step));
    case DoRestock(i, reason) => ApplyMovesByTotals(db.components, NewRows(db, step));
    case DoAdjust(c, delta, reason) => ApplyMovesByTotals(db.components, NewRows(db, step));
  }

  /** What a transaction writes for one line: the whole BOM in one direction, or nothing. */
  datatype Written = Nothing | Whole(a: int, b: int, reason: Reason)

  function WrittenFor(db: Db, step: Step, j: nat): (w: Written)
    requires j in db.items
    ensures w.Whole? ==> -1 <= w.a <= 1 && -1 <= w.b <= 1
  {
    match step
    case DoMarkPaid(o) => if Flips(db, step, db.items[j].fin.order) then Whole(0, 1, Reserve) else Nothing
    case DoConsume(i) => if i == j && !HasConsume(RowsOf(db.ledger, j)) then Whole(-1, -1, Consume) else Nothing
    case DoRestock(i, reason) =>
      var net := Net(RowsOf(db.ledger, j));
      if i == j then Whole(if net.onHand < 0 then 1 else 0, if net.reserved > 0 then -1 else 0, reason) else Nothing
    case _ => Nothing
  }

  lemma {:induction false} LineRowsOf(db: Db, i: nat, a: int, b: int, reason: Reason, j: nat)
    requires -1 <= a <= 1 && -1 <= b <= 1
    ensures RowsOf(LineRows(db, i, a, b, reason), j) == if i == j then LineRows(db, i, a, b, reason) else []
  {
    if i in db.items { RowsOfItemRows(LineBom(db, i), db.items[i].fin.qty, i, a, b, reason, j); }
  }

  lemma {:induction false} NewRowsOf(db: Db, step: Step, j: nat)
    requires WellKeyed(db)
    ensures j !in db.items ==> RowsOf(NewRows(db, step), j) == []
    ensures j in db.items ==>
      RowsOf(NewRows(db, step), j) == match WrittenFor(db, step, j)
        case Nothing => []
        case Whole(a, b, reason) => LineRows(db, j, a, b, reason)
  {
    match step
    case DoMarkPaid(o) =>
      LinesExist(db, o);
      if Flips(db, step, o) { ReserveRowsOf(db, Lines(db, o), j); }
    case DoConsume(i) => LineRowsOf(db, i, -1, -1, Consume, j);
    case DoRestock(i, reason) =>
      var net := Net(RowsOf(db.ledger, i));
      LineRowsOf(db, i, if net.onHand < 0 then 1 else 0, if net.reserved > 0 then -1 else 0, reason, j);
    case DoAdjust(c, delta, reason) => RowsOfAbsent(NewRows(db, step), j);
    case _ =>
  }

  // ---------------------------------------------------------------- what every application step keeps

  /** Rows exist only for lines that exist. */
  ghost predicate Unclaimed(db: Db) {
    forall i: nat :: i !in db.items ==> RowsOf(db.ledger, i) == []
  }

  ghost predicate Rooted(db: Db) {
    WellKeyed(db) && ValidBom(db) && Unclaimed(db)
  }

  /** A step's effect on the lines: known rows appended, old lines kept, new lines without rows. */
  ghost predicate Appends(db: Db, d: Db, step: Step) {
    && SameLines(db, d) && Rooted(d)
    && (forall i :: i in db.items ==> d.items[i].fin.order == db.items[i].fin.order)
    && (forall i :: i in d.items && i !in db.items ==> RowsOf(d.ledger, i) == [] && d.items[i].fin.order >= |db.orders|)
    && (forall i :: i in db.items ==> RowsOf(d.ledger, i) == RowsOf(db.ledger, i) + RowsWritten(db, step, i))
  }

  function RowsWritten(db: Db, step: Step, j: nat): seq<Row>
    requires j in db.items
  {
    match WrittenFor(db, step, j)
    case Nothing => []
    case Whole(a, b, reason) => LineRows(db, j, a, b, reason)
  }

  lemma {:induction false} LedgerStepAppends(db: Db, step: Step)
    requires Rooted(db) && WritesLedger(step) && Attempt(db, step).Ok?
    ensures Appends(db, Attempt(db, step).value, step)
  {
    var d := Attempt(db, step).value;
    CommitAppends(db, step);
    forall i: nat
      ensures RowsOf(d.ledger, i) == RowsOf(db.ledger, i) + RowsOf(NewRows(db, step), i)
    {
      RowsOfAppend(db.ledger, NewRows(db, step), i);
    }
    forall i: nat
      ensures i in db.items ==> RowsOf(NewRows(db, step), i) == RowsWritten(db, step, i)
      ensures i !in db.items ==> RowsOf(NewRows(db, step), i) == []
    {
      NewRowsOf(db, step, i);
    }
  }

  lemma {:induction false} QuietAppends(db: Db, d: Db, step: Step)
    requires Rooted(db) && Quiet(db, d) && !WritesLedger(step)
    ensures Appends(db, d, step)
  {
    forall i | i in db.items
      ensures RowsOf(d.ledger, i) == RowsOf(db.ledger, i) + RowsWritten(db, step, i)
    {
      assert RowsWritten(db, step, i) == [];
    }
  }

  lemma {:induction false} QuietStepAppends(db: Db, step: Step)
    requires Rooted(db) && AppStep(step) && !WritesLedger(step)
    ensures Appends(db, Commit(db, Attempt(db, step)), step)
  {
    QuietStep(db, step);
    QuietAppends(db, Commit(db, Attempt(db, step)), step);
  }

  // ---------------------------------------------------------------- consumed at most once

  ghost predicate ConsumedOnce(db: Db, i: nat)
    requires i in db.items
  {
    forall c: nat :: Count(RowsOf(db.ledger, i), Consume, c)
      == if HasConsume(RowsOf(db.ledger, i)) && BomQty(LineBom(db, i), c) > 0 then 1 else 0
  }

  ghost predicate AllConsumedOnce(db: Db) {
    Rooted(db) && forall i :: i in db.items ==> ConsumedOnce(db, i)
  }

  lemma {:induction false} WrittenCount(db: Db, step: Step, j: nat, reason: Reason, c: nat)
    requires ValidBom(db) && j in db.items
    ensures Count(RowsWritten(db, step, j), reason, c)
         == match WrittenFor(db, step, j)
            case Nothing => 0
            case Whole(_, _, written) => if written == reason && BomQty(LineBom(db, j), c) > 0 then 1 else 0
  {
    LineBomValid(db, j);
    match WrittenFor(db, step, j)
    case Nothing =>
    case Whole(a, b, written) =>
      CountItemRows(LineBom(db, j), |db.components|, db.items[j].fin.qty, j, a, b, written, reason, c);
  }

  lemma {:induction false} WrittenHasConsume(db: Db, step: Step, j: nat)
    requires j in db.items
    ensures HasConsume(RowsWritten(db, step, j)) <==>
      LineBom(db, j) != [] && WrittenFor(db, step, j).Whole? && WrittenFor(db, step, j).reason == Consume
  {
    match WrittenFor(db, step, j)
    case Nothing =>
    case Whole(a, b, written) =>
      ItemRowsReason(LineBom(db, j), db.items[j].fin.qty, j, a, b, written);
      if LineBom(db, j) != [] { assert RowsWritten(db, step, j)[0].reason == written; }
  }

  lemma {:induction false} HasConsumeAppend(a: seq<Row>, b: seq<Row>)
    ensures HasConsume(a + b) <==> HasConsume(a) || HasConsume(b)
  {
    if HasConsume(a) {
      var k :| 0 <= k < |a| && a[k].reason == Consume;
      assert (a + b)[k].reason == Consume;
    }
    if HasConsume(b) {
      var k :| 0 <= k < |b| && b[k].reason == Consume;
      assert (a + b)[|a| + k].reason == Consume;
    }
  }

  lemma {:induction false} LineStaysConsumedOnce(db: Db, d: Db, step: Step, j: nat)
    requires ValidBom(db) && Appends(db, d, step) && j in db.items && ConsumedOnce(db, j)
    requires step.DoRestock? ==> step.reason != Consume
    ensures ConsumedOnce(d, j)
  {
    var was, more := RowsOf(db.ledger, j), RowsWritten(db, step, j);
    HasConsumeAppend(was, more);
    WrittenHasConsume(db, step, j);
    forall c: nat
      ensures Count(RowsOf(d.ledger, j), Consume, c)
           == if HasConsume(RowsOf(d.ledger, j)) && BomQty(LineBom(d, j), c) > 0 then 1 else 0
    {
      CountAppend(was, more, Consume, c);
      WrittenCount(db, step, j, Consume, c);
    }
  }

  lemma {:induction false} AppendsKeepsConsumedOnce(db: Db, d: Db, step: Step)
    requires AllConsumedOnce(db) && Appends(db, d, step) && (step.DoRestock? ==> step.reason != Consume)
    ensures AllConsumedOnce(d)
  {
    forall j | j in d.items
      ensures ConsumedOnce(d, j)
    {
      if j in db.items { LineStaysConsumedOnce(db, d, step, j); }
    }
  }

  lemma {:induction false} StepKeepsConsumedOnce(s: Sys, step: Step)
    requires AllConsumedOnce(s.db) && AppStep(step) && (step.DoRestock? ==> step.reason != Consume)
    ensures AllConsumedOnce(Exec(s, step).db)
  {
    ExecCommitsOrNot(s, step);
    if !WritesLedger(step) {
      QuietStepAppends(s.db, step);
      AppendsKeepsConsumedOnce(s.db, Commit(s.db, Attempt(s.db, step)), step);
    } else if Attempt(s.db, step).Ok? {
      LedgerStepAppends(s.db, step);
      AppendsKeepsConsumedOnce(s.db, Attempt(s.db, step).value, step);
    }
  }

  lemma {:induction false} RunKeepsConsumedOnce(s: Sys, steps: seq<Step>)
    requires AllConsumedOnce(s.db) && AppRun(steps) && NeverRestocksAs(steps, Consume)
    ensures AllConsumedOnce(Run(s, steps).db)
    decreases |steps|
  {
    if steps != [] {
      StepKeepsConsumedOnce(s, steps[0]);
      assert forall k :: 0 <= k < |steps[1..]| ==> steps[1..][k] == steps[k + 1];
      RunKeepsConsumedOnce(Exec(s, steps[0]), steps[1..]);
    }
  }

  /**
   Over every application run, whatever path a line takes through the stations and whether or not
   it was paid: it has no consume row, or exactly one per component.
   */
  lemma {:induction false} ConsumedAtMostOnce(s: Sys, steps: seq<Step>, i: nat)
    requires Initial(s) && AppRun(steps) && NeverRestocksAs(steps, Consume)
    ensures var db := Run(s, steps).db;
      || i !in db.items
      || (forall c: nat :: Count(RowsOf(db.ledger, i), Consume, c) == 0)
      || (forall c: nat :: Count(RowsOf(db.ledger, i), Consume, c) == if BomQty(LineBom(db, i), c) > 0 then 1 else 0)
  {
    RunKeepsConsumedOnce(s, steps);
    var db := Run(s, steps).db;
    if i in db.items { assert ConsumedOnce(db, i); }
  }

  // ---------------------------------------------------------------- paid and announced exactly once

  /** paid_at is set when the status says paid and not before. */
  predicate PaymentDates(db: Db) {
    forall o :: 0 <= o < |db.orders| ==>
      && (db.orders[o].payment == Unpaid ==> !db.orders[o].paidAt)
      && (db.orders[o].payment == Paid ==> db.orders[o].paidAt)
  }

  /** One order.paid message per order ever paid, none otherwise. */
  ghost predicate PaidOnce(db: Db) {
    forall o: nat ::
      Announcements(db.outbox, PaidTopic, o) == if o < |db.orders| && db.orders[o].paidAt then 1 else 0
  }

  predicate EverPaid(db: Db, o: nat) {
    o < |db.orders| && db.orders[o].paidAt
  }

  /** The step from db to d appended an order.paid message for `o`. */
  predicate AnnouncesPayment(db: Db, d: Db, o: nat) {
    |d.outbox| > |db.outbox| && About(d.outbox[|d.outbox| - 1], PaidTopic, o)
  }

  /** A step sets paid_at exactly when it appends an order.paid message, and only the first time. */
  predicate PaysTogether(db: Db, d: Db) {
    && (d.outbox == db.outbox || (|d.outbox| == |db.outbox| + 1 && d.outbox[..|db.outbox|] == db.outbox))
    && |db.orders| <= |d.orders|
    && (forall o :: 0 <= o < |d.orders| ==> d.orders[o].paidAt == (EverPaid(db, o) || AnnouncesPayment(db, d, o)))
    && (|d.outbox| > |db.outbox| && d.outbox[|db.outbox|].OrderPaid? ==>
          d.outbox[|db.outbox|].order < |db.orders| && !EverPaid(db, d.outbox[|db.outbox|].order))
  }

  lemma {:induction false} PaysTogetherKeepsPaidOnce(db: Db, d: Db)
    requires PaidOnce(db) && PaysTogether(db, d)
    ensures PaidOnce(d)
  {
    forall o: nat
      ensures Announcements(d.outbox, PaidTopic, o) == if o < |d.orders| && d.orders[o].paidAt then 1 else 0
    {
      assert Announcements(db.outbox, PaidTopic, o) == if o < |db.orders| && db.orders[o].paidAt then 1 else 0;
      if d.outbox != db.outbox { assert d.outbox[..|d.outbox| - 1] == db.outbox; }
    }
  }

  lemma {:induction false} PaymentPaysTogether(db: Db, o: nat)
    requires o < |db.orders| ==> db.orders[o].payment == Paid || !db.orders[o].paidAt
    ensures PaysTogether(db, Commit(db, MarkPaid(db, o)))
  {}

  lemma {:induction false} OrderStepsPayTogether(db: Db, step: Step)
    requires step.DoCancelOrder? || step.DoRefund? || step.DoSetStation?
    ensures PaysTogether(db, Commit(db, Attempt(db, step)))
  {}

  lemma {:induction false} StockStepsPayTogether(db: Db, step: Step)
    requires step.DoConsume? || step.DoCrash? || step.DoRestock? || step.DoAdjust?
    ensures PaysTogether(db, Commit(db, Attempt(db, step)))
  {}

  lemma {:induction false} PlacedPaysTogether(db: Db, ps: seq<Priced>, t: Totals)
    ensures PaysTogether(db, Placed(db, ps, t))
  {}

  lemma {:induction false} StepPaysTogether(s: Sys, step: Step)
    requires PaymentDates(s.db) && AppStep(step) && PaysOnce(s, step)
    ensures PaysTogether(s.db, Commit(s.db, Attempt(s.db, step)))
  {
    if step.DoPlaceOrder? {
      if Attempt(s.db, step).Ok? {
        var ps, t := PlaceOrderCommits(s.db, step);
        PlacedPaysTogether(s.db, ps, t);
      }
    } else if step.DoMarkPaid? {
      PaymentPaysTogether(s.db, step.order);
    } else if step.DoCancelOrder? || step.DoRefund? || step.DoSetStation? {
      OrderStepsPayTogether(s.db, step);
    } else {
      StockStepsPayTogether(s.db, step);
    }
  }

  ghost predicate ReservedOnce(db: Db, i: nat)
    requires i in db.items
  {
    forall c: nat :: Count(RowsOf(db.ledger, i), Reserve, c)
      == if EverPaid(db, db.items[i].fin.order) && BomQty(LineBom(db, i), c) > 0 then 1 else 0
  }

  ghost predicate AllReservedOnce(db: Db) {
    Rooted(db) && forall i :: i in db.items ==> ReservedOnce(db, i)
  }

  /** Which orders a step pays: those it flips, and new orders are unpaid. */
  predicate PaysFlipped(db: Db, d: Db, step: Step) {
    && |db.orders| <= |d.orders|
    && (forall o :: 0 <= o < |db.orders| ==> (d.orders[o].paidAt <==> db.orders[o].paidAt || Flips(db, step, o)))
    && (forall o :: |db.orders| <= o < |d.orders| ==> !d.orders[o].paidAt)
  }

  lemma {:induction false} LineStaysReservedOnce(db: Db, d: Db, step: Step, j: nat)
    requires Rooted(db) && Appends(db, d, step) && PaysFlipped(db, d, step)
    requires j in db.items && ReservedOnce(db, j) && (step.DoRestock? ==> step.reason != Reserve)
    requires Flips(db, step, db.items[j].fin.order) ==> !EverPaid(db, db.items[j].fin.order)
    ensures ReservedOnce(d, j)
  {
    forall c: nat
      ensures Count(RowsOf(d.ledger, j), Reserve, c)
           == if EverPaid(d, d.items[j].fin.order) && BomQty(LineBom(d, j), c) > 0 then 1 else 0
    {
      CountAppend(RowsOf(db.ledger, j), RowsWritten(db, step, j), Reserve, c);
      WrittenCount(db, step, j, Reserve, c);
    }
  }

  lemma {:induction false} AppendsKeepsReservedOnce(db: Db, d: Db, step: Step)
    requires AllReservedOnce(db) && Appends(db, d, step) && PaysFlipped(db, d, step)
    requires step.DoRestock? ==> step.reason != Reserve
    requires forall o :: Flips(db, step, o) ==> !EverPaid(db, o)
    ensures AllReservedOnce(d)
  {
    forall j | j in d.items
      ensures ReservedOnce(d, j)
    {
      if j in db.items { LineStaysReservedOnce(db, d, step, j); }
    }
  }

  lemma {:induction false} QuietPaysNobody(db: Db, d: Db, step: Step)
    requires PaymentDates(db) && Quiet(db, d) && !WritesLedger(step)
    ensures PaysFlipped(db, d, step) && PaymentDates(d)
  {}

  lemma {:induction false} QuietStepPaysNobody(db: Db, step: Step)
    requires WellKeyed(db) && PaymentDates(db) && AppStep(step) && !WritesLedger(step)
    ensures var d := Commit(db, Attempt(db, step)); PaysFlipped(db, d, step) && PaymentDates(d)
  {
    QuietStep(db, step);
    QuietPaysNobody(db, Commit(db, Attempt(db, step)), step);
  }

  /** The order-side half: dates follow statuses, and an order is flipped only when it was never paid. */
  lemma {:induction false} StepPaysFlipped(s: Sys, step: Step)
    requires WellKeyed(s.db) && PaymentDates(s.db) && AppStep(step) && PaysOnce(s, step)
    ensures var d := Commit(s.db, Attempt(s.db, step));
      PaymentDates(d) && (Attempt(s.db, step).Ok? || !WritesLedger(step) ==> PaysFlipped(s.db, d, step))
    ensures forall o :: Flips(s.db, step, o) ==> !EverPaid(s.db, o)
  {
    if !WritesLedger(step) {
      QuietStepPaysNobody(s.db, step);
    } else if Attempt(s.db, step).Ok? {
      CommitAppends(s.db, step);
    }
  }

  ghost predicate Announced(db: Db) {
    WellKeyed(db) && PaymentDates(db) && PaidOnce(db)
  }

  lemma {:induction false} StepKeepsAnnounced(s: Sys, step: Step)
    requires Announced(s.db) && AppStep(step) && PaysOnce(s, step)
    ensures Announced(Exec(s, step).db)
  {
    ExecCommitsOrNot(s, step);
    StepKeepsHistory(s, step);
    StepPaysFlipped(s, step);
    StepPaysTogether(s, step);
    PaysTogetherKeepsPaidOnce(s.db, Commit(s.db, Attempt(s.db, step)));
  }

  lemma {:induction false} RunKeepsAnnounced(s: Sys, steps: seq<Step>)
    requires Announced(s.db) && UnrepaidRun(s, steps)
    ensures Announced(Run(s, steps).db)
    decreases |steps|
  {
    if steps != [] {
      StepKeepsAnnounced(s, steps[0]);
      RunKeepsAnnounced(Exec(s, steps[0]), steps[1..]);
    }
  }

  lemma {:induction false} StepKeepsReservedOnce(s: Sys, step: Step)
    requires AllReservedOnce(s.db) && PaymentDates(s.db) && AppStep(step) && PaysOnce(s, step)
    requires step.DoRestock? ==> step.reason != Reserve
    ensures AllReservedOnce(Exec(s, step).db) && PaymentDates(Exec(s, step).db)
  {
    ExecCommitsOrNot(s, step);
    StepPaysFlipped(s, step);
    if !WritesLedger(step) {
      QuietStepAppends(s.db, step);
      AppendsKeepsReservedOnce(s.db, Commit(s.db, Attempt(s.db, step)), step);
    } else if Attempt(s.db, step).Ok? {
      LedgerStepAppends(s.db, step);
      AppendsKeepsReservedOnce(s.db, Attempt(s.db, step).value, step);
    }
  }

  lemma {:induction false} RunKeepsReservedOnce(s: Sys, steps: seq<Step>)
    requires AllReservedOnce(s.db) && PaymentDates(s.db) && UnrepaidRun(s, steps) && NeverRestocksAs(steps, Reserve)
    ensures AllReservedOnce(Run(s, steps).db)
    decreases |steps|
  {
    if steps != [] {
      StepKeepsReservedOnce(s, steps[0]);
      assert forall k :: 0 <= k < |steps[1..]| ==> steps[1..][k] == steps[k + 1];
      RunKeepsReservedOnce(Exec(s, steps[0]), steps[1..]);
    }
  }

  lemma {:induction false} InitialAnnounced(s: Sys)
    requires Initial(s)
    ensures Announced(s.db)
  {
    assert forall o: nat :: Announcements(s.db.outbox, PaidTopic, o) == 0;
  }

  /**
   However often the webhook fires, in every application run in which no order is paid again after
   a refund: an order ever paid has one order.paid message and one reserve row per line and
   component; an order never paid has none of either.
   */
  lemma {:induction false} PaidExactlyOnce(s: Sys, steps: seq<Step>, o: nat)
    requires Initial(s) && UnrepaidRun(s, steps)
    ensures var db := Run(s, steps).db;
      var times := if EverPaid(db, o) then 1 else 0;
      && Announcements(db.outbox, PaidTopic, o) == times
      && (NeverRestocksAs(steps, Reserve) ==>
            forall i, c: nat :: i in db.items && db.items[i].fin.order == o ==>
              Count(RowsOf(db.ledger, i), Reserve, c) == if BomQty(LineBom(db, i), c) > 0 then times else 0)
  {
    InitialAnnounced(s);
    RunKeepsAnnounced(s, steps);
    if NeverRestocksAs(steps, Reserve) {
      RunKeepsReservedOnce(s, steps);
      var db := Run(s, steps).db;
      assert forall i :: i in db.items ==> ReservedOnce(db, i);
    }
  }
}
