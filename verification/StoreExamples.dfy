/**
 Runs of a small shop, from its opening: one component, one variant made of one unit of it, orders
 of one piece. They end in the states that the board, the payment guard, the cancel view and the
 reservation are trusted to exclude.
 */
module StoreExamples {
  import opened Common
  import opened Inventory
  import opened Pricing
  import opened StoreModel
  import opened StoreRuns
  import opened StoreBooks
  import opened StoreDiscipline
  import opened StorePaths
  import opened StoreCancel
  import V = StoreCancelView

  const CATALOG := Catalog(map[0 := Variant("", "", "", 100, None, 0)], map[])
  const CART := [CartLine(0, 0, "", 1, 100)]
  const FIN := Financial(0, 1, 100, 0, 0, "", "", "", "")

  const RECEIPT := Row(0, 5, 0, Receive, None)
  const RESERVATION := Row(0, 0, 1, Reserve, Some(0))

  function Shop(reserved: int, ledger: seq<Row>, payment: Payment, refunded: int, refunds: seq<Refund>,
                status: Station, outbox: seq<Message>): Db {
    Db(map[0 := [BomLine(0, 1)]], [Balance(5, reserved)], ledger,
       [Order(payment, payment != Unpaid, false, Some(status), 100, 0, 100, refunded)],
       map[0 := Item(FIN, 0, status, 0)], 1, refunds, outbox)
  }

  function At(db: Db): Sys {
    Sys(db, multiset{}, {}, {}, {})
  }

  function Opening(): Sys {
    At(Db(map[0 := [BomLine(0, 1)]], [ZERO], [], [], map[], 0, [], []))
  }

  function Stocked(): Sys {
    At(Db(map[0 := [BomLine(0, 1)]], [Balance(5, 0)], [RECEIPT], [], map[], 0, [], []))
  }

  function Ordered(): Sys {
    At(Shop(0, [RECEIPT], Unpaid, 0, [], Queued, [OrderPlaced(0, 100, 1)]))
  }

  function PaidFor(status: Station): Sys {
    At(Shop(1, [RECEIPT, RESERVATION], Paid, 0, [], status, [OrderPlaced(0, 100, 1), OrderPaid(0, 100)]))
  }

  /** Some admissible run leads from one state to the other. */
  ghost predicate Leads(s: Sys, t: Sys) {
    exists steps :: AdmissibleRun(s, steps) && Run(s, steps) == t
  }

  /** Some run of the application does. */
  ghost predicate LeadsAnyhow(s: Sys, t: Sys) {
    exists steps :: AppRun(steps) && Run(s, steps) == t
  }

  ghost predicate Reached(t: Sys) {
    Leads(Opening(), t)
  }

  ghost predicate ReachedAnyhow(t: Sys) {
    LeadsAnyhow(Opening(), t)
  }

  lemma {:induction false} Opens()
    ensures Initial(Opening()) && Reached(Opening())
  {
    assert AdmissibleRun(Opening(), []) && Run(Opening(), []) == Opening();
  }

  lemma {:induction false} Extends(s: Sys, steps: seq<Step>, step: Step)
    ensures Run(s, steps + [step]) == Exec(Run(s, steps), step)
    ensures AdmissibleRun(s, steps + [step]) <==> AdmissibleRun(s, steps) && Admissible(Run(s, steps), step)
    ensures AppRun(steps) && AppStep(step) ==> AppRun(steps + [step])
  {
    RunAppend(s, steps, [step]);
    AdmissibleAppend(s, steps, [step]);
    Single(Run(s, steps), step);
  }

  lemma {:induction false} OneMore(s: Sys, t: Sys, step: Step)
    ensures Leads(s, t) && Admissible(t, step) ==> Leads(s, Exec(t, step))
    ensures LeadsAnyhow(s, t) && AppStep(step) ==> LeadsAnyhow(s, Exec(t, step))
  {
    if steps :| AdmissibleRun(s, steps) && Run(s, steps) == t {
      Extends(s, steps, step);
    }
    if steps :| AppRun(steps) && Run(s, steps) == t {
      Extends(s, steps, step);
    }
  }

  lemma {:induction false} Single(t: Sys, step: Step)
    ensures Run(t, [step]) == Exec(t, step)
    ensures AdmissibleRun(t, [step]) <==> Admissible(t, step)
  {
    assert [step][1..] == [];
  }

  lemma {:induction false} ReachedIsReachedAnyhow(t: Sys)
    requires Reached(t)
    ensures ReachedAnyhow(t)
  {
    var steps :| AdmissibleRun(Opening(), steps) && Run(Opening(), steps) == t;
    AdmissibleIsUnrepaid(Opening(), steps);
    UnrepaidIsApp(Opening(), steps);
  }

  /** receive, place, pay */
  lemma {:induction false} ReachesPaid()
    ensures Reached(Ordered()) && Reached(PaidFor(Queued))
  {
    ReachesOrdered();
    Pays();
    Plain(Ordered(), DoMarkPaid(0));
    OneMore(Opening(), Ordered(), DoMarkPaid(0));
  }

  lemma {:induction false} ReachesOrdered()
    ensures Reached(Ordered())
  {
    Opens();
    Receives();
    Plain(Opening(), DoAdjust(0, 5, Receive));
    OneMore(Opening(), Opening(), DoAdjust(0, 5, Receive));
    Orders(Stocked());
    InsertsThePiece();
    Plain(Stocked(), DoPlaceOrder(true, CATALOG, CART));
    OneMore(Opening(), Stocked(), DoPlaceOrder(true, CATALOG, CART));
  }

  lemma {:induction false} Receives()
    ensures Exec(Opening(), DoAdjust(0, 5, Receive)) == Stocked()
  {
    var rows := [RECEIPT];
    assert rows[1..] == [];
    assert FirstRowError(rows) == RowError(rows[0]);
    assert [ZERO][0 := Balance(5, 0)] == [Balance(5, 0)];
    assert ApplyAll([ZERO], rows) == ApplyRow([ZERO], rows[0]);
  }

  const PIECE := Priced(CATALOG.variants[0], CART[0], 100)

  lemma {:induction false} PricesTheCart()
    ensures PricedLines(CATALOG, CART) == [PIECE] && PricedSubtotal([PIECE]) == 100 && Quantity(CART) == 1
  {
    PricedStep(CATALOG, [], CART[0]);
    assert [] + [CART[0]] == CART && [] + [PIECE] == [PIECE];
    assert UnitPrice(CATALOG, CATALOG.variants[0], "") == 100;
    PricedSubtotalStep([], PIECE);
  }

  lemma {:induction false} InsertsThePiece()
    ensures PlaceChecks(Totals(100, 0, 100, 1), [PIECE])
    ensures Placed(Stocked().db, [PIECE], Totals(100, 0, 100, 1)) == Ordered().db
  {
    assert [PIECE][..0] == [];
    assert NewItems(0, 0, [PIECE]) == map[0 := NewItem(0, PIECE)];
    assert Stocked().db.items + NewItems(0, 0, [PIECE]) == Ordered().db.items;
  }

  /** Placing the order for the piece, whatever is in the shop. */
  lemma {:induction false} Orders(s: Sys)
    ensures Exec(s, DoPlaceOrder(true, CATALOG, CART)) == s.(db := Placed(s.db, [PIECE], Totals(100, 0, 100, 1)))
  {
    PricesTheCart();
    InsertsThePiece();
    assert TotalsFor(100, 1) == Totals(100, 0, 100, 1);
  }

  lemma {:induction false} LineOfTheOrder(db: Db)
    requires db.nextItem == 1 && 0 in db.items && db.items[0] == Item(FIN, 0, db.items[0].status, 0)
    requires db.bom == map[0 := [BomLine(0, 1)]]
    ensures Lines(db, 0) == [0] && ReserveRows(db, [0]) == [RESERVATION]
    ensures db.items[0].status != Cancelled ==> LeastAdvanced(db.items, [0]) == Some(db.items[0].status)
  {
    assert LinesOf(db.items, 0, 0) == [];
    assert LinesOf(db.items, 1, 0) == [] + [0];
    assert [0][..0] == [] && [0][1..] == [];
    assert LineRows(db, 0, 0, 1, Reserve) == [RESERVATION] + ItemRows([], 1, 0, 0, 1, Reserve);
    assert ReserveRows(db, [0]) == LineRows(db, 0, 0, 1, Reserve) + ReserveRows(db, []);
  }

  lemma {:induction false} Reserves(reserved: int)
    requires 0 <= reserved < 5
    ensures InsertRows([Balance(5, reserved)], [RESERVATION]) == Ok([Balance(5, reserved + 1)])
  {
    var rows := [RESERVATION];
    assert rows[1..] == [];
    assert FirstRowError(rows) == RowError(rows[0]);
    assert [Balance(5, reserved)][0 := Balance(5, reserved + 1)] == [Balance(5, reserved + 1)];
    assert ApplyAll([Balance(5, reserved)], rows) == ApplyRow([Balance(5, reserved)], rows[0]);
  }

  lemma {:induction false} Pays()
    ensures Exec(Ordered(), DoMarkPaid(0)) == PaidFor(Queued)
  {
    var db := Ordered().db;
    LineOfTheOrder(db);
    Reserves(0);
    assert [RECEIPT] + [RESERVATION] == [RECEIPT, RESERVATION];
  }

  // ---------------------------------------------------------------- printed and never consumed

  lemma {:induction false} SetsStation(from: Station, to: Station)
    requires Legal(from, to) && to != Cancelled
    ensures SetStation(PaidFor(from).db, 0, to) == Ok(PaidFor(to).db)
  {
    var db := PaidFor(from).db;
    var moved := db.(items := db.items[0 := db.items[0].(status := to)]);
    LineOfTheOrder(moved);
    assert moved.items == PaidFor(to).db.items;
    assert RollUp(moved, 0).orders == PaidFor(to).db.orders;
  }

  lemma {:induction false} Moves(from: Station, to: Station)
    requires Legal(from, to) && to != Cancelled && to != Printing
    ensures Exec(PaidFor(from), DoSetStation(0, to))
         == PaidFor(to).(skipped := if Skips(from, to) then {0} else {})
  {
    SetsStation(from, to);
    assert {} + {0} == {0};
  }

  lemma {:induction false} Plain(s: Sys, step: Step)
    requires step.DoAdjust? || step.DoPlaceOrder? || (step.DoSetStation? && step.to != Printing)
          || (step.DoMarkPaid? && step.order < |s.db.orders| && s.db.orders[step.order].payment == Unpaid)
    ensures Admissible(s, step)
  {}

  /**
   A paid line, blocked and then unblocked to `printed`, all by legal moves of the board: it is past
   printing, nothing was consumed, no call is on its way and none was lost.
   */
  lemma {:induction false} PrintedWithoutConsuming()
    ensures Initial(Opening()) && Reached(PaidFor(Printed).(skipped := {0}))
    ensures !ConsumedOrEmpty(PaidFor(Printed).db, 0) && !Trusted(PaidFor(Printed).(skipped := {0}), 0)
  {
    Opens();
    ReachesPaid();
    Moves(Queued, Blocked);
    Plain(PaidFor(Queued), DoSetStation(0, Blocked));
    OneMore(Opening(), PaidFor(Queued), DoSetStation(0, Blocked));
    Moves(Blocked, Printed);
    Plain(PaidFor(Blocked), DoSetStation(0, Printed));
    OneMore(Opening(), PaidFor(Blocked), DoSetStation(0, Printed));
    NothingConsumed();
  }

  lemma {:induction false} NothingConsumed()
    ensures !ConsumedOrEmpty(PaidFor(Printed).db, 0) && !Trusted(PaidFor(Printed).(skipped := {0}), 0)
  {
    OnlyReserved();
  }

  lemma {:induction false} OnlyReserved()
    ensures RowsOf([RECEIPT, RESERVATION], 0) == [RESERVATION]
  {
    assert [RECEIPT, RESERVATION][1..] == [RESERVATION] && [RESERVATION][1..] == [];
    assert RowsOf([RESERVATION], 0) == [RESERVATION] + RowsOf([], 0);
  }

  // ---------------------------------------------------------------- paid twice

  function RefundedOnce(): Sys {
    At(Shop(1, [RECEIPT, RESERVATION], PartiallyRefunded, 40, [Refund(0, None, 40, None)], Queued,
            [OrderPlaced(0, 100, 1), OrderPaid(0, 100), OrderRefunded(0, 40)]))
  }

  function PaidAgain(): Sys {
    At(Shop(2, [RECEIPT, RESERVATION, RESERVATION], Paid, 40, [Refund(0, None, 40, None)], Queued,
            [OrderPlaced(0, 100, 1), OrderPaid(0, 100), OrderRefunded(0, 40), OrderPaid(0, 100)]))
  }

  lemma {:induction false} RefundsThenPays()
    ensures Exec(PaidFor(Queued), DoRefund(0, None, 40, None)) == RefundedOnce()
    ensures Exec(RefundedOnce(), DoMarkPaid(0)) == PaidAgain()
  {
    var db := RefundedOnce().db;
    LineOfTheOrder(db);
    Reserves(1);
    assert [RECEIPT, RESERVATION] + [RESERVATION] == [RECEIPT, RESERVATION, RESERVATION];
  }

  /**
   A payment replayed after a refund: the order is announced as paid twice, and two units stay
   reserved for a line that needs one.
   */
  lemma {:induction false} ReplayAfterRefundHappens()
    ensures Initial(Opening()) && ReachedAnyhow(PaidAgain())
    ensures Announcements(PaidAgain().db.outbox, PaidTopic, 0) == 2
    ensures PaidAgain().db.components[0].reserved == 2 && Need([BomLine(0, 1)], 1, 0) == 1
  {
    Opens();
    ReachesPaid();
    ReachedIsReachedAnyhow(PaidFor(Queued));
    RefundsThenPays();
    OneMore(Opening(), PaidFor(Queued), DoRefund(0, None, 40, None));
    OneMore(Opening(), RefundedOnce(), DoMarkPaid(0));
    TwoAnnouncements();
    TwoReserved();
  }

  lemma {:induction false} TwoReserved()
    ensures PaidAgain().db.components[0].reserved == 2 && Need([BomLine(0, 1)], 1, 0) == 1
  {}

  lemma {:induction false} TwoAnnouncements()
    ensures Announcements(PaidAgain().db.outbox, PaidTopic, 0) == 2
  {
    var outbox := PaidAgain().db.outbox;
    assert outbox[..3][..2] == outbox[..2] && outbox[..2][..1] == outbox[..1] && outbox[..1][..0] == [];
    assert Announcements(outbox[..1], PaidTopic, 0) == 0;
    assert Announcements(outbox[..2], PaidTopic, 0) == 1;
    assert Announcements(outbox[..3], PaidTopic, 0) == 1;
  }

  // ---------------------------------------------------------------- a cancellation that raises

  /**
   Cancelling an order nobody paid, with restock: the cancellation commits, and the restock of its
   line, which holds nothing, raises.
   */
  lemma {:induction false} CancellingAnUnpaidOrderRaises()
    ensures Initial(Opening()) && Reached(Ordered())
    ensures RestockAll(CancelOrder(Ordered().db, 0), Lines(Ordered().db, 0), CancelRestock).1 != Ok(())
    ensures var d := CancelOrder(Ordered().db, 0); |d.orders| == 1 && d.orders[0].cancelled
  {
    Opens();
    ReachesOrdered();
    var before :| AdmissibleRun(Opening(), before) && Run(Opening(), before) == Ordered();
    V.CancelViewFinishesIff(Opening(), before, 0);
    NotRestockable();
    CancelsIt();
  }

  lemma {:induction false} NotRestockable()
    ensures !V.AllRestockable(Ordered().db, Lines(Ordered().db, 0))
  {
    LineOfTheOrder(Ordered().db);
    HoldsNothing();
    assert Lines(Ordered().db, 0)[0] == 0;
  }

  lemma {:induction false} CancelsIt()
    ensures |CancelOrder(Ordered().db, 0).orders| == 1 && CancelOrder(Ordered().db, 0).orders[0].cancelled
  {}

  lemma {:induction false} HoldsNothing()
    ensures !Restockable(Ordered().db, 0)
  {
    assert [RECEIPT][1..] == [];
    assert RowsOf([RECEIPT], 0) == RowsOf([], 0) == [];
  }

  // ---------------------------------------------------------------- a promise taken by another order

  const CONSUMED := Row(0, -1, -1, Consume, Some(1))

  /** A second, unpaid order of one piece; `first` and `second` are the stations of the two lines. */
  function Two(onHand: int, reserved: int, ledger: seq<Row>, first: Station, second: Station): Db {
    Db(map[0 := [BomLine(0, 1)]], [Balance(onHand, reserved)], ledger,
       [Order(Paid, true, false, Some(first), 100, 0, 100, 0), Order(Unpaid, false, false, Some(second), 100, 0, 100, 0)],
       map[0 := Item(FIN, 0, first, 0), 1 := Item(FIN.(order := 1), 0, second, 0)], 2, [],
       [OrderPlaced(0, 100, 1), OrderPaid(0, 100), OrderPlaced(1, 100, 1)])
  }

  function TwoOrders(): Sys {
    At(Two(5, 1, [RECEIPT, RESERVATION], Queued, Queued))
  }

  function UnpaidPrints(): Sys {
    Sys(Two(5, 1, [RECEIPT, RESERVATION], Queued, Printing), multiset{1}, {}, {1}, {})
  }

  function UnpaidConsumed(): Sys {
    Sys(Two(4, 0, [RECEIPT, RESERVATION, CONSUMED], Queued, Printing), multiset{}, {}, {1}, {})
  }

  function PaidPrints(): Sys {
    Sys(Two(4, 0, [RECEIPT, RESERVATION, CONSUMED], Printing, Printing), multiset{0}, {}, {0, 1}, {})
  }

  /** The paid line is at `printing`, nothing was consumed for it, and its call has failed. */
  function PaidFails(): Sys {
    PaidPrints().(calls := multiset{}, lost := {0})
  }

  lemma {:induction false} InsertsAnother()
    ensures Placed(PaidFor(Queued).db, [PIECE], Totals(100, 0, 100, 1)) == TwoOrders().db
  {
    var db := PaidFor(Queued).db;
    assert [PIECE][..0] == [];
    assert NewItems(1, 1, [PIECE]) == map[1 := NewItem(1, PIECE)];
    assert db.items + NewItems(1, 1, [PIECE]) == TwoOrders().db.items;
  }

  lemma {:induction false} LinesOfTwo(db: Db, o: nat)
    requires o < 2 && db.nextItem == 2 && 0 in db.items && 1 in db.items
    requires db.items[0].fin.order == 0 && db.items[1].fin.order == 1 && db.items[o].status != Cancelled
    ensures Lines(db, o) == [o] && LeastAdvanced(db.items, [o]) == Some(db.items[o].status)
  {
    assert LinesOf(db.items, 0, o) == [];
    assert LinesOf(db.items, 1, o) == if o == 0 then [] + [0] else [] + [];
    assert LinesOf(db.items, 2, o) == if o == 1 then [] + [1] else [0] + [];
    assert [o][..0] == [];
  }

  lemma {:induction false} Prints(onHand: int, reserved: int, ledger: seq<Row>)
    ensures SetStation(Two(onHand, reserved, ledger, Queued, Queued), 1, Printing) == Ok(Two(onHand, reserved, ledger, Queued, Printing))
    ensures SetStation(Two(onHand, reserved, ledger, Queued, Printing), 0, Printing) == Ok(Two(onHand, reserved, ledger, Printing, Printing))
  {
    var a, b := Two(onHand, reserved, ledger, Queued, Printing), Two(onHand, reserved, ledger, Printing, Printing);
    LinesOfTwo(a, 1);
    LinesOfTwo(b, 0);
    assert Two(onHand, reserved, ledger, Queued, Queued).items[1 := a.items[1]] == a.items;
    assert a.items[0 := b.items[0]] == b.items;
    assert Two(onHand, reserved, ledger, Queued, Queued).orders[1 := a.orders[1]] == a.orders;
    assert a.orders[0 := b.orders[0]] == b.orders;
  }

  lemma {:induction false} UnpaidGoesToPrint()
    ensures Exec(TwoOrders(), DoSetStation(1, Printing)) == UnpaidPrints()
  {
    Prints(5, 1, [RECEIPT, RESERVATION]);
    assert {} + {1} == {1};
    assert multiset{} + multiset{1} == multiset{1};
  }

  lemma {:induction false} PaidGoesToPrint()
    ensures Exec(UnpaidConsumed(), DoSetStation(0, Printing)) == PaidPrints()
  {
    Prints(4, 0, [RECEIPT, RESERVATION, CONSUMED]);
    assert {1} + {0} == {0, 1};
    assert multiset{} + multiset{0} == multiset{0};
  }

  lemma {:induction false} NotYetConsumed(i: nat)
    ensures !HasConsume(RowsOf([RECEIPT, RESERVATION], i)) && !HasConsume(RowsOf([RECEIPT, RESERVATION, CONSUMED], 0))
  {
    assert [RECEIPT, RESERVATION][1..] == [RESERVATION] && [RESERVATION][1..] == [];
    assert [RECEIPT, RESERVATION, CONSUMED][1..] == [RESERVATION, CONSUMED];
    assert [RESERVATION, CONSUMED][1..] == [CONSUMED] && [CONSUMED][1..] == [];
    assert RowsOf([CONSUMED], 0) == RowsOf([], 0) == [];
    assert RowsOf([RESERVATION, CONSUMED], 0) == [RESERVATION] + [];
    assert RowsOf([RESERVATION], i) == if i == 0 then [RESERVATION] + [] else [];
  }

  lemma {:induction false} OneRow(i: nat, db: Db)
    requires i in db.items && db.items[i].variant == 0 && db.items[i].fin.qty == 1 && db.bom == map[0 := [BomLine(0, 1)]]
    ensures LineRows(db, i, -1, -1, Consume) == [Row(0, -1, -1, Consume, Some(i))]
  {
    assert [BomLine(0, 1)][1..] == [];
    assert ItemRows([BomLine(0, 1)], 1, i, -1, -1, Consume)
        == [Row(0, -1, -1, Consume, Some(i))] + ItemRows([], 1, i, -1, -1, Consume);
  }

  lemma {:induction false} Inserts(onHand: int, reserved: int, i: nat)
    requires 0 <= reserved <= onHand <= 5
    ensures InsertRows([Balance(onHand, reserved)], [Row(0, -1, -1, Consume, Some(i))])
         == if reserved > 0 then Ok([Balance(onHand - 1, reserved - 1)]) else Err(CheckViolation)
  {
    var cs, rows := [Balance(onHand, reserved)], [Row(0, -1, -1, Consume, Some(i))];
    assert rows[1..] == [];
    assert FirstRowError(rows) == RowError(rows[0]);
    assert cs[0 := Balance(onHand - 1, reserved - 1)] == [Balance(onHand - 1, reserved - 1)];
    if reserved > 0 { assert ApplyAll(cs, rows) == ApplyRow(cs, rows[0]); }
  }

  lemma {:induction false} UnpaidConsumes()
    ensures Exec(UnpaidPrints(), DoConsume(1)) == UnpaidConsumed()
  {
    NotYetConsumed(1);
    OneRow(1, UnpaidPrints().db);
    Inserts(5, 1, 1);
    assert [RECEIPT, RESERVATION] + [CONSUMED] == [RECEIPT, RESERVATION, CONSUMED];
    assert multiset{1} - multiset{1} == multiset{};
  }

  lemma {:induction false} PaidCannotConsume()
    ensures ConsumeForItem(PaidPrints().db, 0) == Err(CheckViolation)
    ensures Exec(PaidPrints(), DoConsume(0)) == PaidFails()
  {
    NotYetConsumed(0);
    OneRow(0, PaidPrints().db);
    Inserts(4, 0, 0);
    assert multiset{0} - multiset{0} == multiset{} && {} + {0} == {0};
  }

  /**
   An unpaid line moved to `printing` takes the component reserved for a paid one: when the paid
   line gets there, its consume is refused and lost.
   */
  lemma {:induction false} UnpaidPrintingBreaksAPromise()
    ensures Initial(Opening()) && ReachedAnyhow(PaidFails())
    ensures ConsumeForItem(PaidPrints().db, 0) == Err(CheckViolation)
    ensures PaidFails().db.orders[0].payment == Paid && PaidFails().db.orders[1].payment == Unpaid && 0 in PaidFails().lost
  {
    Opens();
    ReachesTwoOrders();
    UnpaidGoesToPrint();
    PaidGoesToPrint();
    OneMore(Opening(), TwoOrders(), DoSetStation(1, Printing));
    UnpaidConsumes();
    OneMore(Opening(), UnpaidPrints(), DoConsume(1));
    OneMore(Opening(), UnpaidConsumed(), DoSetStation(0, Printing));
    PaidCannotConsume();
    OneMore(Opening(), PaidPrints(), DoConsume(0));
  }

  lemma {:induction false} ReachesTwoOrders()
    ensures ReachedAnyhow(TwoOrders())
  {
    ReachesPaid();
    ReachedIsReachedAnyhow(PaidFor(Queued));
    Orders(PaidFor(Queued));
    InsertsAnother();
    OneMore(Opening(), PaidFor(Queued), DoPlaceOrder(true, CATALOG, CART));
  }
}
