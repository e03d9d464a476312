/**
 Exactly which calls are refused, and with what: refunds, payments without stock, and raw edits of
 order lines, in every reachable state.
 */
module StoreRefusals {
  import opened Common
  import opened Inventory
  import opened StoreModel
  import opened StoreRuns
  import opened StoreBooks
  import opened StorePhases
  import opened StoreAdmissible
  import opened StoreReachable

  // ---------------------------------------------------------------- refunds

  /** The refund names a line and a number of pieces other than 0. */
  predicate CountsPieces(item: Option<nat>, qty: Option<int>) {
    item.Some? && qty.Some? && qty.value != 0
  }

  /** The pieces already refunded for the line, by its refund rows, and these make no more than it has, and none below 0. */
  predicate PiecesLeft(db: Db, i: nat, qty: int) {
    i in db.items && 0 <= RefundedQty(db.refunds, i) + qty <= db.items[i].fin.qty
  }

  predicate Refundable(db: Db, o: nat, item: Option<nat>, amount: int, qty: Option<int>) {
    && amount > 0 && o < |db.orders| && (item.Some? ==> item.value in db.items)
    && (CountsPieces(item, qty) ==> PiecesLeft(db, item.value, qty.value))
  }

  /** The refund happened: its row and message are there, and the order's and the line's counters moved by it. */
  predicate Refunded(db: Db, d: Db, o: nat, item: Option<nat>, amount: int, qty: Option<int>)
    requires o < |db.orders|
  {
    && d == db.(refunds := d.refunds, items := d.items, orders := d.orders, outbox := d.outbox)
    && d.refunds == db.refunds + [Refund.Refund(o, item, amount, qty)]
    && d.outbox == db.outbox + [OrderRefunded(o, amount)]
    && d.orders == db.orders[o := db.orders[o].(refunded := db.orders[o].refunded + amount,
         payment := if db.orders[o].refunded + amount < db.orders[o].total then PartiallyRefunded else FullyRefunded)]
    && d.items.Keys == db.items.Keys
    && forall i :: i in db.items ==> d.items[i] == db.items[i].(refundedQty := RefundedQty(d.refunds, i))
  }

  lemma {:induction false} OneMoreRefund(rs: seq<Refund>, r: Refund, i: nat)
    ensures RefundedQty(rs + [r], i) == RefundedQty(rs, i) + if r.item == Some(i) && r.qty.Some? then r.qty.value else 0
  {
    assert (rs + [r])[..|rs|] == rs;
  }

  /** It commits exactly when refundable, with that effect; a refused one leaves everything as it was. */
  predicate RefundDecided(db: Db, o: nat, item: Option<nat>, amount: int, qty: Option<int>) {
    var r := RefundOrder(db, o, item, amount, qty);
    && (r.Ok? <==> Refundable(db, o, item, amount, qty))
    && (r.Ok? ==> Refunded(db, r.value, o, item, amount, qty))
    && (r.Err? ==> Commit(db, r) == db
                   && r.error == if amount > 0 && (o >= |db.orders| || (item.Some? && item.value !in db.items))
                                 then ForeignKey else CheckViolation)
  }

  lemma {:induction false} RefundCommitsIffRefundable(db: Db, o: nat, item: Option<nat>, amount: int, qty: Option<int>)
    requires RefundsAgree(db)
    ensures RefundDecided(db, o, item, amount, qty)
  {
    var r := RefundOrder(db, o, item, amount, qty);
    if r.Ok? {
      forall i | i in db.items
        ensures r.value.items[i] == db.items[i].(refundedQty := RefundedQty(r.value.refunds, i))
      {
        OneMoreRefund(db.refunds, Refund.Refund(o, item, amount, qty), i);
      }
    }
  }

  lemma {:induction false} RunKeepsRefunds(s: Sys, steps: seq<Step>)
    requires RefundsAgree(s.db) && AppRun(steps)
    ensures RefundsAgree(Run(s, steps).db)
    decreases |steps|
  {
    if steps != [] {
      StepKeepsRefunds(s, steps[0]);
      assert forall k :: 0 <= k < |steps[1..]| ==> steps[1..][k] == steps[k + 1];
      RunKeepsRefunds(Exec(s, steps[0]), steps[1..]);
    }
  }

  /** In every state the application reaches. */
  lemma {:induction false} RefundCommitsIff(s: Sys, steps: seq<Step>, o: nat, item: Option<nat>, amount: int, qty: Option<int>)
    requires Initial(s) && AppRun(steps)
    ensures RefundDecided(Run(s, steps).db, o, item, amount, qty)
  {
    RunKeepsRefunds(s, steps);
    RefundCommitsIffRefundable(Run(s, steps).db, o, item, amount, qty);
  }

  // ---------------------------------------------------------------- payments

  /** Row k asks for more of its component than the rows before it, and other orders, left. */
  predicate RunsShort(cs: seq<Balance>, rows: seq<Row>, k: nat)
    requires k < |rows| && rows[k].component < |cs|
  {
    var c := rows[k].component;
    cs[c].reserved + Units(rows[..k + 1], c) > cs[c].onHand
  }

  predicate Known(cs: seq<Balance>, rows: seq<Row>) {
    forall r :: r in rows ==> r.component < |cs|
  }

  predicate FirstShort(cs: seq<Balance>, rows: seq<Row>, k: nat)
    requires Known(cs, rows)
  {
    && k < |rows| && RunsShort(cs, rows, k) && forall j :: 0 <= j < k ==> !RunsShort(cs, rows, j)
  }

  /** What the first short row would have left reserved does not fit a 32-bit column. */
  predicate Overflows(cs: seq<Balance>, rows: seq<Row>, k: nat)
    requires k < |rows| && rows[k].component < |cs|
  {
    cs[rows[k].component].reserved + Units(rows[..k + 1], rows[k].component) > 0x7fff_ffff
  }

  lemma {:induction false} UnitsCons(r: Row, rows: seq<Row>, k: nat, c: nat)
    requires k <= |rows|
    ensures Units(([r] + rows)[..k + 1], c) == (if r.component == c then Amount(r) else 0) + Units(rows[..k], c)
  {
    assert ([r] + rows)[..k + 1] == [r] + rows[..k];
  }

  /** The other rows after the first one was applied run short, and overflow, as they did before. */
  lemma {:induction false} ShortAfterFirst(cs: seq<Balance>, r: Row, rest: seq<Row>, j: nat)
    requires Known(cs, [r] + rest) && Directed([r] + rest, 0, 1) && j < |rest|
    ensures r in [r] + rest && rest[j] in [r] + rest
    ensures var now := cs[r.component := Moved(cs[r.component], r)];
      && (RunsShort(now, rest, j) <==> RunsShort(cs, [r] + rest, j + 1))
      && (Overflows(now, rest, j) <==> Overflows(cs, [r] + rest, j + 1))
  {
    assert ([r] + rest)[0] == r && ([r] + rest)[j + 1] == rest[j];
    UnitsCons(r, rest, j + 1, rest[j].component);
  }

  /** A refused reservation was refused at its first short row, by the column's width or by stock_sane. */
  lemma {:induction false} RefusedAtFirstShort(cs: seq<Balance>, rows: seq<Row>) returns (k: nat)
    requires AllSane(cs) && Directed(rows, 0, 1) && Known(cs, rows) && ApplyAll(cs, rows).Err?
    ensures FirstShort(cs, rows, k)
    ensures ApplyAll(cs, rows).error == if Overflows(cs, rows, k) then OutOfRange else CheckViolation
    decreases |rows|
  {
    var r, rest := rows[0], rows[1..];
    assert r in rows && rows == [r] + rest;
    assert forall x :: x in rest ==> x in rows;
    FirstRow(cs, rows);
    if !Sane(Moved(cs[r.component], r)) {
      k := 0;
    } else {
      var now := cs[r.component := Moved(cs[r.component], r)];
      k := RefusedAtFirstShort(now, rest);
      FirstShortShifts(cs, r, rest, k);
      k := k + 1;
    }
  }

  lemma {:induction false} FirstShortShifts(cs: seq<Balance>, r: Row, rest: seq<Row>, k: nat)
    requires Known(cs, [r] + rest) && Directed([r] + rest, 0, 1) && !RunsShort(cs, [r] + rest, 0)
    requires Known(cs, rest) && r in [r] + rest
    requires FirstShort(cs[r.component := Moved(cs[r.component], r)], rest, k)
    ensures FirstShort(cs, [r] + rest, k + 1)
    ensures Overflows(cs, [r] + rest, k + 1) <==> Overflows(cs[r.component := Moved(cs[r.component], r)], rest, k)
  {
    var rows := [r] + rest;
    ShortAfterFirst(cs, r, rest, k);
    forall j | 0 <= j < k + 1
      ensures !RunsShort(cs, rows, j)
    {
      if j > 0 { ShortAfterFirst(cs, r, rest, j - 1); }
    }
  }

  lemma {:induction false} FirstRow(cs: seq<Balance>, rows: seq<Row>)
    requires AllSane(cs) && Directed(rows, 0, 1) && Known(cs, rows) && rows != []
    ensures rows[0] in rows
    ensures RunsShort(cs, rows, 0) <==> !Sane(Moved(cs[rows[0].component], rows[0]))
    ensures ApplyRow(cs, rows[0]) ==
      if !RunsShort(cs, rows, 0) then Ok(cs[rows[0].component := Moved(cs[rows[0].component], rows[0])])
      else if Overflows(cs, rows, 0) then Err(OutOfRange) else Err(CheckViolation)
  {
    assert rows[0] in rows && rows[..1] == [rows[0]];
    assert Sane(cs[rows[0].component]);
    assert Units([rows[0]], rows[0].component) == Amount(rows[0]);
  }

  /** A row that moves more than a 32-bit column holds. */
  predicate TooWide(rows: seq<Row>) {
    exists k :: 0 <= k < |rows| && Amount(rows[k]) > 0x7fff_ffff
  }

  lemma {:induction false} WideRowIsRefused(rows: seq<Row>)
    requires Directed(rows, 0, 1)
    ensures FirstRowError(rows) == if TooWide(rows) then Some(OutOfRange) else None
  {
    if rows != [] {
      var rest := rows[1..];
      assert rows[0] in rows;
      assert forall r :: r in rest ==> r in rows;
      WideRowIsRefused(rest);
      assert forall k :: 1 <= k < |rows| ==> rows[k] == rest[k - 1];
      assert TooWide(rest) ==> TooWide(rows) by {
        if k :| 0 <= k < |rest| && Amount(rest[k]) > 0x7fff_ffff { assert rows[k + 1] == rest[k]; }
      }
    }
  }

  /** The reservation does not fit a 32-bit column at the row that refuses it. */
  predicate OutOfWidth(cs: seq<Balance>, rows: seq<Row>)
    requires Known(cs, rows)
  {
    TooWide(rows) || exists k :: 0 <= k < |rows| && FirstShort(cs, rows, k) && Overflows(cs, rows, k)
  }

  lemma {:induction false} RefusedReservation(cs: seq<Balance>, rows: seq<Row>)
    requires AllSane(cs) && Directed(rows, 0, 1) && Known(cs, rows) && InsertRows(cs, rows).Err?
    ensures InsertRows(cs, rows).error == if OutOfWidth(cs, rows) then OutOfRange else CheckViolation
  {
    WideRowIsRefused(rows);
    if !TooWide(rows) {
      var k := RefusedAtFirstShort(cs, rows);
      assert forall j :: 0 <= j < |rows| && FirstShort(cs, rows, j) ==> j == k;
    }
  }

  /** A refused reservation undoes the flip and is reported under the application's name, unless it is a width error. */
  lemma {:induction false} RefusedReservationRaises(db: Db, o: nat)
    requires o < |db.orders| && db.orders[o].payment != Paid
    requires InsertRows(db.components, ReserveRows(db, Lines(db, o))).Err?
    ensures var e := InsertRows(db.components, ReserveRows(db, Lines(db, o))).error;
      && (e == CheckViolation ==> MarkPaid(db, o) == Err(OutOfStock))
      && (e == OutOfRange ==> MarkPaid(db, o) == Err(OutOfRange))
  {}

  /**
   In every reachable state a payment of an order that is not `paid` and not covered raises OutOfStock,
   except where the row that refuses it does not fit its 32-bit column.
   */
  lemma {:induction false} UncoveredPaymentRaises(s: Sys, steps: seq<Step>, o: nat)
    requires Initial(s)
    ensures var db := Run(s, steps).db;
      var rows := ReserveRows(db, Lines(db, o));
      && Known(db.components, rows)
      && (o < |db.orders| && db.orders[o].payment != Paid && !Covered(db, o) ==>
            MarkPaid(db, o) == Err(if OutOfWidth(db.components, rows) then OutOfRange else OutOfStock))
  {
    SoundAlways(s, steps);
    var db := Run(s, steps).db;
    LinesExist(db, o);
    ReserveRowsShape(db, Lines(db, o));
    if o < |db.orders| && db.orders[o].payment != Paid && !Covered(db, o) {
      PaymentSucceedsIff(db, o);
      RefusedReservation(db.components, ReserveRows(db, Lines(db, o)));
      RefusedReservationRaises(db, o);
    }
  }

  lemma {:induction false} UnitsOfPrefix(rows: seq<Row>, k: nat, c: nat)
    requires k <= |rows|
    ensures Units(rows[..k], c) <= Units(rows, c)
    ensures forall j :: 0 <= j < |rows| && rows[j].component == c ==> Amount(rows[j]) <= Units(rows, c)
  {
    UnitsNonNegative(rows, c);
    if rows != [] {
      UnitsOfPrefix(rows[1..], if k == 0 then 0 else k - 1, c);
      UnitsNonNegative(rows[1..], c);
      if k > 0 { assert rows[..k] == [rows[0]] + rows[1..][..k - 1]; }
      assert forall j :: 1 <= j < |rows| ==> rows[j] == rows[1..][j - 1];
    }
  }

  /** What is reserved and what the order needs together fit the column of every component. */
  predicate FitsInt4(db: Db, o: nat) {
    forall c :: 0 <= c < |db.components| ==> db.components[c].reserved + Demand(db, Lines(db, o), c) <= 0x7fff_ffff
  }

  /** In particular a sold-out payment raises OutOfStock whenever the sums fit 32 bits. */
  lemma {:induction false} SoldOutPaymentRaises(s: Sys, steps: seq<Step>, o: nat)
    requires Initial(s)
    ensures var db := Run(s, steps).db;
      o < |db.orders| && db.orders[o].payment != Paid && !Covered(db, o) && FitsInt4(db, o) ==>
        MarkPaid(db, o) == Err(OutOfStock)
  {
    SoundAlways(s, steps);
    UncoveredPaymentRaises(s, steps, o);
    var db := Run(s, steps).db;
    if FitsInt4(db, o) { FittingSumsAreInWidth(db, o); }
  }

  lemma {:induction false} FittingSumsAreInWidth(db: Db, o: nat)
    requires Sound(db) && FitsInt4(db, o) && Known(db.components, ReserveRows(db, Lines(db, o)))
    ensures !OutOfWidth(db.components, ReserveRows(db, Lines(db, o)))
  {
    var cs, rows := db.components, ReserveRows(db, Lines(db, o));
    LinesExist(db, o);
    ReserveRowsShape(db, Lines(db, o));
    forall k | 0 <= k < |rows|
      ensures Amount(rows[k]) <= 0x7fff_ffff && !Overflows(cs, rows, k)
    {
      var c := rows[k].component;
      assert rows[k] in rows && Sane(cs[c]);
      ReserveRowsTotal(db, Lines(db, o), c);
      DirectedTotals(rows, 0, 1, c);
      UnitsOfPrefix(rows, k + 1, c);
    }
  }

  // ---------------------------------------------------------------- raw edits of order lines

  /** The eight columns freeze_order_items compares; the theme is part of the attributes. */
  predicate SameMoney(a: Item, b: Item) {
    && a.fin.qty == b.fin.qty && a.fin.unitPrice == b.fin.unitPrice && a.fin.sku == b.fin.sku && a.fin.name == b.fin.name
    && a.fin.attrs == b.fin.attrs && a.fin.theme == b.fin.theme && a.fin.cost == b.fin.cost
    && a.fin.order == b.fin.order && a.fin.discount == b.fin.discount
  }

  predicate UnpaidLine(db: Db, i: nat)
    requires i in db.items && db.items[i].fin.order < |db.orders|
  {
    db.orders[db.items[i].fin.order].payment == Unpaid
  }

  /** A raw UPDATE gets past the trigger iff the order is unpaid or no money column changes. */
  predicate UpdateDecided(db: Db, i: nat, row: Item) {
    i in db.items ==>
      && db.items[i].fin.order < |db.orders|
      && (EditItem(db, i, row) == Err(RestrictViolation) <==> !UnpaidLine(db, i) && !SameMoney(row, db.items[i]))
      && (EditItem(db, i, row).Ok? <==>
            && (UnpaidLine(db, i) || SameMoney(row, db.items[i])) && row.fin.order < |db.orders|
            && row.fin.qty > 0 && row.fin.unitPrice >= 0 && row.fin.discount >= 0 && 0 <= row.refundedQty <= row.fin.qty)
      && (EditItem(db, i, row).Ok? ==> EditItem(db, i, row).value.items == db.items[i := row])
  }

  lemma {:induction false} SameMoneyIff(a: Item, b: Item)
    ensures SameMoney(a, b) <==> a.fin == b.fin
  {}

  lemma {:induction false} UpdateIsDecided(db: Db, i: nat, row: Item)
    requires WellKeyed(db)
    ensures UpdateDecided(db, i, row)
  {
    if i in db.items { SameMoneyIff(row, db.items[i]); }
  }

  /** So in every reachable state. */
  lemma {:induction false} RawUpdateCommitsIff(s: Sys, steps: seq<Step>, i: nat, row: Item)
    requires Initial(s)
    ensures UpdateDecided(Run(s, steps).db, i, row)
  {
    HistoryFreezes(s, steps);
    UpdateIsDecided(Run(s, steps).db, i, row);
  }

  /** A refund row or a ledger row names the line. */
  predicate Referenced(db: Db, i: nat) {
    || (exists k :: 0 <= k < |db.refunds| && db.refunds[k].item == Some(i))
    || (exists k :: 0 <= k < |db.ledger| && db.ledger[k].item == Some(i))
  }

  lemma {:induction false} RowsOfEmptyIff(rows: seq<Row>, i: nat)
    ensures RowsOf(rows, i) == [] <==> forall k :: 0 <= k < |rows| ==> rows[k].item != Some(i)
  {
    if rows != [] {
      RowsOfEmptyIff(rows[1..], i);
      assert forall k :: 1 <= k < |rows| ==> rows[k] == rows[1..][k - 1];
      assert forall k :: 0 <= k < |rows| - 1 ==> rows[1..][k] == rows[k + 1];
    }
  }

  /** A DELETE goes through exactly for a line of an unpaid order that nothing refers to. */
  lemma {:induction false} RawDeleteCommitsIff(s: Sys, steps: seq<Step>, i: nat)
    requires Initial(s)
    ensures var db := Run(s, steps).db;
      i in db.items ==>
        && db.items[i].fin.order < |db.orders|
        && (DeleteItem(db, i) == Err(RestrictViolation) <==> !UnpaidLine(db, i))
        && (DeleteItem(db, i).Ok? <==> UnpaidLine(db, i) && !Referenced(db, i))
        && (DeleteItem(db, i).Ok? ==> DeleteItem(db, i).value.items == db.items - {i})
  {
    HistoryFreezes(s, steps);
    RowsOfEmptyIff(Run(s, steps).db.ledger, i);
  }
}
