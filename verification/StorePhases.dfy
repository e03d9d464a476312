/**
 Reservations, line by line. Under the discipline each order line's ledger rows are, at every
 moment, one of five fixed histories; from that follow the reservation sum, the promise that a
 reserved line can be consumed, and exactly when a restock commits.
 */
module StorePhases {
  import opened Common
  import opened Inventory
  import opened StoreModel
  import opened StoreRuns

  /** Where a line stands: never reserved, reserved, consumed, or put back from either. */
  datatype Phase = Fresh | Held | Used | Released(reason: Reason) | Returned(reason: Reason)

  predicate RestockReason(reason: Reason) {
    reason == CancelRestock || reason == Return
  }

  predicate ValidPhase(p: Phase) {
    (p.Released? || p.Returned?) ==> RestockReason(p.reason)
  }

  /** The ledger rows of a line in each phase. */
  function History(lines: seq<BomLine>, qty: int, i: nat, p: Phase): seq<Row> {
    match p
    case Fresh => []
    case Held => ItemRows(lines, qty, i, 0, 1, Reserve)
    case Used => ItemRows(lines, qty, i, 0, 1, Reserve) + ItemRows(lines, qty, i, -1, -1, Consume)
    case Released(r) => ItemRows(lines, qty, i, 0, 1, Reserve) + ItemRows(lines, qty, i, 0, -1, r)
    case Returned(r) => ItemRows(lines, qty, i, 0, 1, Reserve) + ItemRows(lines, qty, i, -1, -1, Consume)
                        + ItemRows(lines, qty, i, 1, 0, r)
  }

  /** The phase can be read off the ledger. */
  function PhaseOf(rows: seq<Row>): Phase {
    if rows == [] then Fresh
    else
      var last := rows[|rows| - 1].reason;
      if last == Reserve then Held
      else if last == Consume then Used
      else if HasConsume(rows) then Returned(last)
      else Released(last)
  }

  /** What a phase contributes to one component's (on_hand, reserved). */
  function Contribution(p: Phase, need: int): Balance {
    match p
    case Held => Balance(0, need)
    case Used => Balance(-need, 0)
    case _ => ZERO
  }

  lemma {:induction false} HistoryReadsBack(lines: seq<BomLine>, qty: int, i: nat, p: Phase)
    requires ValidPhase(p)
    ensures lines == [] ==> History(lines, qty, i, p) == []
    ensures lines != [] ==> PhaseOf(History(lines, qty, i, p)) == p
    ensures lines != [] ==> (HasConsume(History(lines, qty, i, p)) <==> p.Used? || p.Returned?)
  {
    ItemRowsReason(lines, qty, i, 0, 1, Reserve);
    ItemRowsReason(lines, qty, i, -1, -1, Consume);
    match p
    case Fresh => case Held => case Used =>
      if lines != [] && p.Used? { assert History(lines, qty, i, p)[|lines|].reason == Consume; }
    case Released(x) => ItemRowsReason(lines, qty, i, 0, -1, x);
    case Returned(x) =>
      ItemRowsReason(lines, qty, i, 1, 0, x);
      if lines != [] { assert History(lines, qty, i, p)[|lines|].reason == Consume; }
  }

  lemma {:induction false} HistoryTotals(lines: seq<BomLine>, components: nat, qty: int, i: nat, p: Phase, c: nat)
    requires ValidLines(lines, components)
    ensures Total(History(lines, qty, i, p), c) == Contribution(p, Need(lines, qty, c))
  {
    var r := ItemRows(lines, qty, i, 0, 1, Reserve);
    var u := ItemRows(lines, qty, i, -1, -1, Consume);
    ItemRowsTotal(lines, components, qty, i, 0, 1, Reserve, c);
    ItemRowsTotal(lines, components, qty, i, -1, -1, Consume, c);
    match p
    case Fresh => case Held =>
    case Used => TotalAppend(r, u, c);
    case Released(x) =>
      ItemRowsTotal(lines, components, qty, i, 0, -1, x, c);
      TotalAppend(r, ItemRows(lines, qty, i, 0, -1, x), c);
    case Returned(x) =>
      ItemRowsTotal(lines, components, qty, i, 1, 0, x, c);
      TotalAppend(r, u, c);
      TotalAppend(r + u, ItemRows(lines, qty, i, 1, 0, x), c);
  }

  /** The two signs restock_for_item branches on. */
  lemma {:induction false} HistoryNet(lines: seq<BomLine>, components: nat, qty: int, i: nat, p: Phase)
    requires ValidLines(lines, components) && qty > 0
    ensures var net := Net(History(lines, qty, i, p));
      && (net.onHand < 0 <==> lines != [] && p.Used?)
      && (net.reserved > 0 <==> lines != [] && p.Held?)
  {
    var r := ItemRows(lines, qty, i, 0, 1, Reserve);
    var u := ItemRows(lines, qty, i, -1, -1, Consume);
    PiecesPositive(lines, components, qty);
    ItemRowsNet(lines, qty, i, 0, 1, Reserve);
    ItemRowsNet(lines, qty, i, -1, -1, Consume);
    match p
    case Fresh => case Held =>
    case Used => NetAppend(r, u);
    case Released(x) =>
      ItemRowsNet(lines, qty, i, 0, -1, x);
      NetAppend(r, ItemRows(lines, qty, i, 0, -1, x));
    case Returned(x) =>
      ItemRowsNet(lines, qty, i, 1, 0, x);
      NetAppend(r, u);
      NetAppend(r + u, ItemRows(lines, qty, i, 1, 0, x));
  }

  // ---------------------------------------------------------------- the invariant

  function LineBom(db: Db, i: nat): seq<BomLine>
    requires i in db.items
  {
    db.Bom(db.items[i].variant)
  }

  function PhaseIn(db: Db, i: nat): Phase {
    PhaseOf(RowsOf(db.ledger, i))
  }

  predicate OnScript(db: Db, i: nat)
    requires i in db.items
  {
    && ValidPhase(PhaseIn(db, i))
    && RowsOf(db.ledger, i) == History(LineBom(db, i), db.items[i].fin.qty, i, PhaseIn(db, i))
  }

  /** Only lines and stock adjustments write the ledger, and adjustments never touch `reserved`. */
  predicate Attributed(db: Db) {
    forall k :: 0 <= k < |db.ledger| ==>
      match db.ledger[k].item
      case Some(i) => i in db.items
      case None => db.ledger[k].reservedDelta == 0
  }

  /** Structural facts: keys, quantities, the bill of materials, caches. */
  predicate Sound(db: Db) {
    && WellKeyed(db) && ValidBom(db) && NoDrift(db)
    && forall i :: i in db.items ==> db.items[i].fin.qty > 0
  }

  /** paid_at, payment_status and the reservations of the order's lines move together. */
  predicate PaymentMatches(db: Db) {
    && (forall o :: 0 <= o < |db.orders| ==>
          && (db.orders[o].payment == Unpaid ==> !db.orders[o].paidAt)
          && (db.orders[o].payment == Paid ==> db.orders[o].paidAt))
    && (forall i :: i in db.items && db.items[i].fin.order < |db.orders| ==>
          (PhaseIn(db, i) == Fresh <==> !db.orders[db.items[i].fin.order].paidAt || LineBom(db, i) == []))
  }

  predicate Phased(db: Db) {
    && Sound(db) && Attributed(db) && PaymentMatches(db)
    && forall i :: i in db.items ==> OnScript(db, i)
  }

  lemma {:induction false} RowsOfAbsent(rows: seq<Row>, i: nat)
    requires forall k :: 0 <= k < |rows| ==> rows[k].item != Some(i)
    ensures RowsOf(rows, i) == []
  {
    if rows != [] { RowsOfAbsent(rows[1..], i); }
  }

  lemma {:induction false} LineBomValid(db: Db, i: nat)
    requires ValidBom(db) && i in db.items
    ensures ValidLines(LineBom(db, i), |db.components|)
  {}

  // ---------------------------------------------------------------- reserved = sum of outstanding needs

  function SumReserved(ledger: seq<Row>, n: nat, c: nat): int {
    if n == 0 then 0 else SumReserved(ledger, n - 1, c) + Total(RowsOf(ledger, n - 1), c).reserved
  }

  lemma {:induction false} SumReservedCons(r: Row, rest: seq<Row>, n: nat, c: nat)
    ensures SumReserved([r] + rest, n, c) == SumReserved(rest, n, c)
      + if r.item.Some? && r.item.value < n && r.component == c then r.reservedDelta else 0
  {
    if n > 0 {
      SumReservedCons(r, rest, n - 1, c);
      assert ([r] + rest)[1..] == rest;
      var tail := RowsOf(rest, n - 1);
      assert ([r] + tail)[1..] == tail;
    }
  }

  /** Splitting a component's reservations by order line loses nothing. */
  lemma {:induction false} ReservedSplitsByLine(ledger: seq<Row>, n: nat, c: nat)
    requires forall k :: 0 <= k < |ledger| ==>
      if ledger[k].item.Some? then ledger[k].item.value < n else ledger[k].reservedDelta == 0
    ensures Total(ledger, c).reserved == SumReserved(ledger, n, c)
  {
    if ledger == [] {
      EmptySum(n, c);
    } else {
      assert ledger == [ledger[0]] + ledger[1..];
      ReservedSplitsByLine(ledger[1..], n, c);
      SumReservedCons(ledger[0], ledger[1..], n, c);
    }
  }

  lemma {:induction false} EmptySum(n: nat, c: nat)
    ensures SumReserved([], n, c) == 0
  {
    if n > 0 { EmptySum(n - 1, c); }
  }

  /** Units of `c` promised to the lines below id `n` that are reserved and not yet consumed. */
  function Outstanding(db: Db, n: nat, c: nat): int {
    if n == 0 then 0
    else
      var mine := if n - 1 in db.items && PhaseIn(db, n - 1) == Held
                  then Need(LineBom(db, n - 1), db.items[n - 1].fin.qty, c) else 0;
      Outstanding(db, n - 1, c) + mine
  }

  lemma {:induction false} SumReservedIsOutstanding(db: Db, n: nat, c: nat)
    requires Phased(db)
    ensures SumReserved(db.ledger, n, c) == Outstanding(db, n, c)
  {
    if n > 0 {
      SumReservedIsOutstanding(db, n - 1, c);
      if n - 1 in db.items {
        assert OnScript(db, n - 1);
        LineBomValid(db, n - 1);
        HistoryTotals(LineBom(db, n - 1), |db.components|, db.items[n - 1].fin.qty, n - 1, PhaseIn(db, n - 1), c);
      } else {
        RowsOfAbsent(db.ledger, n - 1);
      }
    }
  }

  /** The cached `reserved` of a component is the sum of the outstanding needs of all lines. */
  lemma {:induction false} ReservedIsOutstanding(db: Db, c: nat)
    requires Phased(db) && c < |db.components|
    ensures db.components[c].reserved == Outstanding(db, db.nextItem, c)
  {
    assert !Drifted(db.components, db.ledger, c);
    ReservedSplitsByLine(db.ledger, db.nextItem, c);
    SumReservedIsOutstanding(db, db.nextItem, c);
  }

  lemma {:induction false} OwnNeedIsOutstanding(db: Db, n: nat, i: nat, c: nat)
    requires Sound(db) && i in db.items
    ensures Outstanding(db, n, c) >= 0
    ensures i < n && PhaseIn(db, i) == Held ==>
      Outstanding(db, n, c) >= Need(LineBom(db, i), db.items[i].fin.qty, c)
  {
    if n > 0 {
      OwnNeedIsOutstanding(db, n - 1, i, c);
      if n - 1 in db.items { NeedNonNegative(LineBom(db, n - 1), |db.components|, db.items[n - 1].fin.qty, c); }
    }
  }

  // ---------------------------------------------------------------- the promise

  /** A line consume_for_item may be called for: reserved, or consumed before, or made of nothing. */
  predicate CanConsume(db: Db, i: nat) {
    i in db.items && (LineBom(db, i) == [] || PhaseIn(db, i) == Held || HasConsume(RowsOf(db.ledger, i)))
  }

  /** A reservation is a promise: consuming a reserved line never violates stock_sane. */
  lemma {:induction false} ReservationIsAPromise(db: Db, i: nat)
    requires Phased(db) && CanConsume(db, i)
    ensures ConsumeForItem(db, i).Ok?
  {
    if !HasConsume(RowsOf(db.ledger, i)) && LineBom(db, i) != [] {
      var lines, qty := LineBom(db, i), db.items[i].fin.qty;
      var rows := ItemRows(lines, qty, i, -1, -1, Consume);
      LineBomValid(db, i);
      ItemRowsShape(lines, |db.components|, qty, i, -1, -1, Consume);
      InsertSucceedsIff(db.components, rows, -1, -1);
      forall c | 0 <= c < |db.components|
        ensures Sane(db.components[c].Add(Total(rows, c)))
      {
        ItemRowsTotal(lines, |db.components|, qty, i, -1, -1, Consume, c);
        ReservedIsOutstanding(db, c);
        OwnNeedIsOutstanding(db, db.nextItem, i, c);
        NeedNonNegative(lines, |db.components|, qty, c);
        assert Sane(db.components[c]);
      }
    }
  }

  /** Room for `need` more units of every component in a 32-bit column. */
  predicate Room(db: Db, i: nat)
    requires i in db.items
  {
    forall c :: 0 <= c < |db.components| ==>
      db.components[c].onHand + Need(LineBom(db, i), db.items[i].fin.qty, c) <= INT4_MAX
  }

  /** Exactly when a restock commits: the line holds something, and what it puts back fits. */
  lemma {:induction false} RestockCommitsIff(db: Db, i: nat, reason: Reason)
    requires Phased(db) && i in db.items
    ensures RestockForItem(db, i, reason).Ok? <==>
      LineBom(db, i) == [] || PhaseIn(db, i) == Held || (PhaseIn(db, i) == Used && Room(db, i))
  {
    var lines, qty, p := LineBom(db, i), db.items[i].fin.qty, PhaseIn(db, i);
    assert OnScript(db, i);
    LineBomValid(db, i);
    HistoryNet(lines, |db.components|, qty, i, p);
    if lines != [] {
      var a, b := if p.Used? then 1 else 0, if p.Held? then -1 else 0;
      var rows := ItemRows(lines, qty, i, a, b, reason);
      ItemRowsShape(lines, |db.components|, qty, i, a, b, reason);
      if p.Used? || p.Held? {
        InsertSucceedsIff(db.components, rows, a, b);
        forall c | 0 <= c < |db.components|
          ensures Sane(db.components[c].Add(Total(rows, c))) <==>
            (p.Held? || db.components[c].onHand + Need(lines, qty, c) <= INT4_MAX)
        {
          ItemRowsTotal(lines, |db.components|, qty, i, a, b, reason, c);
          ReservedIsOutstanding(db, c);
          OwnNeedIsOutstanding(db, db.nextItem, i, c);
          NeedNonNegative(lines, |db.components|, qty, c);
          assert Sane(db.components[c]);
        }
      }
    }
  }
}
