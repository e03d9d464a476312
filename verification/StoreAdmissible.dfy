/**
 One transaction at a time under the phase invariant: what a payment, a consume and a restock do to
 every line's phase, and exactly when a payment or an adjustment commits.
 */
module StoreAdmissible {
  import opened Common
  import opened Inventory
  import opened StoreModel
  import opened StoreRuns
  import opened StoreBooks
  import opened StorePhases

  predicate CallsReady(s: Sys) {
    forall i :: i in s.calls ==> CanConsume(s.db, i)
  }

  predicate Inv(s: Sys) {
    Phased(s.db) && CallsReady(s)
  }

  /** The only moves a line's phase ever makes, and the step that makes each. */
  predicate Moves(p: Phase, q: Phase, i: nat, step: Step) {
    || q == p
    || (p == Fresh && q == Held && step.DoMarkPaid?)
    || (p == Held && q == Used && step == DoConsume(i))
    || (p == Held && step.DoRestock? && step.item == i && q == Released(step.reason))
    || (p == Used && step.DoRestock? && step.item == i && q == Returned(step.reason))
  }

  predicate AllMove(db: Db, d: Db, step: Step) {
    forall i :: i in db.items ==> i in d.items && Moves(PhaseIn(db, i), PhaseIn(d, i), i, step)
  }

  // ---------------------------------------------------------------- statements that append rows

  lemma {:induction false} UntouchedLine(db: Db, d: Db, rows: seq<Row>, j: nat)
    requires j in db.items && OnScript(db, j)
    requires j in d.items && d.items[j] == db.items[j] && d.bom == db.bom
    requires d.ledger == db.ledger + rows && RowsOf(rows, j) == []
    ensures OnScript(d, j) && PhaseIn(d, j) == PhaseIn(db, j)
  {
    RowsOfAppend(db.ledger, rows, j);
    assert RowsOf(db.ledger, j) + [] == RowsOf(db.ledger, j);
  }

  /** Appending one line's rows moves that line along its script, and no other line. */
  lemma {:induction false} TouchedLine(db: Db, d: Db, i: nat, a: int, b: int, reason: Reason, q: Phase)
    requires i in db.items && OnScript(db, i) && ValidPhase(q)
    requires i in d.items && d.items[i] == db.items[i] && d.bom == db.bom && LineBom(db, i) != []
    requires -1 <= a <= 1 && -1 <= b <= 1
    requires d.ledger == db.ledger + LineRows(db, i, a, b, reason)
    requires History(LineBom(db, i), db.items[i].fin.qty, i, q)
          == History(LineBom(db, i), db.items[i].fin.qty, i, PhaseIn(db, i)) + LineRows(db, i, a, b, reason)
    ensures OnScript(d, i) && PhaseIn(d, i) == q
  {
    RowsOfAppend(db.ledger, LineRows(db, i, a, b, reason), i);
    RowsOfItemRows(LineBom(db, i), db.items[i].fin.qty, i, a, b, reason, i);
    HistoryReadsBack(LineBom(db, i), db.items[i].fin.qty, i, q);
  }

  lemma {:induction false} OneLineAppend(db: Db, i: nat, a: int, b: int, reason: Reason, q: Phase)
    requires Phased(db) && i in db.items && LineBom(db, i) != [] && ValidPhase(q)
    requires -1 <= a <= 1 && -1 <= b <= 1 && Insert(db, LineRows(db, i, a, b, reason)).Ok?
    requires History(LineBom(db, i), db.items[i].fin.qty, i, q)
          == History(LineBom(db, i), db.items[i].fin.qty, i, PhaseIn(db, i)) + LineRows(db, i, a, b, reason)
    requires PhaseIn(db, i) != Fresh && q != Fresh
    ensures var d := Insert(db, LineRows(db, i, a, b, reason)).value;
      && Phased(d) && PhaseIn(d, i) == q
      && forall j :: j in db.items && j != i ==> PhaseIn(d, j) == PhaseIn(db, j)
  {
    var rows := LineRows(db, i, a, b, reason);
    var d := Insert(db, rows).value;
    InsertKeepsNoDrift(db, rows);
    TouchedLine(db, d, i, a, b, reason, q);
    ItemRowsReason(LineBom(db, i), db.items[i].fin.qty, i, a, b, reason);
    forall j | j in db.items && j != i
      ensures OnScript(d, j) && PhaseIn(d, j) == PhaseIn(db, j)
    {
      RowsOfItemRows(LineBom(db, i), db.items[i].fin.qty, i, a, b, reason, j);
      UntouchedLine(db, d, rows, j);
    }
  }

  lemma {:induction false} NothingInserted(db: Db)
    ensures Insert(db, []) == Ok(db)
  {
    assert db.ledger + [] == db.ledger;
  }

  lemma {:induction false} ConsumeMovesToUsed(db: Db, i: nat)
    requires Phased(db) && CanConsume(db, i)
    ensures ConsumeForItem(db, i).Ok?
    ensures var d := ConsumeForItem(db, i).value;
      && Phased(d) && (LineBom(db, i) == [] || HasConsume(RowsOf(d.ledger, i)))
      && forall j :: j in db.items ==>
           PhaseIn(d, j) == if j == i && PhaseIn(db, i) == Held then Used else PhaseIn(db, j)
  {
    ReservationIsAPromise(db, i);
    assert OnScript(db, i);
    HistoryReadsBack(LineBom(db, i), db.items[i].fin.qty, i, PhaseIn(db, i));
    NothingInserted(db);
    if !HasConsume(RowsOf(db.ledger, i)) && LineBom(db, i) != [] {
      OneLineAppend(db, i, -1, -1, Consume, Used);
      HistoryReadsBack(LineBom(db, i), db.items[i].fin.qty, i, Used);
    }
  }

  /** The phase a committed restock leaves behind. */
  function AfterRestock(p: Phase, reason: Reason): Phase {
    match p
    case Held => Released(reason)
    case Used => Returned(reason)
    case _ => p
  }

  /** What a restock inserts, by phase. */
  lemma {:induction false} RestockRows(db: Db, i: nat, reason: Reason)
    requires Phased(db) && i in db.items
    ensures RestockForItem(db, i, reason)
         == Insert(db, LineRows(db, i, if LineBom(db, i) != [] && PhaseIn(db, i).Used? then 1 else 0,
                                       if LineBom(db, i) != [] && PhaseIn(db, i).Held? then -1 else 0, reason))
  {
    assert OnScript(db, i);
    LineBomValid(db, i);
    HistoryNet(LineBom(db, i), |db.components|, db.items[i].fin.qty, i, PhaseIn(db, i));
  }

  lemma {:induction false} EmptyLineRestock(db: Db, i: nat, reason: Reason)
    requires Phased(db) && i in db.items && LineBom(db, i) == []
    ensures RestockForItem(db, i, reason) == Ok(db) && PhaseIn(db, i) == Fresh
  {
    assert OnScript(db, i);
    NothingInserted(db);
  }

  lemma {:induction false} FullLineRestock(db: Db, i: nat, reason: Reason)
    requires Phased(db) && i in db.items && LineBom(db, i) != [] && RestockReason(reason)
    ensures RestockForItem(db, i, reason).Ok? ==>
      var d := RestockForItem(db, i, reason).value;
      && Phased(d) && PhaseIn(d, i) == AfterRestock(PhaseIn(db, i), reason)
      && forall j :: j in db.items && j != i ==> PhaseIn(d, j) == PhaseIn(db, j)
  {
    var p := PhaseIn(db, i);
    RestockCommitsIff(db, i, reason);
    RestockRows(db, i, reason);
    if RestockForItem(db, i, reason).Ok? {
      if p.Used? {
        OneLineAppend(db, i, 1, 0, reason, Returned(reason));
      } else {
        OneLineAppend(db, i, 0, -1, reason, Released(reason));
      }
    }
  }

  lemma {:induction false} RestockMovesBack(db: Db, i: nat, reason: Reason)
    requires Phased(db) && RestockReason(reason) && RestockForItem(db, i, reason).Ok?
    ensures var d := RestockForItem(db, i, reason).value;
      && Phased(d)
      && forall j :: j in db.items ==>
           PhaseIn(d, j) == if j == i then AfterRestock(PhaseIn(db, i), reason) else PhaseIn(db, j)
  {
    if i !in db.items {
      NothingInserted(db);
    } else if LineBom(db, i) == [] {
      EmptyLineRestock(db, i, reason);
    } else {
      FullLineRestock(db, i, reason);
    }
  }

  // ---------------------------------------------------------------- mark_paid

  lemma {:induction false} ReserveRowsOf(db: Db, ids: seq<nat>, j: nat)
    requires forall k :: 0 <= k < |ids| ==> ids[k] in db.items
    requires forall x, y :: 0 <= x < y < |ids| ==> ids[x] < ids[y]
    ensures RowsOf(ReserveRows(db, ids), j) == if j in ids then LineRows(db, j, 0, 1, Reserve) else []
  {
    if ids != [] {
      var i := ids[0];
      ReserveRowsOf(db, ids[1..], j);
      RowsOfAppend(LineRows(db, i, 0, 1, Reserve), ReserveRows(db, ids[1..]), j);
      RowsOfItemRows(LineBom(db, i), db.items[i].fin.qty, i, 0, 1, Reserve, j);
      assert j in ids <==> j == i || j in ids[1..];
      assert i !in ids[1..];
    }
  }

  lemma {:induction false} ReserveRowsShape(db: Db, ids: seq<nat>)
    requires Sound(db) && forall k :: 0 <= k < |ids| ==> ids[k] in db.items
    ensures var rows := ReserveRows(db, ids);
      && Directed(rows, 0, 1)
      && forall r :: r in rows ==> r.component < |db.components| && r.item.Some? && r.item.value in db.items
  {
    if ids != [] {
      var i := ids[0];
      var mine := LineRows(db, i, 0, 1, Reserve);
      LineBomValid(db, i);
      ItemRowsShape(LineBom(db, i), |db.components|, db.items[i].fin.qty, i, 0, 1, Reserve);
      ReserveRowsShape(db, ids[1..]);
      forall r | r in mine
        ensures r.component < |db.components| && r.item == Some(i)
      {
        var k :| 0 <= k < |mine| && mine[k] == r;
      }
    }
  }

  function LineNeed(db: Db, i: nat, c: nat): int {
    if i in db.items then Need(LineBom(db, i), db.items[i].fin.qty, c) else 0
  }

  /** Units of `c` that all the lines of an order need together. */
  function Demand(db: Db, ids: seq<nat>, c: nat): int {
    if ids == [] then 0 else LineNeed(db, ids[0], c) + Demand(db, ids[1..], c)
  }

  lemma {:induction false} LineRowsTotal(db: Db, i: nat, c: nat)
    requires Sound(db) && i in db.items
    ensures Total(LineRows(db, i, 0, 1, Reserve), c) == Balance(0, LineNeed(db, i, c)) && LineNeed(db, i, c) >= 0
  {
    LineBomValid(db, i);
    ItemRowsTotal(LineBom(db, i), |db.components|, db.items[i].fin.qty, i, 0, 1, Reserve, c);
    NeedNonNegative(LineBom(db, i), |db.components|, db.items[i].fin.qty, c);
  }

  lemma {:induction false} ReserveRowsTotal(db: Db, ids: seq<nat>, c: nat)
    requires Sound(db) && forall k :: 0 <= k < |ids| ==> ids[k] in db.items
    ensures Total(ReserveRows(db, ids), c) == Balance(0, Demand(db, ids, c)) && Demand(db, ids, c) >= 0
  {
    if ids != [] {
      assert ReserveRows(db, ids) == LineRows(db, ids[0], 0, 1, Reserve) + ReserveRows(db, ids[1..]);
      LineRowsTotal(db, ids[0], c);
      ReserveRowsTotal(db, ids[1..], c);
      TotalAppend(LineRows(db, ids[0], 0, 1, Reserve), ReserveRows(db, ids[1..]), c);
    }
  }

  lemma {:induction false} LinesExist(db: Db, o: nat)
    ensures forall k :: 0 <= k < |Lines(db, o)| ==> Lines(db, o)[k] in db.items
    ensures forall x, y :: 0 <= x < y < |Lines(db, o)| ==> Lines(db, o)[x] < Lines(db, o)[y]
    ensures WellKeyed(db) ==> forall i :: i in Lines(db, o) <==> i in db.items && db.items[i].fin.order == o
  {
    LinesAreTheOrdersItems(db.items, db.nextItem, o);
    assert forall k :: 0 <= k < |Lines(db, o)| ==> Lines(db, o)[k] in Lines(db, o);
  }

  /**
   Payment succeeds exactly when, for every component, what the whole order needs is still
   available, although the database only ever checks one row at a time.
   */
  lemma {:induction false} PaymentSucceedsIff(db: Db, o: nat)
    requires Sound(db) && o < |db.orders| && db.orders[o].payment != Paid
    ensures MarkPaid(db, o).Ok? <==>
      forall c :: 0 <= c < |db.components| ==>
        Demand(db, Lines(db, o), c) <= db.components[c].onHand - db.components[c].reserved
  {
    var ids := Lines(db, o);
    LinesExist(db, o);
    ReserveRowsShape(db, ids);
    InsertSucceedsIff(db.components, ReserveRows(db, ids), 0, 1);
    forall c | 0 <= c < |db.components|
      ensures Sane(db.components[c].Add(Total(ReserveRows(db, ids), c))) <==>
              Demand(db, ids, c) <= db.components[c].onHand - db.components[c].reserved
    {
      ReserveRowsTotal(db, ids, c);
      assert Sane(db.components[c]);
    }
  }

  /** A stock adjustment commits exactly when it moves something and leaves every reservation covered. */
  lemma {:induction false} AdjustCommitsIff(db: Db, c: nat, delta: int, reason: Reason)
    requires AllSane(db.components) && c < |db.components|
    ensures var b := db.components[c];
      && (AdjustStock(db, c, delta, reason).Ok? <==> delta != 0 && Int4(delta) && b.reserved <= b.onHand + delta <= INT4_MAX)
      && (AdjustStock(db, c, delta, reason).Ok? ==>
            var d := AdjustStock(db, c, delta, reason).value;
            && d.components == db.components[c := Balance(b.onHand + delta, b.reserved)]
            && d.ledger == db.ledger + [Row(c, delta, 0, reason, None)]
            && d == db.(components := d.components, ledger := d.ledger))
  {
    var rows := [Row(c, delta, 0, reason, None)];
    assert rows[1..] == [];
    assert FirstRowError(rows) == RowError(rows[0]);
    assert Sane(db.components[c]);
    assert ApplyAll(db.components, rows) == ApplyRow(db.components, rows[0]);
  }

  /** For an order of one line that is exactly: the quantity is at most ops.variant_buildable. */
  lemma {:induction false} OneLinePaymentIsBuildable(db: Db, o: nat, i: nat)
    requires Sound(db) && o < |db.orders| && db.orders[o].payment != Paid
    requires Lines(db, o) == [i] && i in db.items && LineBom(db, i) != []
    requires ValidLines(LineBom(db, i), |db.components|)
    ensures MarkPaid(db, o).Ok? <==> db.items[i].fin.qty <= Buildable(db.components, LineBom(db, i))
  {
    BuildableIsExact(db.components, LineBom(db, i), db.items[i].fin.qty, i);
    assert ReserveRows(db, [i]) == LineRows(db, i, 0, 1, Reserve) + ReserveRows(db, []);
    assert ReserveRows(db, [i]) == LineRows(db, i, 0, 1, Reserve);
  }

  lemma {:induction false} ReservedLine(db: Db, d: Db, o: nat, j: nat)
    requires WellKeyed(db) && j in db.items && db.items[j].fin.order == o && LineBom(db, j) != []
    requires RowsOf(db.ledger, j) == [] && d.items == db.items && d.bom == db.bom
    requires d.ledger == db.ledger + ReserveRows(db, Lines(db, o))
    ensures OnScript(d, j) && PhaseIn(d, j) == Held
  {
    LinesExist(db, o);
    ReserveRowsOf(db, Lines(db, o), j);
    RowsOfAppend(db.ledger, ReserveRows(db, Lines(db, o)), j);
    HistoryReadsBack(LineBom(db, j), db.items[j].fin.qty, j, Held);
  }

  lemma {:induction false} PaidLine(db: Db, d: Db, o: nat, j: nat)
    requires WellKeyed(db) && j in db.items && OnScript(db, j) && d.items == db.items && d.bom == db.bom
    requires db.items[j].fin.order == o ==> RowsOf(db.ledger, j) == []
    requires d.ledger == db.ledger + ReserveRows(db, Lines(db, o))
    ensures OnScript(d, j)
    ensures PhaseIn(d, j) == if db.items[j].fin.order == o && LineBom(db, j) != [] then Held else PhaseIn(db, j)
  {
    if db.items[j].fin.order == o && LineBom(db, j) != [] {
      ReservedLine(db, d, o, j);
    } else {
      LinesExist(db, o);
      ReserveRowsOf(db, Lines(db, o), j);
      UntouchedLine(db, d, ReserveRows(db, Lines(db, o)), j);
    }
  }

  lemma {:induction false} PaymentKeepsStructure(db: Db, o: nat)
    requires Sound(db) && Attributed(db) && MarkPaid(db, o).Ok? && o < |db.orders| && db.orders[o].payment != Paid
    ensures var d := MarkPaid(db, o).value;
      Sound(d) && Attributed(d) && d.ledger == db.ledger + ReserveRows(db, Lines(db, o))
  {
    var rows := ReserveRows(db, Lines(db, o));
    var paid := db.(orders := db.orders[o := db.orders[o].(payment := Paid, paidAt := true)]);
    var d := MarkPaid(db, o).value;
    InsertKeepsNoDrift(paid, rows);
    LinesExist(db, o);
    ReserveRowsShape(db, Lines(db, o));
    assert forall k :: |db.ledger| <= k < |d.ledger| ==> d.ledger[k] in rows;
  }

  lemma {:induction false} PaidLines(db: Db, d: Db, o: nat)
    requires Phased(db) && o < |db.orders| && !db.orders[o].paidAt && d.items == db.items && d.bom == db.bom
    requires d.ledger == db.ledger + ReserveRows(db, Lines(db, o))
    ensures forall j :: j in db.items ==>
      && OnScript(d, j)
      && PhaseIn(d, j) == if db.items[j].fin.order == o && LineBom(db, j) != [] then Held else PhaseIn(db, j)
  {
    forall j | j in db.items
      ensures OnScript(d, j)
      ensures PhaseIn(d, j) == if db.items[j].fin.order == o && LineBom(db, j) != [] then Held else PhaseIn(db, j)
    {
      assert OnScript(db, j);
      PaidLine(db, d, o, j);
    }
  }

  lemma {:induction false} PaymentMovesToHeld(db: Db, o: nat)
    requires Phased(db) && MarkPaid(db, o).Ok? && o < |db.orders| && db.orders[o].payment == Unpaid
    ensures var d := MarkPaid(db, o).value;
      && Phased(d)
      && forall j :: j in db.items ==>
           PhaseIn(d, j) == if db.items[j].fin.order == o && LineBom(db, j) != [] then Held else PhaseIn(db, j)
  {
    PaymentKeepsStructure(db, o);
    PaidLines(db, MarkPaid(db, o).value, o);
  }
}
