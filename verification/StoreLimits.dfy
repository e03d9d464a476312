/** Where the discipline is needed: what the same transactions do outside it. */
module StoreLimits {
  import opened Common
  import opened Inventory
  import opened StoreModel
  import opened StoreRuns
  import opened StoreBooks
  import opened StorePhases
  import opened StoreAdmissible

  /** The guard of mark_paid lets a call fall through exactly when the order is missing or its status is `paid`. */
  lemma {:induction false} GuardSkipsIff(db: Db, o: nat)
    ensures MarkPaid(db, o) == Ok(db) <==> o >= |db.orders| || db.orders[o].payment == Paid
  {
    if o < |db.orders| && db.orders[o].payment != Paid && MarkPaid(db, o).Ok? {
      assert |MarkPaid(db, o).value.outbox| == |db.outbox| + 1;
    }
  }

  /**
   A mark_paid call leaves the database as it was exactly when the order is missing, its status is
   `paid`, or some component cannot cover what the whole order needs.
   */
  lemma {:induction false} ReplayIsNoOpIff(db: Db, o: nat)
    requires Sound(db)
    ensures Commit(db, MarkPaid(db, o)) == db <==>
      || o >= |db.orders| || db.orders[o].payment == Paid
      || exists c :: 0 <= c < |db.components| && Demand(db, Lines(db, o), c) > db.components[c].onHand - db.components[c].reserved
  {
    if o < |db.orders| && db.orders[o].payment != Paid {
      PaymentSucceedsIff(db, o);
      GuardSkipsIff(db, o);
    }
  }

  /** So a replay after a refund that commits announces and reserves a second time. */
  lemma {:induction false} ReplayAfterRefundReservesAgain(db: Db, o: nat)
    requires o < |db.orders| && (db.orders[o].payment == PartiallyRefunded || db.orders[o].payment == FullyRefunded)
    requires MarkPaid(db, o).Ok?
    ensures var d := MarkPaid(db, o).value;
      && Announcements(d.outbox, PaidTopic, o) == Announcements(db.outbox, PaidTopic, o) + 1
      && d.ledger == db.ledger + ReserveRows(db, Lines(db, o))
  {
    var d := MarkPaid(db, o).value;
    assert d.outbox[..|db.outbox|] == db.outbox;
  }

  /** Consuming keeps the phase invariant exactly for lines that are reserved, consumed before, or made of nothing. */
  lemma {:induction false} ConsumeKeepsPhasesIff(db: Db, i: nat)
    requires Phased(db) && i in db.items
    ensures ConsumeForItem(db, i).Ok? && Phased(ConsumeForItem(db, i).value) <==> CanConsume(db, i)
  {
    if CanConsume(db, i) {
      ConsumeMovesToUsed(db, i);
    } else if ConsumeForItem(db, i).Ok? {
      UnpromisedConsumeLeavesTheScript(db, i);
    }
  }

  lemma {:induction false} UnpromisedConsumeLeavesTheScript(db: Db, i: nat)
    requires Phased(db) && i in db.items && !CanConsume(db, i) && ConsumeForItem(db, i).Ok?
    ensures i in ConsumeForItem(db, i).value.items && !OnScript(ConsumeForItem(db, i).value, i)
  {
    var d, lines, qty, p := ConsumeForItem(db, i).value, LineBom(db, i), db.items[i].fin.qty, PhaseIn(db, i);
    assert OnScript(db, i);
    HistoryReadsBack(lines, qty, i, p);
    var used := LineRows(db, i, -1, -1, Consume);
    RowsOfAppend(db.ledger, used, i);
    RowsOfItemRows(lines, qty, i, -1, -1, Consume, i);
    ItemRowsReason(lines, qty, i, 0, 1, Reserve);
    ItemRowsReason(lines, qty, i, -1, -1, Consume);
    if p.Released? { ItemRowsReason(lines, qty, i, 0, -1, p.reason); }
    assert |RowsOf(d.ledger, i)| == |lines| || |RowsOf(d.ledger, i)| == 3 * |lines|;
    assert PhaseIn(d, i) == Used;
  }

  /**
   When a consume commits, reserved or not: a repeat always, a first one exactly when what is
   reserved, for whomever, covers what the line needs.
   */
  lemma {:induction false} ConsumeCommitsIffCovered(db: Db, i: nat)
    requires Sound(db)
    ensures ConsumeForItem(db, i).Ok? <==>
      HasConsume(RowsOf(db.ledger, i)) || forall c :: 0 <= c < |db.components| ==> LineNeed(db, i, c) <= db.components[c].reserved
  {
    if i !in db.items || HasConsume(RowsOf(db.ledger, i)) {
      NothingInserted(db);
      assert i !in db.items ==> forall c :: 0 <= c < |db.components| ==> Sane(db.components[c]);
    } else {
      FirstConsumeCommitsIff(db, i);
    }
  }

  lemma {:induction false} FirstConsumeCommitsIff(db: Db, i: nat)
    requires Sound(db) && i in db.items
    ensures Insert(db, LineRows(db, i, -1, -1, Consume)).Ok? <==>
      forall c :: 0 <= c < |db.components| ==> LineNeed(db, i, c) <= db.components[c].reserved
  {
    var lines, qty := LineBom(db, i), db.items[i].fin.qty;
    var rows := ItemRows(lines, qty, i, -1, -1, Consume);
    LineBomValid(db, i);
    ItemRowsShape(lines, |db.components|, qty, i, -1, -1, Consume);
    InsertSucceedsIff(db.components, rows, -1, -1);
    forall c | 0 <= c < |db.components|
      ensures Sane(db.components[c].Add(Total(rows, c))) <==> LineNeed(db, i, c) <= db.components[c].reserved
    {
      ItemRowsTotal(lines, |db.components|, qty, i, -1, -1, Consume, c);
      NeedNonNegative(lines, |db.components|, qty, c);
      assert Sane(db.components[c]);
    }
  }

  lemma {:induction false} OutstandingSame(db: Db, d: Db, n: nat, c: nat)
    requires d.items == db.items && d.bom == db.bom
    requires forall j :: j in db.items ==> (PhaseIn(d, j) == Held <==> PhaseIn(db, j) == Held)
    ensures Outstanding(d, n, c) == Outstanding(db, n, c)
  {
    if n > 0 { OutstandingSame(db, d, n - 1, c); }
  }

  lemma {:induction false} UnpromisedConsumeMovesOneLine(db: Db, i: nat)
    requires Phased(db) && i in db.items && !CanConsume(db, i) && ConsumeForItem(db, i).Ok?
    ensures var d := ConsumeForItem(db, i).value;
      && d.items == db.items && d.bom == db.bom
      && forall j :: j in db.items ==> (PhaseIn(d, j) == Held <==> PhaseIn(db, j) == Held)
  {
    var d, rows := ConsumeForItem(db, i).value, LineRows(db, i, -1, -1, Consume);
    forall j | j in db.items
      ensures PhaseIn(d, j) == if j == i then Used else PhaseIn(db, j)
    {
      RowsOfAppend(db.ledger, rows, j);
      RowsOfItemRows(LineBom(db, i), db.items[i].fin.qty, i, -1, -1, Consume, j);
      ItemRowsReason(LineBom(db, i), db.items[i].fin.qty, i, -1, -1, Consume);
      assert j != i ==> RowsOf(db.ledger, j) + [] == RowsOf(db.ledger, j);
    }
  }

  /** Promised units of a component that are no longer reserved. */
  function Shortfall(db: Db, c: nat): int
    requires c < |db.components|
  {
    Outstanding(db, db.nextItem, c) - db.components[c].reserved
  }

  predicate ShortBy(db: Db, d: Db, i: nat) {
    forall c :: 0 <= c < |d.components| ==> Shortfall(d, c) == LineNeed(db, i, c)
  }

  /** Such a consume takes what was promised to others: afterwards `reserved` is short by the line's need. */
  lemma {:induction false} UnpromisedConsumeTakesPromises(db: Db, i: nat)
    requires Phased(db) && i in db.items && !CanConsume(db, i) && ConsumeForItem(db, i).Ok?
    ensures |ConsumeForItem(db, i).value.components| == |db.components| && ShortBy(db, ConsumeForItem(db, i).value, i)
  {
    var d := ConsumeForItem(db, i).value;
    UnpromisedConsumeMovesOneLine(db, i);
    ApplyMovesByTotals(db.components, LineRows(db, i, -1, -1, Consume));
    LineBomValid(db, i);
    forall c | 0 <= c < |d.components|
      ensures Shortfall(d, c) == LineNeed(db, i, c)
    {
      ReservedIsOutstanding(db, c);
      OutstandingSame(db, d, db.nextItem, c);
      ItemRowsTotal(LineBom(db, i), |db.components|, db.items[i].fin.qty, i, -1, -1, Consume, c);
    }
  }
}
