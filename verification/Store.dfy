/**
 The shop's store as the program drives it: tables updated in place, one statement after the
 other, inside transactions that roll back on the first error. Each method is tied to the
 transaction function of StoreModel, about which the run theorems are proved.
 */
module Store {
  import opened Common
  import opened Inventory
  import opened Pricing
  import opened StoreModel
  import opened StoreRuns
  import opened StoreBooks
  import opened StorePlacing
  import opened StoreRefusals
  import opened StoreStations

  /** A transaction either commits its result or reports the error and leaves everything as it was. */
  predicate Outcome(tx: Result<Db>, before: Db, r: Result<()>, now: Db) {
    match tx
    case Ok(d) => r == Ok(()) && now == d
    case Err(e) => r == Err(e) && now == before
  }

  /** One order_items insert and its trigger. */
  function LineInserted(d: Db, o: nat, p: Priced): Db {
    RollUp(d.(items := d.items[d.nextItem := NewItem(o, p)], nextItem := d.nextItem + 1), o)
  }

  /** place_order before its message, with these lines inserted so far. */
  function LinesInserted(saved: Db, ps: seq<Priced>, t: Totals): Db {
    Placed(saved, ps, t).(outbox := saved.outbox)
  }

  lemma {:induction false} NewItemsSnoc(o: nat, n: nat, ps: seq<Priced>, p: Priced)
    ensures NewItems(o, n, ps + [p]) == NewItems(o, n, ps)[n + |ps| := NewItem(o, p)]
  {
    assert (ps + [p])[..|ps|] == ps;
  }

  lemma {:induction false} NewOrderRollup(saved: Db, ps: seq<Priced>, t: Totals)
    requires WellKeyed(saved) && ps != []
    ensures LeastAdvanced(Placed(saved, ps, t).items, Lines(Placed(saved, ps, t), |saved.orders|)) == Some(Queued)
  {
    NewOrderView(saved, ps, t);
  }

  lemma {:induction false} OneMoreItem(saved: Db, ps: seq<Priced>, p: Priced, t: Totals)
    ensures LinesInserted(saved, ps, t).items[saved.nextItem + |ps| := NewItem(|saved.orders|, p)]
         == LinesInserted(saved, ps + [p], t).items
  {
    NewItemsSnoc(|saved.orders|, saved.nextItem, ps, p);
  }

  lemma {:induction false} OneMoreRollup(saved: Db, ps: seq<Priced>, p: Priced, t: Totals, d: Db)
    requires WellKeyed(saved) && d.items == LinesInserted(saved, ps + [p], t).items
    requires d.nextItem == saved.nextItem + |ps| + 1 && d.orders == LinesInserted(saved, ps, t).orders
    ensures RollUp(d, |saved.orders|).orders == LinesInserted(saved, ps + [p], t).orders
  {
    NewOrderRollup(saved, ps + [p], t);
  }

  /** The trigger after each insert leaves the rollup the finished order has. */
  lemma {:induction false} OneMoreLine(saved: Db, ps: seq<Priced>, p: Priced, t: Totals)
    requires WellKeyed(saved)
    ensures LineInserted(LinesInserted(saved, ps, t), |saved.orders|, p) == LinesInserted(saved, ps + [p], t)
  {
    var before := LinesInserted(saved, ps, t);
    var d := before.(items := before.items[before.nextItem := NewItem(|saved.orders|, p)], nextItem := before.nextItem + 1);
    OneMoreItem(saved, ps, p, t);
    OneMoreRollup(saved, ps, p, t, d);
  }

  /** The running minimum, one id at a time. */
  lemma {:induction false} LeastAdvancedStep(items: map<nat, Item>, i: nat, o: nat)
    ensures var least := LeastAdvanced(items, LinesOf(items, i, o));
      LeastAdvanced(items, LinesOf(items, i + 1, o)) ==
        if i in items && items[i].fin.order == o && items[i].status != Cancelled
           && (least.None? || items[i].status.Rank() < least.value.Rank())
        then Some(items[i].status) else least
  {
    var before := LinesOf(items, i, o);
    if i in items && items[i].fin.order == o {
      assert (before + [i])[..|before|] == before;
    } else {
      assert LinesOf(items, i + 1, o) == before;
    }
  }

  class Store {
    const bom: map<nat, seq<BomLine>>
    var components: seq<Balance>
    var ledger: seq<Row>
    var orders: seq<Order>
    var items: map<nat, Item>
    var nextItem: nat
    var refunds: seq<Refund>
    var outbox: seq<Message>

    function Snapshot(): Db
      reads this
    {
      Db(bom, components, ledger, orders, items, nextItem, refunds, outbox)
    }

    ghost predicate Valid()
      reads this
    {
      WellKeyed(Snapshot())
    }

    /** A freshly migrated shop with empty shelves. */
    constructor (bom: map<nat, seq<BomLine>>, kinds: nat)
      requires forall v :: v in bom ==> ValidLines(bom[v], kinds)
      ensures Valid() && Initial(Sys(Snapshot(), multiset{}, {}, {}, {})) && this.bom == bom && |components| == kinds
    {
      this.bom := bom;
      components := seq(kinds, _ => ZERO);
      ledger, orders, items, nextItem, refunds, outbox := [], [], map[], 0, [], [];
    }

    method Rollback(d: Db)
      requires d.bom == bom
      modifies this
      ensures Snapshot() == d
    {
      components, ledger, orders := d.components, d.ledger, d.orders;
      items, nextItem, refunds, outbox := d.items, d.nextItem, d.refunds, d.outbox;
    }

    /**
     INSERT into ops.inventory_ledger: the row constraints, then the trigger row by row, updating
     balances in place and checking stock_sane after every single row.
     */
    method InsertLedger(rows: seq<Row>) returns (r: Result<()>)
      modifies this`components, this`ledger
      ensures match Insert(old(Snapshot()), rows)
        case Ok(d) => r == Ok(()) && Snapshot() == d
        case Err(e) => r == Err(e)
    {
      for i := 0 to |rows|
        invariant FirstRowError(rows) == FirstRowError(rows[i..])
      {
        if RowError(rows[i]).Some? {
          return Err(RowError(rows[i]).value);
        }
        assert rows[i..][1..] == rows[i + 1..];
      }
      ledger := ledger + rows;
      for i := 0 to |rows|
        invariant ApplyAll(old(components), rows) == ApplyAll(components, rows[i..])
        invariant ledger == old(ledger) + rows
      {
        var applied := ApplyRow(components, rows[i]);
        if applied.Err? {
          return Err(applied.error);
        }
        assert rows[i..][1..] == rows[i + 1..];
        components := applied.value;
      }
      r := Ok(());
    }

    /** t_rollup_production: min over the order's lines that are not cancelled. */
    method RollUpProduction(o: nat)
      modifies this`orders
      ensures Snapshot() == RollUp(old(Snapshot()), o)
    {
      if o >= |orders| {
        return;
      }
      var least: Option<Station> := None;
      for i := 0 to nextItem
        invariant orders == old(orders)
        invariant least == LeastAdvanced(items, LinesOf(items, i, o))
      {
        LeastAdvancedStep(items, i, o);
        if i in items && items[i].fin.order == o {
          if items[i].status != Cancelled && (least.None? || items[i].status.Rank() < least.value.Rank()) {
            least := Some(items[i].status);
          }
        }
      }
      orders := orders[o := orders[o].(rollup := least)];
    }

    /** place_order: price the cart from the catalogue, then insert everything in one transaction. */
    method PlaceOrder(cartFound: bool, cat: Catalog, cart: seq<CartLine>) returns (r: Result<()>)
      requires Valid()
      modifies this
      ensures Valid() && Outcome(StoreModel.PlaceOrder(old(Snapshot()), cartFound, cat, cart), old(Snapshot()), r, Snapshot())
      ensures r == Ok(()) <==> cartFound && Chargeable(cat, cart)
      ensures r == Ok(()) ==> PlacedFrom(old(Snapshot()), Snapshot(), cat, cart)
    {
      PlaceOrderCommitsIff(Snapshot(), cartFound, cat, cart);
      if !cartFound {
        return Err(OutOfStock);
      }
      var ps, t := PriceOrder(cat, cart);
      r := InsertOrder(ps, t);
    }

    method InsertOrder(ps: seq<Priced>, t: Totals) returns (r: Result<()>)
      requires Valid()
      modifies this
      ensures Valid()
      ensures Outcome(if PlaceChecks(t, ps) then Ok(Placed(old(Snapshot()), ps, t)) else Err(CheckViolation),
                      old(Snapshot()), r, Snapshot())
      ensures r == Ok(()) ==> Inserted(old(Snapshot()), Snapshot(), ps)
    {
      var saved := Snapshot();
      if !(t.subtotal >= 0 && t.discount >= 0 && t.total >= 0) {
        return Err(CheckViolation);
      }
      var o := |orders|;
      orders := orders + [Order(Unpaid, false, false, None, t.subtotal, t.discount, t.total, 0)];
      for k := 0 to |ps|
        invariant forall j :: 0 <= j < k ==> ps[j].line.qty > 0 && ps[j].unit >= 0
        invariant Snapshot() == LinesInserted(saved, ps[..k], t)
      {
        if !(ps[k].line.qty > 0 && ps[k].unit >= 0) {
          Rollback(saved);
          return Err(CheckViolation);
        }
        OneMoreLine(saved, ps[..k], ps[k], t);
        assert ps[..k + 1] == ps[..k] + [ps[k]];
        InsertLine(o, ps[k]);
      }
      outbox := outbox + [OrderPlaced(o, t.total, t.qty)];
      assert Snapshot() == Placed(saved, ps, t) by { assert ps[..|ps|] == ps; }
      PlacedAddsLines(saved, ps, t);
      PlacedIsInserted(saved, ps, t);
      r := Ok(());
    }

    method InsertLine(o: nat, p: Priced)
      modifies this`items, this`nextItem, this`orders
      ensures Snapshot() == LineInserted(old(Snapshot()), o, p)
    {
      items := items[nextItem := NewItem(o, p)];
      nextItem := nextItem + 1;
      RollUpProduction(o);
    }

    /** mark_paid: flip, reserve, announce; a refused reservation undoes the flip. */
    method MarkPaid(o: nat) returns (r: Result<()>)
      requires Valid()
      modifies this
      ensures Valid() && Outcome(StoreModel.MarkPaid(old(Snapshot()), o), old(Snapshot()), r, Snapshot())
    {
      if o >= |orders| || orders[o].payment == Paid {
        return Ok(());
      }
      var saved := Snapshot();
      orders := orders[o := orders[o].(payment := Paid, paidAt := true)];
      var inserted := InsertLedger(ReserveRows(saved, Lines(saved, o)));
      if inserted.Err? {
        Rollback(saved);
        return Err(if inserted.error == CheckViolation then OutOfStock else inserted.error);
      }
      outbox := outbox + [OrderPaid(o, orders[o].total)];
      r := Ok(());
    }

    method ConsumeForItem(i: nat) returns (r: Result<()>)
      requires Valid()
      modifies this
      ensures Valid() && Outcome(StoreModel.ConsumeForItem(old(Snapshot()), i), old(Snapshot()), r, Snapshot())
    {
      var saved := Snapshot();
      var rows := if HasConsume(RowsOf(ledger, i)) then [] else LineRows(saved, i, -1, -1, Consume);
      r := InsertLedger(rows);
      if r.Err? { Rollback(saved); }
    }

    method RestockForItem(i: nat, reason: Reason) returns (r: Result<()>)
      requires Valid()
      modifies this
      ensures Valid() && Outcome(StoreModel.RestockForItem(old(Snapshot()), i, reason), old(Snapshot()), r, Snapshot())
    {
      var saved := Snapshot();
      var net := Net(RowsOf(ledger, i));
      var rows := LineRows(saved, i, if net.onHand < 0 then 1 else 0, if net.reserved > 0 then -1 else 0, reason);
      r := InsertLedger(rows);
      if r.Err? { Rollback(saved); }
    }

    /** advance_item: the status commits first; the consume is a second transaction. */
    method AdvanceItem(i: nat, to: Station) returns (r: Result<()>)
      requires Valid()
      modifies this
      ensures Valid()
      ensures !(i in old(items) && MayMove(old(items)[i].status, to)) ==>
        r == Err(if i in old(items) then IllegalTransition else NotFound) && Snapshot() == old(Snapshot())
      ensures i in old(items) && MayMove(old(items)[i].status, to) ==> i in items && items[i].status == to
      ensures var moved := SetStation(old(Snapshot()), i, to);
        if moved.Err? then r == Err(moved.error) && Snapshot() == old(Snapshot())
        else if to == Printing then Outcome(StoreModel.ConsumeForItem(moved.value, i), moved.value, r, Snapshot())
        else r == Ok(()) && Snapshot() == moved.value
    {
      if i !in items {
        return Err(NotFound);
      }
      LegalIffMayMove(items[i].status, to);
      if !Legal(items[i].status, to) {
        return Err(IllegalTransition);
      }
      items := items[i := items[i].(status := to)];
      RollUpProduction(items[i].fin.order);
      r := Ok(());
      if to == Printing {
        r := ConsumeForItem(i);
      }
    }

    method CancelOrder(o: nat)
      requires Valid()
      modifies this
      ensures Valid() && Snapshot() == StoreModel.CancelOrder(old(Snapshot()), o)
    {
      if o < |orders| {
        orders := orders[o := orders[o].(cancelled := true)];
      }
      var touched := CancelItems(o);
      if touched {
        RollUpProduction(o);
      }
      outbox := outbox + [OrderCancelled(o)];
    }

    method CancelItems(o: nat) returns (touched: bool)
      requires forall i :: i in items ==> i < nextItem
      modifies this`items
      ensures items == CancelLines(old(items), o)
      ensures touched <==> exists i :: i in old(items) && old(items)[i].fin.order == o && old(items)[i].status != Packed
      ensures !touched ==> items == old(items)
    {
      touched := false;
      for i := 0 to nextItem
        invariant items.Keys == old(items).Keys
        invariant forall j :: j in items ==> items[j] == if j < i then CancelLines(old(items), o)[j] else old(items)[j]
        invariant touched <==> exists j :: j in old(items) && j < i && old(items)[j].fin.order == o && old(items)[j].status != Packed
        invariant !touched ==> items == old(items)
      {
        if i in items && items[i].fin.order == o && items[i].status != Packed {
          items := items[i := items[i].(status := Cancelled)];
          touched := true;
        }
      }
    }

    /** The cancel view: cancel_order, then one restock transaction per line of the order it had read. */
    method Cancel(o: nat, restock: bool) returns (r: Result<()>)
      requires Valid()
      modifies this
      ensures Valid()
      ensures o >= |old(orders)| ==> r == Err(NotFound) && Snapshot() == old(Snapshot())
      ensures o < |old(orders)| ==>
        var d := StoreModel.CancelOrder(old(Snapshot()), o);
        if restock then (Snapshot(), r) == RestockAll(d, Lines(old(Snapshot()), o), CancelRestock)
        else Snapshot() == d && r == Ok(())
    {
      if o >= |orders| {
        return Err(NotFound);
      }
      var ids := Lines(Snapshot(), o);
      CancelOrder(o);
      r := Ok(());
      if restock {
        ghost var d := Snapshot();
        for k := 0 to |ids|
          invariant Valid() && r == Ok(())
          invariant RestockAll(d, ids, CancelRestock) == RestockAll(Snapshot(), ids[k..], CancelRestock)
        {
          r := RestockForItem(ids[k], CancelRestock);
          if r.Err? {
            return;
          }
          assert ids[k..][1..] == ids[k + 1..];
        }
      }
    }

    method Refund(o: nat, item: Option<nat>, amount: int, qty: Option<int>) returns (r: Result<()>)
      requires Valid()
      modifies this
      ensures Valid() && Outcome(RefundOrder(old(Snapshot()), o, item, amount, qty), old(Snapshot()), r, Snapshot())
      ensures RefundsAgree(old(Snapshot())) ==>
        (r == Ok(()) <==> Refundable(old(Snapshot()), o, item, amount, qty))
        && (r == Ok(()) ==> Refunded(old(Snapshot()), Snapshot(), o, item, amount, qty))
    {
      if RefundsAgree(Snapshot()) { RefundCommitsIffRefundable(Snapshot(), o, item, amount, qty); }
      if amount <= 0 {
        return Err(CheckViolation);
      }
      if o >= |orders| || (item.Some? && item.value !in items) {
        return Err(ForeignKey);
      }
      var saved := Snapshot();
      refunds := refunds + [StoreModel.Refund.Refund(o, item, amount, qty)];
      if item.Some? && qty.Some? && qty.value != 0 {
        var it := items[item.value];
        if !(0 <= it.refundedQty + qty.value <= it.fin.qty) {
          Rollback(saved);
          return Err(CheckViolation);
        }
        items := items[item.value := it.(refundedQty := it.refundedQty + qty.value)];
      }
      var sum := orders[o].refunded + amount;
      orders := orders[o := orders[o].(refunded := sum,
        payment := if sum >= orders[o].total then FullyRefunded else PartiallyRefunded)];
      outbox := outbox + [OrderRefunded(o, amount)];
      r := Ok(());
    }

    method AdjustStock(c: nat, delta: int, reason: Reason) returns (r: Result<()>)
      requires Valid()
      modifies this
      ensures Valid() && Outcome(StoreModel.AdjustStock(old(Snapshot()), c, delta, reason), old(Snapshot()), r, Snapshot())
    {
      var saved := Snapshot();
      r := InsertLedger([Row(c, delta, 0, reason, None)]);
      if r.Err? { Rollback(saved); }
    }

    /** ops.ledger_drift: the components whose cache disagrees with the ledger. */
    method LedgerDrift() returns (drifted: seq<nat>)
      ensures forall c: nat :: c in drifted <==> c < |components| && Drifted(components, ledger, c)
      ensures NoDrift(Snapshot()) ==> drifted == []
    {
      drifted := [];
      for c := 0 to |components|
        invariant forall k: nat :: k in drifted <==> k < c && Drifted(components, ledger, k)
      {
        if Drifted(components, ledger, c) {
          drifted := drifted + [c];
        }
      }
      if drifted != [] { assert drifted[0] in drifted; }
    }
  }
}
