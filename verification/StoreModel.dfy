/**
 The store's tables and its transactions as functions on a database snapshot
 (web/orders.py, db/repo/admin.py, db/migrations/20260805000005_store_orders_carts.sql).
 Every `with tx(...)` block is one function to Result<Db>: Err means rolled back.
 */
module StoreModel {
  import opened Common
  import opened Inventory
  import opened Pricing

  datatype Payment = Unpaid | Authorized | Paid | PartiallyRefunded | FullyRefunded | Failed

  /** prod_status; the rank is the enum's declaration order, which min() uses. */
  datatype Station = Queued | Blocked | Printing | Printed | Mounting | Framing | Qc | Reprint | Packed | Cancelled {
    function Rank(): nat {
      match this
      case Queued => 0 case Blocked => 1 case Printing => 2 case Printed => 3 case Mounting => 4
      case Framing => 5 case Qc => 6 case Reprint => 7 case Packed => 8 case Cancelled => 9
    }
  }

  /** The columns freeze_order_items compares. */
  datatype Financial = Financial(order: nat, qty: int, unitPrice: int, discount: int, cost: int,
                                 sku: string, name: string, attrs: string, theme: string)

  datatype Item = Item(fin: Financial, variant: nat, status: Station, refundedQty: int)

  datatype Order = Order(payment: Payment, paidAt: bool, cancelled: bool, rollup: Option<Station>,
                         subtotal: int, discount: int, total: int, refunded: int)

  datatype Refund = Refund(order: nat, item: Option<nat>, amount: int, qty: Option<int>)

  /** A raw.outbox row: topic and payload. */
  datatype Message =
    | OrderPlaced(order: nat, total: int, qty: int)
    | OrderPaid(order: nat, total: int)
    | OrderCancelled(order: nat)
    | OrderRefunded(order: nat, amount: int)
    | External(topic: string, payload: string)   // stripe.* rows, written by the webhook handler

  datatype Db = Db(
    bom: map<nat, seq<BomLine>>,
    components: seq<Balance>,
    ledger: seq<Row>,
    orders: seq<Order>,
    items: map<nat, Item>,
    nextItem: nat,
    refunds: seq<Refund>,
    outbox: seq<Message>)
  {
    function Bom(variant: nat): seq<BomLine> {
      if variant in bom then bom[variant] else []
    }
  }

  // ---------------------------------------------------------------- rows of an order

  /** select id from store.order_items where order_id = o order by id. */
  function LinesOf(items: map<nat, Item>, n: nat, o: nat): seq<nat> {
    if n == 0 then []
    else LinesOf(items, n - 1, o) + if n - 1 in items && items[n - 1].fin.order == o then [n - 1] else []
  }

  function Lines(db: Db, o: nat): seq<nat> {
    LinesOf(db.items, db.nextItem, o)
  }

  /** min(production_status) over the non-cancelled lines. */
  function LeastAdvanced(items: map<nat, Item>, ids: seq<nat>): Option<Station> {
    if ids == [] then None
    else
      var rest := LeastAdvanced(items, ids[..|ids| - 1]);
      var i := ids[|ids| - 1];
      if i !in items || items[i].status == Cancelled then rest
      else if rest.None? || items[i].status.Rank() < rest.value.Rank() then Some(items[i].status)
      else rest
  }

  function RollUp(db: Db, o: nat): Db {
    if o >= |db.orders| then db
    else db.(orders := db.orders[o := db.orders[o].(rollup := LeastAdvanced(db.items, Lines(db, o)))])
  }

  /** One line's ledger rows in direction (a, b). */
  function LineRows(db: Db, i: nat, a: int, b: int, reason: Reason): seq<Row>
    requires -1 <= a <= 1 && -1 <= b <= 1
  {
    if i in db.items then ItemRows(db.Bom(db.items[i].variant), db.items[i].fin.qty, i, a, b, reason) else []
  }

  function ReserveRows(db: Db, ids: seq<nat>): seq<Row> {
    if ids == [] then [] else LineRows(db, ids[0], 0, 1, Reserve) + ReserveRows(db, ids[1..])
  }

  predicate HasConsume(rows: seq<Row>) {
    exists k :: 0 <= k < |rows| && rows[k].reason == Consume
  }

  function Insert(db: Db, rows: seq<Row>): Result<Db> {
    match InsertRows(db.components, rows)
    case Err(e) => Err(e)
    case Ok(cs) => Ok(db.(components := cs, ledger := db.ledger + rows))
  }

  // ---------------------------------------------------------------- place_order

  function NewItem(o: nat, p: Priced): Item {
    Item(Financial(o, p.line.qty, p.unit, 0, p.v.cost, p.v.sku, p.v.name, p.v.attrs, p.line.theme),
         p.line.variant, Queued, 0)
  }

  /** The inserted lines take consecutive ids, in cart order. */
  function NewItems(o: nat, first: nat, ps: seq<Priced>): map<nat, Item> {
    if ps == [] then map[]
    else NewItems(o, first, ps[..|ps| - 1])[first + |ps| - 1 := NewItem(o, ps[|ps| - 1])]
  }

  lemma {:induction false} NewItemsAre(o: nat, first: nat, ps: seq<Priced>)
    ensures forall i: nat :: i in NewItems(o, first, ps) <==> first <= i < first + |ps|
    ensures forall i: nat :: i in NewItems(o, first, ps) ==> NewItems(o, first, ps)[i] == NewItem(o, ps[i - first])
  {
    if ps != [] {
      var front := ps[..|ps| - 1];
      NewItemsAre(o, first, front);
      assert NewItems(o, first, ps) == NewItems(o, first, front)[first + |front| := NewItem(o, ps[|front|])];
    }
  }

  /** The checks of store.orders and store.order_items on the inserted rows. */
  predicate PlaceChecks(t: Totals, ps: seq<Priced>) {
    && t.subtotal >= 0 && t.discount >= 0 && t.total >= 0
    && forall k :: 0 <= k < |ps| ==> ps[k].line.qty > 0 && ps[k].unit >= 0
  }

  /** The rows place_order inserts: the order, its lines, the order.placed message. */
  function Placed(db: Db, ps: seq<Priced>, t: Totals): Db {
    db.(orders := db.orders + [Order(Unpaid, false, false, if ps == [] then None else Some(Queued),
                                     t.subtotal, t.discount, t.total, 0)],
        items := db.items + NewItems(|db.orders|, db.nextItem, ps),
        nextItem := db.nextItem + |ps|,
        outbox := db.outbox + [OrderPlaced(|db.orders|, t.total, t.qty)])
  }

  function PlaceOrder(db: Db, cartFound: bool, cat: Catalog, cart: seq<CartLine>): Result<Db> {
    var ps := PricedLines(cat, cart);
    var t := TotalsFor(PricedSubtotal(ps), Quantity(cart));
    if !cartFound then Err(OutOfStock)
    else if !PlaceChecks(t, ps) then Err(CheckViolation)
    else Ok(Placed(db, ps, t))
  }

  // ---------------------------------------------------------------- mark_paid, consume, restock

  function MarkPaid(db: Db, o: nat): Result<Db> {
    if o >= |db.orders| || db.orders[o].payment == Paid then Ok(db)
    else
      var paid := db.(orders := db.orders[o := db.orders[o].(payment := Paid, paidAt := true)]);
      match Insert(paid, ReserveRows(db, Lines(db, o)))
      case Err(e) => Err(if e == CheckViolation then OutOfStock else e)
      case Ok(d) => Ok(d.(outbox := d.outbox + [OrderPaid(o, db.orders[o].total)]))
  }

  function ConsumeForItem(db: Db, i: nat): Result<Db> {
    Insert(db, if HasConsume(RowsOf(db.ledger, i)) then [] else LineRows(db, i, -1, -1, Consume))
  }

  function RestockForItem(db: Db, i: nat, reason: Reason): Result<Db> {
    var net := Net(RowsOf(db.ledger, i));
    Insert(db, LineRows(db, i, if net.onHand < 0 then 1 else 0, if net.reserved > 0 then -1 else 0, reason))
  }

  /** The restock loop of the cancel view: it stops at the first restock that raises. */
  function RestockAll(db: Db, ids: seq<nat>, reason: Reason): (Db, Result<()>)
    decreases |ids|
  {
    if ids == [] then (db, Ok(()))
    else match RestockForItem(db, ids[0], reason)
      case Err(e) => (db, Err(e))
      case Ok(d) => RestockAll(d, ids[1..], reason)
  }

  // ---------------------------------------------------------------- db/repo/admin.py

  /** NEXT_STATION: the zip of STATION_ORDER with its tail. */
  function NextStation(s: Station): Option<Station> {
    match s
    case Queued => Some(Printing) case Printing => Some(Printed) case Printed => Some(Mounting)
    case Mounting => Some(Framing) case Framing => Some(Qc) case Qc => Some(Packed)
    case _ => None
  }

  predicate InStationOrder(s: Station) {
    s in {Queued, Printing, Printed, Mounting, Framing, Qc, Packed}
  }

  predicate Legal(from: Station, to: Station) {
    || NextStation(from) == Some(to)
    || to in {Blocked, Cancelled, Reprint}
    || (from == Blocked && InStationOrder(to))
    || (from == Reprint && to == Printing)
  }

  /** The first transaction of advance_item: the status change and its rollup. */
  function SetStation(db: Db, i: nat, to: Station): Result<Db> {
    if i !in db.items then Err(NotFound)
    else if !Legal(db.items[i].status, to) then Err(IllegalTransition)
    else Ok(RollUp(db.(items := db.items[i := db.items[i].(status := to)]), db.items[i].fin.order))
  }

  function CancelLines(items: map<nat, Item>, o: nat): map<nat, Item> {
    map i | i in items ::
      if items[i].fin.order == o && items[i].status != Packed then items[i].(status := Cancelled) else items[i]
  }

  function CancelOrder(db: Db, o: nat): Db {
    var d := if o < |db.orders| then db.(orders := db.orders[o := db.orders[o].(cancelled := true)]) else db;
    var touched := exists i :: i in db.items && db.items[i].fin.order == o && db.items[i].status != Packed;
    var d' := if touched then RollUp(d.(items := CancelLines(db.items, o)), o) else d;
    d'.(outbox := db.outbox + [OrderCancelled(o)])
  }

  /** `if order_item_id and qty`, then the checks on refunded_qty. */
  function RefundLine(db: Db, item: Option<nat>, qty: Option<int>): Result<Db> {
    if item.None? || qty.None? || qty.value == 0 || item.value !in db.items then Ok(db)
    else
      var it := db.items[item.value];
      var q := it.refundedQty + qty.value;
      if !(0 <= q <= it.fin.qty) then Err(CheckViolation)
      else Ok(db.(items := db.items[item.value := it.(refundedQty := q)]))
  }

  function RefundOrder(db: Db, o: nat, item: Option<nat>, amount: int, qty: Option<int>): Result<Db> {
    if amount <= 0 then Err(CheckViolation)
    else if o >= |db.orders| || (item.Some? && item.value !in db.items) then Err(ForeignKey)
    else match RefundLine(db, item, qty)
      case Err(e) => Err(e)
      case Ok(d) =>
        var ord := d.orders[o];
        var sum := ord.refunded + amount;
        Ok(d.(refunds := d.refunds + [Refund(o, item, amount, qty)],
              orders := d.orders[o := ord.(refunded := sum,
                payment := if sum >= ord.total then FullyRefunded else PartiallyRefunded)],
              outbox := d.outbox + [OrderRefunded(o, amount)]))
  }

  function AdjustStock(db: Db, c: nat, delta: int, reason: Reason): Result<Db> {
    Insert(db, [Row(c, delta, 0, reason, None)])
  }

  // ---------------------------------------------------------------- raw SQL against the freeze trigger

  predicate Frozen(db: Db, i: nat)
    requires i in db.items
  {
    db.items[i].fin.order < |db.orders| && db.orders[db.items[i].fin.order].payment != Unpaid
  }

  predicate ItemChecks(it: Item) {
    it.fin.qty > 0 && it.fin.unitPrice >= 0 && it.fin.discount >= 0 && 0 <= it.refundedQty <= it.fin.qty
  }

  /** An UPDATE that sets the columns of one order line, production_status among them, by any client. */
  function EditItem(db: Db, i: nat, it: Item): Result<Db> {
    if i !in db.items then Ok(db)
    else if Frozen(db, i) && it.fin != db.items[i].fin then Err(RestrictViolation)
    else if !ItemChecks(it) then Err(CheckViolation)
    else if it.fin.order >= |db.orders| then Err(ForeignKey)
    else Ok(RollUp(db.(items := db.items[i := it]), it.fin.order))
  }

  /** Any DELETE of one order line. */
  function DeleteItem(db: Db, i: nat): Result<Db> {
    if i !in db.items then Ok(db)
    else if Frozen(db, i) then Err(RestrictViolation)
    else if RowsOf(db.ledger, i) != [] || exists k :: 0 <= k < |db.refunds| && db.refunds[k].item == Some(i)
      then Err(ForeignKey)
    else RollUpAfterDelete(db, i)
  }

  function RollUpAfterDelete(db: Db, i: nat): Result<Db>
    requires i in db.items
  {
    Ok(RollUp(db.(items := db.items - {i}), db.items[i].fin.order))
  }
}
