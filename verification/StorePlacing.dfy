/**
 From the cart to the ledger (web/orders.py): what a placed order holds in terms of the cart and the
 catalogue, and what paying it, however much later, reserves.
 */
module StorePlacing {
  import opened Common
  import opened Inventory
  import opened Pricing
  import opened StoreModel
  import opened StoreRuns
  import opened StoreBooks
  import opened StorePhases
  import opened StoreSteps
  import opened StoreAdmissible
  import opened StoreOnce
  import opened StoreReachable

  // ---------------------------------------------------------------- what place_order writes

  /** An order line with this cart line's variant, quantity and theme, and this catalogue row's sku, name, attributes and cost. */
  predicate Copies(v: Variant, l: CartLine, o: nat, it: Item) {
    && it.variant == l.variant && it.fin.qty == l.qty && it.fin.theme == l.theme
    && it.fin.sku == v.sku && it.fin.name == v.name && it.fin.attrs == v.attrs && it.fin.cost == v.cost
    && it.fin.order == o && it.fin.discount == 0 && it.status == Queued && it.refundedQty == 0
  }

  /** The order line of a cart line, at the charged price. */
  predicate StandsFor(cat: Catalog, l: CartLine, o: nat, it: Item)
    requires Resolves(cat, l)
  {
    Copies(cat.variants[l.variant], l, o, it) && Charged(cat, l, it.fin.unitPrice)
  }

  /** The new ids carry the kept cart lines, in cart order; every other line is as it was. */
  predicate LinesPlaced(db: Db, d: Db, cat: Catalog, cart: seq<CartLine>) {
    var kept := Kept(cat, cart);
    && d.nextItem == db.nextItem + |kept|
    && (forall i :: i in d.items ==> i in db.items || db.nextItem <= i < d.nextItem)
    && (forall i :: i in db.items ==> i in d.items && d.items[i] == db.items[i])
    && (forall i :: db.nextItem <= i < d.nextItem ==>
          && i in d.items && Resolves(cat, kept[i - db.nextItem])
          && StandsFor(cat, kept[i - db.nextItem], |db.orders|, d.items[i]))
  }

  /** The new order: unpaid, its amounts those of its lines and the bundle rule, and one message about it. */
  predicate OrderPlacedFrom(db: Db, d: Db, cart: seq<CartLine>) {
    var o := |db.orders|;
    && |d.orders| == o + 1 && d.orders[..o] == db.orders
    && var r := d.orders[o];
       && r.payment == Unpaid && !r.paidAt && !r.cancelled && r.refunded == 0
       && r.subtotal == LineValue(d.items, Lines(d, o)) && Discounted(r.subtotal, Quantity(cart), r.discount)
       && r.total == r.subtotal - r.discount
       && r.rollup == (if d.nextItem == db.nextItem then None else Some(Queued))
       && d.outbox == db.outbox + [OrderPlaced(o, r.total, Quantity(cart))]
  }

  predicate PlacedFrom(db: Db, d: Db, cat: Catalog, cart: seq<CartLine>) {
    && LinesPlaced(db, d, cat, cart) && OrderPlacedFrom(db, d, cart)
    && d == db.(items := d.items, nextItem := d.nextItem, orders := d.orders, outbox := d.outbox)
  }

  lemma {:induction false} LinesArePlaced(db: Db, cat: Catalog, cart: seq<CartLine>, t: Totals)
    requires WellKeyed(db)
    ensures LinesPlaced(db, Placed(db, PricedLines(cat, cart), t), cat, cart)
  {
    var ps, kept := PricedLines(cat, cart), Kept(cat, cart);
    LinesArePricedFromTheCatalogue(cat, cart);
    PlacedAddsLines(db, ps, t);
    forall k | 0 <= k < |kept|
      ensures Resolves(cat, kept[k]) && StandsFor(cat, kept[k], |db.orders|, NewItem(|db.orders|, ps[k]))
    {
      assert ps[k].line == kept[k];
    }
    NewIds(db, ps, t);
  }

  /** The new ids carry the priced lines, in their order. */
  predicate Inserted(db: Db, d: Db, ps: seq<Priced>) {
    && d.nextItem == db.nextItem + |ps|
    && forall i :: db.nextItem <= i < d.nextItem ==>
         && i in d.items && Copies(ps[i - db.nextItem].v, ps[i - db.nextItem].line, |db.orders|, d.items[i])
         && d.items[i].fin.unitPrice == ps[i - db.nextItem].unit
  }

  lemma {:induction false} PlacedIsInserted(db: Db, ps: seq<Priced>, t: Totals)
    requires WellKeyed(db)
    ensures Inserted(db, Placed(db, ps, t), ps)
  {
    PlacedAddsLines(db, ps, t);
  }

  lemma {:induction false} NewIds(db: Db, ps: seq<Priced>, t: Totals)
    requires WellKeyed(db)
    ensures var d := Placed(db, ps, t);
      && (forall i :: i in d.items ==> i in db.items || db.nextItem <= i < d.nextItem)
  {
    NewItemsAre(|db.orders|, db.nextItem, ps);
  }

  lemma {:induction false} OrderIsPlaced(db: Db, cat: Catalog, cart: seq<CartLine>)
    requires WellKeyed(db)
    ensures var ps := PricedLines(cat, cart);
      OrderPlacedFrom(db, Placed(db, ps, TotalsFor(PricedSubtotal(ps), Quantity(cart))), cart)
  {
    var ps := PricedLines(cat, cart);
    var t := TotalsFor(PricedSubtotal(ps), Quantity(cart));
    NewOrderView(db, ps, t);
    DiscountIsATenth(t.subtotal, Quantity(cart));
  }

  /** No charge for a kept line is negative, and every kept quantity is positive. */
  ghost predicate Chargeable(cat: Catalog, cart: seq<CartLine>) {
    var kept := Kept(cat, cart);
    forall k :: 0 <= k < |kept| ==> kept[k].qty > 0 && Resolves(cat, kept[k]) && NeverNegative(cat, kept[k])
  }

  ghost predicate NeverNegative(cat: Catalog, l: CartLine)
    requires Resolves(cat, l)
  {
    forall unit :: Charged(cat, l, unit) ==> unit >= 0
  }

  predicate AllPositive(ps: seq<Priced>) {
    forall k :: 0 <= k < |ps| ==> ps[k].line.qty > 0 && ps[k].unit >= 0
  }

  lemma {:induction false} ChargeableIff(cat: Catalog, cart: seq<CartLine>)
    ensures Chargeable(cat, cart) <==> AllPositive(PricedLines(cat, cart))
  {
    var ps, kept := PricedLines(cat, cart), Kept(cat, cart);
    LinesArePricedFromTheCatalogue(cat, cart);
    forall k | 0 <= k < |ps|
      ensures ps[k].unit >= 0 <==> NeverNegative(cat, kept[k])
    {
      assert Charged(cat, kept[k], ps[k].unit);
      assert forall unit :: Charged(cat, kept[k], unit) ==> unit == ps[k].unit;
    }
  }

  lemma {:induction false} SubtotalNonNegative(ps: seq<Priced>)
    requires AllPositive(ps)
    ensures PricedSubtotal(ps) >= 0
  {
    if ps != [] {
      SubtotalNonNegative(ps[..|ps| - 1]);
      assert ps[|ps| - 1].unit * ps[|ps| - 1].line.qty >= 0;
    }
  }

  lemma {:induction false} PositiveLinesPass(ps: seq<Priced>, qty: int)
    ensures PlaceChecks(TotalsFor(PricedSubtotal(ps), qty), ps) <==> AllPositive(ps)
  {
    if AllPositive(ps) {
      SubtotalNonNegative(ps);
      DiscountBounds(PricedSubtotal(ps), qty);
    }
  }

  lemma {:induction false} ChecksPassIff(cat: Catalog, cart: seq<CartLine>)
    ensures var ps := PricedLines(cat, cart);
      PlaceChecks(TotalsFor(PricedSubtotal(ps), Quantity(cart)), ps) <==> Chargeable(cat, cart)
  {
    ChargeableIff(cat, cart);
    PositiveLinesPass(PricedLines(cat, cart), Quantity(cart));
  }

  /** place_order commits exactly when the cart exists and its kept lines can be charged; then it writes exactly this. */
  lemma {:induction false} PlaceOrderCommitsIff(db: Db, found: bool, cat: Catalog, cart: seq<CartLine>)
    requires WellKeyed(db)
    ensures !found ==> PlaceOrder(db, found, cat, cart) == Err(OutOfStock)
    ensures found && !Chargeable(cat, cart) ==> PlaceOrder(db, found, cat, cart) == Err(CheckViolation)
    ensures found && Chargeable(cat, cart) ==>
      PlaceOrder(db, found, cat, cart).Ok? && PlacedFrom(db, PlaceOrder(db, found, cat, cart).value, cat, cart)
  {
    ChecksPassIff(cat, cart);
    if found && Chargeable(cat, cart) {
      LinesArePlaced(db, cat, cart, TotalsFor(PricedSubtotal(PricedLines(cat, cart)), Quantity(cart)));
      OrderIsPlaced(db, cat, cart);
    }
  }

  // ---------------------------------------------------------------- from the cart to the reservation

  /** Units of `c` that these cart lines need, each by the bill of materials of its own variant. */
  function CartNeed(db: Db, kept: seq<CartLine>, c: nat): int {
    if kept == [] then 0
    else
      var l := kept[|kept| - 1];
      CartNeed(db, kept[..|kept| - 1], c) + Need(db.Bom(l.variant), l.qty, c)
  }

  /** The lines of order `o` are the ids from `first` on, one per cart line, with its variant and quantity. */
  predicate Carries(db: Db, o: nat, first: nat, kept: seq<CartLine>) {
    && first + |kept| <= db.nextItem && o < |db.orders|
    && (forall i :: first <= i < first + |kept| ==>
          && i in db.items && db.items[i].fin.order == o
          && db.items[i].variant == kept[i - first].variant && db.items[i].fin.qty == kept[i - first].qty)
    && (forall i :: i in db.items && db.items[i].fin.order == o ==> first <= i < first + |kept|)
  }

  lemma {:induction false} PlacedCarries(db: Db, d: Db, cat: Catalog, cart: seq<CartLine>)
    requires WellKeyed(db) && PlacedFrom(db, d, cat, cart)
    ensures Carries(d, |db.orders|, db.nextItem, Kept(cat, cart))
  {
    assert forall i :: i in db.items ==> d.items[i].fin.order < |db.orders|;
  }

  lemma {:induction false} DemandSnoc(db: Db, ids: seq<nat>, i: nat, c: nat)
    ensures Demand(db, ids + [i], c) == Demand(db, ids, c) + LineNeed(db, i, c)
  {
    if ids == [] {
      assert [] + [i] == [i] && Demand(db, [i], c) == LineNeed(db, i, c) + Demand(db, [], c);
    } else {
      assert (ids + [i])[1..] == ids[1..] + [i];
      DemandSnoc(db, ids[1..], i, c);
    }
  }

  lemma {:induction false} CarriedLine(db: Db, o: nat, first: nat, kept: seq<CartLine>, n: nat, c: nat)
    requires Carries(db, o, first, kept) && 0 < n <= |kept|
    ensures LinesOf(db.items, first + n, o) == LinesOf(db.items, first + n - 1, o) + [first + n - 1]
    ensures LineNeed(db, first + n - 1, c) == Need(db.Bom(kept[n - 1].variant), kept[n - 1].qty, c)
  {}

  lemma {:induction false} CartNeedStep(db: Db, kept: seq<CartLine>, n: nat, c: nat)
    requires 0 < n <= |kept|
    ensures CartNeed(db, kept[..n], c) == CartNeed(db, kept[..n - 1], c) + Need(db.Bom(kept[n - 1].variant), kept[n - 1].qty, c)
  {
    assert kept[..n][..n - 1] == kept[..n - 1];
  }

  lemma {:induction false} DemandUpTo(db: Db, o: nat, first: nat, kept: seq<CartLine>, n: nat, c: nat)
    requires Carries(db, o, first, kept) && n <= |kept|
    ensures Demand(db, LinesOf(db.items, first + n, o), c) == CartNeed(db, kept[..n], c)
  {
    if n == 0 {
      LinesPad(db.items, 0, first, o);
    } else {
      DemandUpTo(db, o, first, kept, n - 1, c);
      CarriedLine(db, o, first, kept, n, c);
      CartNeedStep(db, kept, n, c);
      DemandSnoc(db, LinesOf(db.items, first + n - 1, o), first + n - 1, c);
    }
  }

  lemma {:induction false} CarriedLines(db: Db, o: nat, first: nat, kept: seq<CartLine>)
    requires Carries(db, o, first, kept)
    ensures Lines(db, o) == LinesOf(db.items, first + |kept|, o)
  {
    LinesPad(db.items, first + |kept|, db.nextItem - first - |kept|, o);
  }

  /** What the order needs is what its cart lines need. */
  lemma {:induction false} DemandIsCartNeed(db: Db, o: nat, first: nat, kept: seq<CartLine>, c: nat)
    requires Carries(db, o, first, kept)
    ensures Demand(db, Lines(db, o), c) == CartNeed(db, kept, c)
  {
    assert kept[..|kept|] == kept;
    CarriedLines(db, o, first, kept);
    DemandUpTo(db, o, first, kept, |kept|, c);
  }

  // ---------------------------------------------------------------- until it is paid

  lemma {:induction false} QuietKeepsCarries(db: Db, d: Db, o: nat, first: nat, kept: seq<CartLine>)
    requires Carries(db, o, first, kept) && Quiet(db, d) && d.nextItem >= db.nextItem
    ensures Carries(d, o, first, kept)
  {}

  lemma {:induction false} IdsNeverShrink(db: Db, step: Step)
    ensures Commit(db, Attempt(db, step)).nextItem >= db.nextItem
  {
    if step.DoPlaceOrder? {
      if Attempt(db, step).Ok? { var ps, t := PlaceOrderCommits(db, step); }
    }
  }

  lemma {:induction false} StepKeepsCarries(s: Sys, step: Step, o: nat, first: nat, kept: seq<CartLine>)
    requires WellKeyed(s.db) && AppStep(step) && Carries(s.db, o, first, kept)
    ensures Carries(Exec(s, step).db, o, first, kept)
  {
    ExecCommitsOrNot(s, step);
    IdsNeverShrink(s.db, step);
    if !WritesLedger(step) {
      QuietStep(s.db, step);
      QuietKeepsCarries(s.db, Commit(s.db, Attempt(s.db, step)), o, first, kept);
    } else if Attempt(s.db, step).Ok? {
      CommitAppends(s.db, step);
    }
  }

  lemma {:induction false} RunKeepsCarries(s: Sys, steps: seq<Step>, o: nat, first: nat, kept: seq<CartLine>)
    requires WellKeyed(s.db) && AppRun(steps) && Carries(s.db, o, first, kept)
    ensures Carries(Run(s, steps).db, o, first, kept)
    decreases |steps|
  {
    if steps != [] {
      StepKeepsHistory(s, steps[0]);
      StepKeepsCarries(s, steps[0], o, first, kept);
      assert forall k :: 0 <= k < |steps[1..]| ==> steps[1..][k] == steps[k + 1];
      RunKeepsCarries(Exec(s, steps[0]), steps[1..], o, first, kept);
    }
  }

  /** Every component's `reserved` rose by what the cart lines need of it, and no stock moved. */
  predicate Reserves(db: Db, d: Db, kept: seq<CartLine>) {
    && |d.components| == |db.components|
    && forall c :: 0 <= c < |db.components| ==>
         d.components[c] == Balance(db.components[c].onHand, db.components[c].reserved + CartNeed(db, kept, c))
  }

  lemma {:induction false} PaymentReserves(db: Db, o: nat, first: nat, kept: seq<CartLine>)
    requires Sound(db) && Carries(db, o, first, kept) && db.orders[o].payment != Paid && MarkPaid(db, o).Ok?
    ensures Reserves(db, MarkPaid(db, o).value, kept)
  {
    var rows := ReserveRows(db, Lines(db, o));
    ApplyMovesByTotals(db.components, rows);
    LinesExist(db, o);
    forall c | 0 <= c < |db.components|
      ensures Total(rows, c) == Balance(0, CartNeed(db, kept, c))
    {
      ReserveRowsTotal(db, Lines(db, o), c);
      DemandIsCartNeed(db, o, first, kept, c);
    }
  }

  /** What the kept cart lines need of every component is available. */
  predicate InStock(db: Db, kept: seq<CartLine>) {
    forall c :: 0 <= c < |db.components| ==> CartNeed(db, kept, c) <= db.components[c].onHand - db.components[c].reserved
  }

  lemma {:induction false} PaymentNeedsStock(db: Db, o: nat, first: nat, kept: seq<CartLine>)
    requires Sound(db) && Carries(db, o, first, kept) && db.orders[o].payment != Paid
    ensures MarkPaid(db, o).Ok? <==> InStock(db, kept)
  {
    PaymentSucceedsIff(db, o);
    forall c: nat
      ensures Demand(db, Lines(db, o), c) == CartNeed(db, kept, c)
    {
      DemandIsCartNeed(db, o, first, kept, c);
    }
  }

  /** As long as the order is not `paid`: its payment commits iff the needs are in stock, and then reserves exactly them. */
  predicate ReservesWhenPaid(db: Db, o: nat, kept: seq<CartLine>) {
    && o < |db.orders|
    && (db.orders[o].payment != Paid ==>
          && (MarkPaid(db, o).Ok? <==> InStock(db, kept))
          && (MarkPaid(db, o).Ok? ==> Reserves(db, MarkPaid(db, o).value, kept)))
  }

  lemma {:induction false} PaidLater(s: Sys, after: seq<Step>, o: nat, first: nat, kept: seq<CartLine>)
    requires Sound(s.db) && AppRun(after) && Carries(s.db, o, first, kept)
    ensures ReservesWhenPaid(Run(s, after).db, o, kept)
  {
    SoundAlways(s, after);
    RunKeepsCarries(s, after, o, first, kept);
    var db := Run(s, after).db;
    if db.orders[o].payment != Paid {
      PaymentNeedsStock(db, o, first, kept);
      if MarkPaid(db, o).Ok? { PaymentReserves(db, o, first, kept); }
    }
  }

  lemma {:induction false} JustPlaced(s: Sys, cat: Catalog, cart: seq<CartLine>)
    requires Sound(s.db) && Chargeable(cat, cart)
    ensures var placed := Exec(s, DoPlaceOrder(true, cat, cart)).db;
      Sound(placed) && Carries(placed, |s.db.orders|, s.db.nextItem, Kept(cat, cart))
  {
    var step := DoPlaceOrder(true, cat, cart);
    PlaceOrderCommitsIff(s.db, true, cat, cart);
    PlacedCarries(s.db, Exec(s, step).db, cat, cart);
    StepKeepsNoDrift(s, step);
    StepKeepsHistory(s, step);
    StepKeepsQuantities(s, step);
  }

  /** A cart placed in any reachable state, and any application run after it: paying the order reserves the cart. */
  lemma {:induction false} PayingReservesTheCart(s: Sys, before: seq<Step>, cat: Catalog, cart: seq<CartLine>, after: seq<Step>)
    requires Initial(s) && AppRun(after) && Chargeable(cat, cart)
    ensures var placed := Exec(Run(s, before), DoPlaceOrder(true, cat, cart));
      ReservesWhenPaid(Run(placed, after).db, |Run(s, before).db.orders|, Kept(cat, cart))
  {
    SoundAlways(s, before);
    JustPlaced(Run(s, before), cat, cart);
    var start := Run(s, before);
    PaidLater(Exec(start, DoPlaceOrder(true, cat, cart)), after, |start.db.orders|, start.db.nextItem, Kept(cat, cart));
  }
}
