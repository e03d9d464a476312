/**
 The cancel view as one call (admin/views.py): cancel_order commits, then each line is restocked
 in a transaction of its own. Exactly when the loop finishes, and what it leaves behind if not.
 */
module StoreCancelView {
  import opened Common
  import opened Inventory
  import opened StoreModel
  import opened StoreRuns
  import opened StorePhases
  import opened StoreSteps
  import opened StoreDiscipline
  import opened StoreAdmissible
  import opened StoreTheorems
  import opened StoreCancel

  /** Units of `c` that the consumed lines among `ids` would put back on the shelf. */
  function Returned(db: Db, ids: seq<nat>, c: nat): int {
    if ids == [] then 0
    else (if PhaseIn(db, ids[0]) == Used then LineNeed(db, ids[0], c) else 0) + Returned(db, ids[1..], c)
  }

  /** Everything that would come back fits its 32-bit column. */
  predicate RoomForAll(db: Db, ids: seq<nat>) {
    forall c :: 0 <= c < |db.components| ==> db.components[c].onHand + Returned(db, ids, c) <= INT4_MAX
  }

  predicate AllRestockable(db: Db, ids: seq<nat>) {
    forall k :: 0 <= k < |ids| ==> Restockable(db, ids[k])
  }

  predicate Existing(db: Db, ids: seq<nat>) {
    Distinct(ids) && forall k :: 0 <= k < |ids| ==> ids[k] in db.items
  }

  lemma {:induction false} ReturnedNonNegative(db: Db, ids: seq<nat>, c: nat)
    requires Sound(db)
    ensures Returned(db, ids, c) >= 0
  {
    if ids != [] {
      if ids[0] in db.items { LineRowsTotal(db, ids[0], c); }
      ReturnedNonNegative(db, ids[1..], c);
    }
  }

  /** Only what a consumed line gives back changes the shelves. */
  lemma {:induction false} RestockBalances(db: Db, i: nat, c: nat)
    requires Phased(db) && i in db.items && RestockForItem(db, i, CancelRestock).Ok? && c < |db.components|
    ensures var d := RestockForItem(db, i, CancelRestock).value;
      && d.items == db.items && d.bom == db.bom && |d.components| == |db.components|
      && d.components[c].onHand == db.components[c].onHand + if PhaseIn(db, i) == Used then LineNeed(db, i, c) else 0
  {
    var lines, qty, p := LineBom(db, i), db.items[i].fin.qty, PhaseIn(db, i);
    var a, b := if lines != [] && p.Used? then 1 else 0, if lines != [] && p.Held? then -1 else 0;
    RestockRows(db, i, CancelRestock);
    LineBomValid(db, i);
    ApplyMovesByTotals(db.components, LineRows(db, i, a, b, CancelRestock));
    ItemRowsTotal(lines, |db.components|, qty, i, a, b, CancelRestock, c);
    if lines == [] { BomQtyAbsent(lines, c); }
  }

  /** The other lines still stand where they stood. */
  predicate SameStanding(db: Db, d: Db, ids: seq<nat>) {
    && d.items == db.items && d.bom == db.bom
    && forall k :: 0 <= k < |ids| ==> PhaseIn(d, ids[k]) == PhaseIn(db, ids[k])
  }

  lemma {:induction false} SameReturned(db: Db, d: Db, ids: seq<nat>, c: nat)
    requires SameStanding(db, d, ids)
    ensures Returned(d, ids, c) == Returned(db, ids, c)
  {
    if ids != [] {
      assert forall k :: 0 <= k < |ids[1..]| ==> ids[1..][k] == ids[k + 1];
      SameReturned(db, d, ids[1..], c);
    }
  }

  /** One committed restock of the loop. */
  lemma {:induction false} OneRestock(db: Db, ids: seq<nat>)
    requires Phased(db) && ids != [] && Existing(db, ids) && RestockForItem(db, ids[0], CancelRestock).Ok?
    ensures var d := RestockForItem(db, ids[0], CancelRestock).value;
      && Phased(d) && Settled(d, ids[0]) && SameStanding(db, d, ids[1..]) && Existing(d, ids[1..])
      && |d.components| == |db.components|
      && forall c :: 0 <= c < |db.components| ==>
           d.components[c].onHand + Returned(d, ids[1..], c) == db.components[c].onHand + Returned(db, ids, c)
  {
    var d, rest := RestockForItem(db, ids[0], CancelRestock).value, ids[1..];
    RestockMovesBack(db, ids[0], CancelRestock);
    RestockCommitsIff(db, ids[0], CancelRestock);
    assert d.items == db.items && d.bom == db.bom;
    assert forall k :: 0 <= k < |rest| ==> rest[k] == ids[k + 1] && rest[k] != ids[0];
    RestockKeepsSize(db, ids[0]);
    forall c | 0 <= c < |db.components|
      ensures d.components[c].onHand + Returned(d, rest, c) == db.components[c].onHand + Returned(db, ids, c)
    {
      RestockBalances(db, ids[0], c);
      SameReturned(db, d, rest, c);
    }
  }

  lemma {:induction false} RestockKeepsSize(db: Db, i: nat)
    requires RestockForItem(db, i, CancelRestock).Ok?
    ensures |RestockForItem(db, i, CancelRestock).value.components| == |db.components|
  {
    var net := Net(RowsOf(db.ledger, i));
    ApplyMovesByTotals(db.components,
      LineRows(db, i, if net.onHand < 0 then 1 else 0, if net.reserved > 0 then -1 else 0, CancelRestock));
  }

  /** Whether the first restock commits, read off the whole list's condition. */
  lemma {:induction false} FirstCommits(db: Db, ids: seq<nat>)
    requires Phased(db) && ids != [] && Existing(db, ids)
    ensures AllRestockable(db, ids) && RoomForAll(db, ids) ==> RestockForItem(db, ids[0], CancelRestock).Ok?
    ensures RestockForItem(db, ids[0], CancelRestock).Ok? ==> Restockable(db, ids[0])
  {
    RestockCommitsIff(db, ids[0], CancelRestock);
    if PhaseIn(db, ids[0]) == Used && RoomForAll(db, ids) {
      forall c | 0 <= c < |db.components|
        ensures db.components[c].onHand + LineNeed(db, ids[0], c) <= INT4_MAX
      {
        ReturnedNonNegative(db, ids[1..], c);
      }
    }
  }

  /** The loop finishes exactly when every line holds something, or is made of nothing, and all that comes back fits. */
  lemma {:induction false} RestockAllSucceedsIff(db: Db, ids: seq<nat>)
    requires Phased(db) && Existing(db, ids)
    ensures RestockAll(db, ids, CancelRestock).1 == Ok(()) <==> AllRestockable(db, ids) && RoomForAll(db, ids)
    decreases |ids|
  {
    if ids == [] {
      assert forall c :: 0 <= c < |db.components| ==> Sane(db.components[c]);
    } else {
      FirstCommits(db, ids);
      if RestockForItem(db, ids[0], CancelRestock).Ok? {
        var d := RestockForItem(db, ids[0], CancelRestock).value;
        OneRestock(db, ids);
        RestockAllSucceedsIff(d, ids[1..]);
        RestConditions(db, d, ids);
      }
    }
  }

  lemma {:induction false} RestConditions(db: Db, d: Db, ids: seq<nat>)
    requires ids != [] && SameStanding(db, d, ids[1..]) && |d.components| == |db.components| && Restockable(db, ids[0])
    requires forall c :: 0 <= c < |db.components| ==>
      d.components[c].onHand + Returned(d, ids[1..], c) == db.components[c].onHand + Returned(db, ids, c)
    ensures AllRestockable(db, ids) && RoomForAll(db, ids) <==> AllRestockable(d, ids[1..]) && RoomForAll(d, ids[1..])
  {
    assert forall k :: 0 <= k < |ids[1..]| ==> ids[1..][k] == ids[k + 1];
    if AllRestockable(d, ids[1..]) {
      forall k | 0 <= k < |ids|
        ensures Restockable(db, ids[k])
      {
        if k > 0 { assert Restockable(d, ids[1..][k - 1]); }
      }
    }
  }

  /** The loop's end: the lines before `n` are put back, the others stand where they stood. */
  predicate StoppedAt(db: Db, ids: seq<nat>, end: Db, n: nat) {
    && n <= |ids| && end.items == db.items && end.bom == db.bom
    && (forall k :: 0 <= k < n ==> Settled(end, ids[k]))
    && (forall k :: n <= k < |ids| ==> PhaseIn(end, ids[k]) == PhaseIn(db, ids[k]))
  }

  /** The outcome names why: all lines done, or the error of line `n`'s restock. */
  predicate Because(ids: seq<nat>, end: Db, r: Result<()>, n: nat)
    requires n <= |ids|
  {
    if n == |ids| then r == Ok(())
    else match RestockForItem(end, ids[n], CancelRestock)
      case Ok(_) => false
      case Err(e) => r == Err(e)
  }

  /** A line outside the list is not moved by the loop. */
  lemma {:induction false} RestNeverTouches(db: Db, ids: seq<nat>, i: nat)
    requires Phased(db) && Existing(db, ids) && i in db.items && i !in ids
    ensures var end := RestockAll(db, ids, CancelRestock).0;
      end.items == db.items && end.bom == db.bom && PhaseIn(end, i) == PhaseIn(db, i)
    decreases |ids|
  {
    if ids != [] && RestockForItem(db, ids[0], CancelRestock).Ok? {
      OneRestock(db, ids);
      RestockMovesBack(db, ids[0], CancelRestock);
      assert i != ids[0];
      RestNeverTouches(RestockForItem(db, ids[0], CancelRestock).value, ids[1..], i);
    }
  }

  lemma {:induction false} StopsLater(db: Db, d: Db, ids: seq<nat>, end: Db, m: nat)
    requires ids != [] && SameStanding(db, d, ids[1..]) && StoppedAt(d, ids[1..], end, m) && Settled(end, ids[0])
    ensures StoppedAt(db, ids, end, m + 1)
  {
    forall k | 0 <= k < |ids|
      ensures if k < m + 1 then Settled(end, ids[k]) else PhaseIn(end, ids[k]) == PhaseIn(db, ids[k])
    {
      if k > 0 { assert ids[k] == ids[1..][k - 1]; }
    }
  }

  /** Wherever the loop stops, it stopped at the first line whose restock raises, and undid exactly those before it. */
  lemma {:induction false} RestockAllStops(db: Db, ids: seq<nat>) returns (n: nat)
    requires Phased(db) && Existing(db, ids)
    ensures StoppedAt(db, ids, RestockAll(db, ids, CancelRestock).0, n) && Phased(RestockAll(db, ids, CancelRestock).0)
    ensures Because(ids, RestockAll(db, ids, CancelRestock).0, RestockAll(db, ids, CancelRestock).1, n)
    decreases |ids|
  {
    if ids == [] || RestockForItem(db, ids[0], CancelRestock).Err? {
      n := 0;
    } else {
      var d := RestockForItem(db, ids[0], CancelRestock).value;
      OneRestock(db, ids);
      FirstStaysSettled(d, ids);
      var m := RestockAllStops(d, ids[1..]);
      n := m + 1;
      StopsLater(db, d, ids, RestockAll(d, ids[1..], CancelRestock).0, m);
    }
  }

  lemma {:induction false} FirstStaysSettled(d: Db, ids: seq<nat>)
    requires ids != [] && Distinct(ids) && Phased(d) && Existing(d, ids[1..]) && Settled(d, ids[0])
    ensures Settled(RestockAll(d, ids[1..], CancelRestock).0, ids[0])
  {
    RestNeverTouches(d, ids[1..], ids[0]);
  }

  // ---------------------------------------------------------------- the view

  /** cancel_order moves stations only. */
  lemma {:induction false} CancelKeepsTheLedger(db: Db, o: nat)
    ensures var d := CancelOrder(db, o);
      && d.ledger == db.ledger && d.components == db.components && d.bom == db.bom && Lines(d, o) == Lines(db, o)
      && d.items.Keys == db.items.Keys
      && (forall i :: i in db.items ==> d.items[i].fin == db.items[i].fin && d.items[i].variant == db.items[i].variant)
      && forall i: nat :: PhaseIn(d, i) == PhaseIn(db, i)
  {
    SameLinesByOrder(db.items, CancelOrder(db, o).items, db.nextItem, o);
  }

  lemma {:induction false} SameLinesByOrder(a: map<nat, Item>, b: map<nat, Item>, n: nat, o: nat)
    requires a.Keys == b.Keys && forall i :: i in a ==> b[i].fin == a[i].fin
    ensures LinesOf(a, n, o) == LinesOf(b, n, o)
  {
    if n > 0 { SameLinesByOrder(a, b, n - 1, o); }
  }

  lemma {:induction false} CancelKeepsReturned(db: Db, o: nat, ids: seq<nat>, c: nat)
    ensures Returned(CancelOrder(db, o), ids, c) == Returned(db, ids, c)
  {
    if ids != [] {
      CancelKeepsTheLedger(db, o);
      CancelKeepsReturned(db, o, ids[1..], c);
    }
  }

  lemma {:induction false} CancelledIsReady(db: Db, o: nat)
    requires Phased(db)
    ensures Phased(CancelOrder(db, o)) && Existing(CancelOrder(db, o), Lines(db, o))
    ensures AllRestockable(CancelOrder(db, o), Lines(db, o)) <==> AllRestockable(db, Lines(db, o))
  {
    CancelOrderIsQuiet(db, o);
    QuietKeepsPhased(db, CancelOrder(db, o));
    CancelKeepsTheLedger(db, o);
    LinesExist(db, o);
  }

  /**
   For every order of every reachable state: the view's loop finishes exactly when each line is
   reserved, consumed or made of nothing, and what the consumed ones give back fits; an order never
   paid, or restocked before, makes it raise after the cancellation has committed.
   */
  lemma {:induction false} CancelViewFinishesIff(s: Sys, before: seq<Step>, o: nat)
    requires Initial(s) && AdmissibleRun(s, before)
    ensures var db := Run(s, before).db;
      RestockAll(CancelOrder(db, o), Lines(db, o), CancelRestock).1 == Ok(()) <==>
        AllRestockable(db, Lines(db, o)) && RoomForAll(db, Lines(db, o))
  {
    InitialInv(s);
    RunKeepsInv(s, before);
    var db := Run(s, before).db;
    CancelledIsReady(db, o);
    RestockAllSucceedsIff(CancelOrder(db, o), Lines(db, o));
    CancelKeepsTheLedger(db, o);
    forall c: nat
      ensures Returned(CancelOrder(db, o), Lines(db, o), c) == Returned(db, Lines(db, o), c)
    {
      CancelKeepsReturned(db, o, Lines(db, o), c);
    }
  }

  /**
   Cancelling a paid order none of whose lines was put back before: given room for what returns,
   the view's loop finishes, and every line's net effect on every component is zero.
   */
  lemma {:induction false} CancelViewUndoesTheOrder(s: Sys, before: seq<Step>, o: nat)
    requires Initial(s) && AdmissibleRun(s, before)
    ensures var db, ids := Run(s, before).db, Lines(Run(s, before).db, o);
      var (end, r) := RestockAll(CancelOrder(db, o), ids, CancelRestock);
      o < |db.orders| && db.orders[o].paidAt && NeverRestocked(db, ids) && RoomForAll(db, ids) ==>
        r == Ok(()) && forall k :: 0 <= k < |ids| ==> NetZero(end, ids[k])
  {
    InitialInv(s);
    RunKeepsInv(s, before);
    var db, ids := Run(s, before).db, Lines(Run(s, before).db, o);
    if o < |db.orders| && db.orders[o].paidAt && NeverRestocked(db, ids) && RoomForAll(db, ids) {
      PaidLinesAreRestockable(db, o);
      CancelViewFinishesIff(s, before, o);
      CancelledIsReady(db, o);
      var n := RestockAllStops(CancelOrder(db, o), ids);
      var end := RestockAll(CancelOrder(db, o), ids, CancelRestock).0;
      forall k | 0 <= k < |ids|
        ensures NetZero(end, ids[k])
      {
        SettledIsNetZero(end, ids[k]);
      }
    }
  }
}
