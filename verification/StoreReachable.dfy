/**
 Exactly when payments and consumes commit, over every reachable state: any run from an initial
 shop, raw edits of order lines included, keeps the facts those conditions rest on.
 */
module StoreReachable {
  import opened Inventory
  import opened StoreModel
  import opened StoreRuns
  import opened StoreBooks
  import opened StorePhases
  import opened StoreSteps
  import opened StoreAdmissible
  import opened StoreLimits

  predicate Quantities(db: Db) {
    forall i :: i in db.items ==> db.items[i].fin.qty > 0
  }

  lemma {:induction false} LedgerStepKeepsQuantities(db: Db, step: Step)
    requires Quantities(db) && WritesLedger(step)
    ensures Quantities(Commit(db, Attempt(db, step)))
  {}

  lemma {:induction false} RawStepKeepsQuantities(db: Db, step: Step)
    requires Quantities(db) && !AppStep(step)
    ensures Quantities(Commit(db, Attempt(db, step)))
  {}

  lemma {:induction false} StepKeepsQuantities(s: Sys, step: Step)
    requires WellKeyed(s.db) && Quantities(s.db)
    ensures Quantities(Exec(s, step).db)
  {
    ExecCommitsOrNot(s, step);
    if WritesLedger(step) {
      LedgerStepKeepsQuantities(s.db, step);
    } else if AppStep(step) {
      QuietStep(s.db, step);
    } else {
      RawStepKeepsQuantities(s.db, step);
    }
  }

  /** Keys, quantities, the bill of materials and the caches are sound in every run, whatever is run. */
  lemma {:induction false} SoundAlways(s: Sys, steps: seq<Step>)
    requires Sound(s.db)
    ensures Sound(Run(s, steps).db)
    decreases |steps|
  {
    if steps != [] {
      StepKeepsNoDrift(s, steps[0]);
      StepKeepsHistory(s, steps[0]);
      StepKeepsQuantities(s, steps[0]);
      SoundAlways(Exec(s, steps[0]), steps[1..]);
    }
  }

  predicate Covered(db: Db, o: nat) {
    forall c :: 0 <= c < |db.components| ==>
      Demand(db, Lines(db, o), c) <= db.components[c].onHand - db.components[c].reserved
  }

  /**
   In every reachable state an order not `paid` can be paid exactly when the stock at hand covers all
   its lines; a mark_paid call changes nothing exactly when the order is missing, `paid` or not covered.
   */
  lemma {:induction false} PaymentCommitsIff(s: Sys, steps: seq<Step>, o: nat)
    requires Initial(s)
    ensures var db := Run(s, steps).db;
      && (o < |db.orders| && db.orders[o].payment != Paid ==> (MarkPaid(db, o).Ok? <==> Covered(db, o)))
      && (Commit(db, MarkPaid(db, o)) == db <==> o >= |db.orders| || db.orders[o].payment == Paid || !Covered(db, o))
  {
    SoundAlways(s, steps);
    var db := Run(s, steps).db;
    if o < |db.orders| && db.orders[o].payment != Paid { PaymentSucceedsIff(db, o); }
    ReplayIsNoOpIff(db, o);
  }

  /** For an order of one line made of something, covered means: its quantity is at most `buildable`. */
  lemma {:induction false} OneLineCoveredIff(s: Sys, steps: seq<Step>, o: nat, i: nat)
    requires Initial(s)
    ensures var db := Run(s, steps).db;
      o < |db.orders| && Lines(db, o) == [i] && i in db.items && LineBom(db, i) != [] ==>
        ValidLines(LineBom(db, i), |db.components|)
        && (Covered(db, o) <==> db.items[i].fin.qty <= Buildable(db.components, LineBom(db, i)))
  {
    SoundAlways(s, steps);
    var db := Run(s, steps).db;
    if o < |db.orders| && Lines(db, o) == [i] && i in db.items && LineBom(db, i) != [] {
      LineBomValid(db, i);
      OneLineIsBuildable(db, o, i);
    }
  }

  lemma {:induction false} OneLineIsBuildable(db: Db, o: nat, i: nat)
    requires Sound(db) && Lines(db, o) == [i] && i in db.items && LineBom(db, i) != []
    requires ValidLines(LineBom(db, i), |db.components|)
    ensures Covered(db, o) <==> db.items[i].fin.qty <= Buildable(db.components, LineBom(db, i))
  {
    var lines, qty := LineBom(db, i), db.items[i].fin.qty;
    BuildableIsTight(db.components, lines, qty);
    forall c: nat
      ensures Demand(db, [i], c) == Need(lines, qty, c)
    {
      assert [i][1..] == [] && Demand(db, [i], c) == LineNeed(db, i, c) + Demand(db, [], c);
    }
    forall k | 0 <= k < |lines|
      ensures Need(lines, qty, lines[k].component) == lines[k].qty * qty
    {
      BomQtyBounds(lines, |db.components|, lines[k].component);
    }
    forall c | 0 <= c < |db.components| && Need(lines, qty, c) > 0
      ensures exists k :: 0 <= k < |lines| && lines[k].component == c
    {
      BomQtyBounds(lines, |db.components|, c);
    }
  }

  /** A consume commits exactly when it is a repeat or the reservations at hand, for whomever, cover the line. */
  lemma {:induction false} ConsumeCommitsIff(s: Sys, steps: seq<Step>, i: nat)
    requires Initial(s)
    ensures var db := Run(s, steps).db;
      ConsumeForItem(db, i).Ok? <==>
        HasConsume(RowsOf(db.ledger, i)) || forall c :: 0 <= c < |db.components| ==> LineNeed(db, i, c) <= db.components[c].reserved
  {
    SoundAlways(s, steps);
    ConsumeCommitsIffCovered(Run(s, steps).db, i);
  }
}
