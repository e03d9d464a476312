/** The main results over admissible runs of the shop. */
module StoreTheorems {
  import opened Common
  import opened Inventory
  import opened StoreModel
  import opened StoreRuns
  import opened StorePhases
  import opened StoreSteps
  import opened StoreDiscipline
  import opened StoreAdmissible

  // ---------------------------------------------------------------- steps that move no stock

  lemma {:induction false} QuietKeepsSound(db: Db, d: Db)
    requires Phased(db) && Quiet(db, d)
    ensures Sound(d) && Attributed(d)
  {
    assert forall c :: 0 <= c < |d.components| ==> !Drifted(db.components, db.ledger, c);
  }

  lemma {:induction false} QuietKeepsPhased(db: Db, d: Db)
    requires Phased(db) && Quiet(db, d)
    ensures Phased(d)
    ensures forall i :: i in db.items ==> PhaseIn(d, i) == PhaseIn(db, i)
  {
    QuietKeepsSound(db, d);
    forall i | i in d.items
      ensures OnScript(d, i) && (i !in db.items ==> PhaseIn(d, i) == Fresh)
    {
      if i in db.items { assert OnScript(db, i); } else { RowsOfAbsent(db.ledger, i); }
    }
  }

  lemma {:induction false} AdjustMovesNothing(db: Db, c: nat, delta: int, reason: Reason)
    requires Phased(db) && AdjustStock(db, c, delta, reason).Ok?
    ensures var d := AdjustStock(db, c, delta, reason).value;
      Phased(d) && forall i :: i in db.items ==> PhaseIn(d, i) == PhaseIn(db, i)
  {
    var rows := [Row(c, delta, 0, reason, None)];
    var d := Insert(db, rows).value;
    InsertKeepsNoDrift(db, rows);
    forall i | i in db.items
      ensures OnScript(d, i) && PhaseIn(d, i) == PhaseIn(db, i)
    {
      assert OnScript(db, i);
      RowsOfAbsent(rows, i);
      UntouchedLine(db, d, rows, i);
    }
  }

  // ---------------------------------------------------------------- one admissible step

  lemma {:induction false} PaymentKeepsPhases(s: Sys, step: Step)
    requires Inv(s) && Admissible(s, step) && step.DoMarkPaid? && Attempt(s.db, step).Ok?
    ensures Phased(Attempt(s.db, step).value) && AllMove(s.db, Attempt(s.db, step).value, step)
  {
    var db, o := s.db, step.order;
    if o < |db.orders| && db.orders[o].payment == Unpaid { PaymentMovesToHeld(db, o); }
  }

  lemma {:induction false} StockStepKeepsPhases(s: Sys, step: Step)
    requires Inv(s) && Admissible(s, step) && Attempt(s.db, step).Ok?
    requires step.DoRestock? || step.DoAdjust? || (step.DoConsume? && step.item in s.calls)
    ensures Phased(Attempt(s.db, step).value) && AllMove(s.db, Attempt(s.db, step).value, step)
  {
    match step
    case DoConsume(i) => ConsumeMovesToUsed(s.db, i);
    case DoRestock(i, reason) => RestockMovesBack(s.db, i, reason);
    case DoAdjust(c, delta, reason) => AdjustMovesNothing(s.db, c, delta, reason);
  }

  /** Every admissible transaction keeps the phase invariant and moves lines only along their script. */
  lemma {:induction false} CommitKeepsPhases(s: Sys, step: Step)
    requires Inv(s) && Admissible(s, step)
    requires step.DoConsume? ==> step.item in s.calls
    ensures var d := Commit(s.db, Attempt(s.db, step)); Phased(d) && AllMove(s.db, d, step)
  {
    if !WritesLedger(step) {
      QuietStep(s.db, step);
      QuietKeepsPhased(s.db, Commit(s.db, Attempt(s.db, step)));
    } else if Attempt(s.db, step).Ok? {
      if step.DoMarkPaid? { PaymentKeepsPhases(s, step); } else { StockStepKeepsPhases(s, step); }
    }
  }

  lemma {:induction false} CanConsumeByPhase(db: Db, i: nat)
    requires Phased(db) && i in db.items
    ensures CanConsume(db, i) <==> LineBom(db, i) == [] || PhaseIn(db, i) == Held || PhaseIn(db, i).Used? || PhaseIn(db, i).Returned?
  {
    assert OnScript(db, i);
    HistoryReadsBack(LineBom(db, i), db.items[i].fin.qty, i, PhaseIn(db, i));
  }

  lemma {:induction false} StaysConsumable(db: Db, d: Db, i: nat, step: Step)
    requires Phased(db) && Phased(d) && SameLines(db, d) && CanConsume(db, i)
    requires Moves(PhaseIn(db, i), PhaseIn(d, i), i, step) && !(step.DoRestock? && step.item == i)
    ensures CanConsume(d, i)
  {
    CanConsumeByPhase(db, i);
    CanConsumeByPhase(d, i);
  }

  // ---------------------------------------------------------------- runs

  /** A call in flight stays consumable, and a new call starts consumable. */
  lemma {:induction false} CallsStayReady(s: Sys, step: Step, d: Db, i: nat)
    requires Phased(s.db) && CallsReady(s) && Admissible(s, step)
    requires Phased(d) && AllMove(s.db, d, step) && SameLines(s.db, d)
    requires i in s.calls || (step.DoSetStation? && step.to == Printing && step.item == i && i in s.db.items)
    ensures CanConsume(d, i)
  {
    StaysConsumable(s.db, d, i, step);
  }

  predicate Waits(s: Sys, step: Step) {
    (step.DoConsume? || step.DoCrash?) && step.item !in s.calls
  }

  lemma {:induction false} ExecWaitsOrCommits(s: Sys, step: Step)
    ensures Waits(s, step) ==> Exec(s, step) == s
    ensures !Waits(s, step) ==> Exec(s, step).db == Commit(s.db, Attempt(s.db, step))
    ensures forall i :: i in Exec(s, step).calls ==>
      i in s.calls || (step.DoSetStation? && step.to == Printing && step.item == i && i in s.db.items)
  {}

  lemma {:induction false} StepKeepsInv(s: Sys, step: Step)
    requires Inv(s) && Admissible(s, step)
    ensures Inv(Exec(s, step)) && AllMove(s.db, Exec(s, step).db, step) && SameLines(s.db, Exec(s, step).db)
  {
    ExecWaitsOrCommits(s, step);
    if !Waits(s, step) {
      var d := Commit(s.db, Attempt(s.db, step));
      CommitKeepsPhases(s, step);
      CommitKeepsLines(s.db, step);
      forall i | i in Exec(s, step).calls
        ensures CanConsume(d, i)
      {
        CallsStayReady(s, step, d, i);
      }
    }
  }

  lemma {:induction false} InitialInv(s: Sys)
    requires Initial(s)
    ensures Inv(s)
  {}

  lemma {:induction false} RunKeepsInv(s: Sys, steps: seq<Step>)
    requires Inv(s) && AdmissibleRun(s, steps)
    ensures Inv(Run(s, steps))
    ensures SameLines(s.db, Run(s, steps).db)
    decreases |steps|
  {
    if steps != [] {
      StepKeepsInv(s, steps[0]);
      RunKeepsInv(Exec(s, steps[0]), steps[1..]);
    }
  }

  /** In every admissible reachable state the cached `reserved` is the sum of outstanding needs. */
  lemma {:induction false} ReservedIsTheSumOfPromises(s: Sys, steps: seq<Step>, c: nat)
    requires Initial(s) && AdmissibleRun(s, steps) && c < |Run(s, steps).db.components|
    ensures var db := Run(s, steps).db;
      db.components[c].reserved == Outstanding(db, db.nextItem, c)
  {
    InitialInv(s);
    RunKeepsInv(s, steps);
    ReservedIsOutstanding(Run(s, steps).db, c);
  }

  /**
   Whatever other orders' payments, consumes, restocks and stock adjustments came between, and
   wherever processes crashed, a consume call in flight commits.
   */
  lemma {:induction false} ConsumeInFlightCommits(s: Sys, steps: seq<Step>, i: nat)
    requires Initial(s) && AdmissibleRun(s, steps) && i in Run(s, steps).calls
    ensures ConsumeForItem(Run(s, steps).db, i).Ok?
  {
    InitialInv(s);
    RunKeepsInv(s, steps);
    ReservationIsAPromise(Run(s, steps).db, i);
  }

  /** (sum delta, sum reserved_delta) of a line is (0,0), (0,need) or (-need,0), the same across its whole BOM. */
  lemma {:induction false} LineIsInOnePhase(s: Sys, steps: seq<Step>, i: nat)
    requires Initial(s) && AdmissibleRun(s, steps)
    ensures var db := Run(s, steps).db;
      || i !in db.items
      || (forall c: nat :: Total(RowsOf(db.ledger, i), c) == ZERO)
      || (forall c: nat :: Total(RowsOf(db.ledger, i), c) == Balance(0, LineNeed(db, i, c)))
      || (forall c: nat :: Total(RowsOf(db.ledger, i), c) == Balance(-LineNeed(db, i, c), 0))
  {
    InitialInv(s);
    RunKeepsInv(s, steps);
    var db := Run(s, steps).db;
    if i in db.items {
      assert OnScript(db, i);
      LineBomValid(db, i);
      forall c: nat
        ensures Total(RowsOf(db.ledger, i), c) == Contribution(PhaseIn(db, i), LineNeed(db, i, c))
      {
        HistoryTotals(LineBom(db, i), |db.components|, db.items[i].fin.qty, i, PhaseIn(db, i), c);
      }
    }
  }
}
