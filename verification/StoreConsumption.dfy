/**
 "Consumption happens exactly once, when the item first reaches 'printing'" (db/repo/admin.py):
 over every run of the application, a line whose call has completed was consumed exactly once if it
 ever moved to `printing`, and not at all otherwise.
 */
module StoreConsumption {
  import opened Inventory
  import opened StoreModel
  import opened StoreRuns
  import opened StoreBooks
  import opened StorePhases
  import opened StoreDiscipline
  import opened StoreTheorems
  import opened StoreOnce
  import opened StorePaths

  /** Calls, losses and consume rows all go back to a move to `printing`. */
  ghost predicate FromPrinting(s: Sys) {
    && Rooted(s.db)
    && (forall i :: i in s.calls ==> i in s.entered)
    && (forall i :: i in s.lost ==> i in s.entered)
    && forall i :: i in s.db.items && HasConsume(RowsOf(s.db.ledger, i)) ==> i in s.entered
  }

  lemma {:induction false} ConsumeRowsAppear(db: Db, d: Db, step: Step, j: nat)
    requires Appends(db, d, step) && (step.DoRestock? ==> step.reason != Consume)
    requires j in d.items && HasConsume(RowsOf(d.ledger, j))
    ensures (j in db.items && HasConsume(RowsOf(db.ledger, j))) || step == DoConsume(j)
  {
    if j in db.items {
      HasConsumeAppend(RowsOf(db.ledger, j), RowsWritten(db, step, j));
      WrittenHasConsume(db, step, j);
    }
  }

  /** The bookkeeping half of a step: who may join the calls, the losses and the histories. */
  lemma {:induction false} ExecTracks(s: Sys, step: Step)
    ensures var t := Exec(s, step);
      && (forall i :: i in t.calls ==> i in s.calls || i in t.entered)
      && (forall i :: i in t.lost ==> i in s.lost || i in s.calls)
      && s.entered <= t.entered
      && (t.db != s.db && step.DoConsume? ==> step.item in s.calls)
  {}

  lemma {:induction false} StepKeepsFromPrinting(s: Sys, step: Step)
    requires FromPrinting(s) && AppStep(step) && (step.DoRestock? ==> step.reason != Consume)
    ensures FromPrinting(Exec(s, step))
  {
    var t := Exec(s, step);
    ExecTracks(s, step);
    ExecCommitsOrNot(s, step);
    if t.db != s.db {
      if WritesLedger(step) { LedgerStepAppends(s.db, step); } else { QuietStepAppends(s.db, step); }
      forall i | i in t.db.items && HasConsume(RowsOf(t.db.ledger, i))
        ensures i in t.entered
      {
        ConsumeRowsAppear(s.db, t.db, step, i);
      }
    }
  }

  lemma {:induction false} RunKeepsFromPrinting(s: Sys, steps: seq<Step>)
    requires FromPrinting(s) && AppRun(steps) && NeverRestocksAs(steps, Consume)
    ensures FromPrinting(Run(s, steps))
    decreases |steps|
  {
    if steps != [] {
      StepKeepsFromPrinting(s, steps[0]);
      assert forall k :: 0 <= k < |steps[1..]| ==> steps[1..][k] == steps[k + 1];
      RunKeepsFromPrinting(Exec(s, steps[0]), steps[1..]);
    }
  }

  /**
   With its call completed and not lost, a line has one consume row per component if it ever entered
   `printing`, and none if it never did: blocks, reprints, cancellations, restocks and unpaid lines
   included.
   */
  lemma {:induction false} ConsumedExactlyIfEntered(s: Sys, steps: seq<Step>, i: nat)
    requires Initial(s) && AppRun(steps) && NeverRestocksAs(steps, Consume)
    ensures var t := Run(s, steps);
      i in t.db.items && i !in t.calls && i !in t.lost ==>
        forall c: nat :: Count(RowsOf(t.db.ledger, i), Consume, c)
          == if i in t.entered && BomQty(LineBom(t.db, i), c) > 0 then 1 else 0
  {
    RunKeepsConsumedOnce(s, steps);
    RunKeepsFromPrinting(s, steps);
    RunKeepsPath(s, steps);
    var t := Run(s, steps);
    if i in t.db.items && i !in t.calls && i !in t.lost {
      assert ConsumedOnce(t.db, i) && PathOk(t, i);
    }
  }

  /**
   Under the discipline the ledger's phases and the board tell one story: a line made of something,
   whose call completed, is consumed or returned exactly if it ever entered `printing`, and was never
   reserved exactly if its order was never paid.
   */
  lemma {:induction false} PhaseFollowsTheBoard(s: Sys, steps: seq<Step>, i: nat)
    requires Initial(s) && AdmissibleRun(s, steps)
    ensures var t := Run(s, steps);
      i in t.db.items && LineBom(t.db, i) != [] && i !in t.calls && i !in t.lost ==>
        && (PhaseIn(t.db, i).Used? || PhaseIn(t.db, i).Returned? <==> i in t.entered)
        && (PhaseIn(t.db, i) == Fresh <==> !EverPaid(t.db, t.db.items[i].fin.order))
  {
    AdmissibleIsUnrepaid(s, steps);
    UnrepaidIsApp(s, steps);
    RunKeepsFromPrinting(s, steps);
    RunKeepsPath(s, steps);
    InitialInv(s);
    RunKeepsInv(s, steps);
    var t := Run(s, steps);
    if i in t.db.items && LineBom(t.db, i) != [] && i !in t.calls && i !in t.lost {
      assert PathOk(t, i) && OnScript(t.db, i);
      HistoryReadsBack(LineBom(t.db, i), t.db.items[i].fin.qty, i, PhaseIn(t.db, i));
    }
  }
}
