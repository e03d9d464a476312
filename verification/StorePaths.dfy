/**
 The production board (db/repo/admin.py): advance_item commits the status first and calls
 consume_for_item afterwards, so a crash can separate the two.
 */
module StorePaths {
  import opened Inventory
  import opened Pricing
  import opened StoreModel
  import opened StoreRuns
  import opened StoreBooks
  import opened StorePhases

  /** The stations a line is meant to reach only through `printing`, and `printing` itself. */
  predicate PastPrinting(s: Station) {
    s in {Printing, Printed, Mounting, Framing, Qc, Packed}
  }

  predicate ConsumedOrEmpty(db: Db, i: nat)
    requires i in db.items
  {
    LineBom(db, i) == [] || HasConsume(RowsOf(db.ledger, i))
  }

  /** The line's consumption happened, is on its way, or was lost on its way. */
  predicate Accounted(s: Sys, i: nat)
    requires i in s.db.items
  {
    ConsumedOrEmpty(s.db, i) || i in s.calls || i in s.lost
  }

  /** What the board is trusted to mean: past printing, so accounted for. */
  predicate Trusted(s: Sys, i: nat)
    requires i in s.db.items
  {
    PastPrinting(s.db.items[i].status) ==> Accounted(s, i)
  }

  predicate PathOk(s: Sys, i: nat)
    requires i in s.db.items
  {
    && (i in s.entered ==> Accounted(s, i))
    && (PastPrinting(s.db.items[i].status) ==> i in s.entered || i in s.skipped)
  }

  predicate PathInv(s: Sys) {
    WellKeyed(s.db) && (forall i :: i in s.entered ==> i in s.db.items) && forall i :: i in s.db.items ==> PathOk(s, i)
  }

  /** Lines keep their BOM, consume rows are never removed, and only the named line changes station. */
  predicate PathStep(db: Db, d: Db, moved: set<nat>) {
    && d.bom == db.bom && db.ledger <= d.ledger && WellKeyed(d)
    && (forall i :: i in db.items ==> i in d.items && d.items[i].variant == db.items[i].variant)
    && (forall i :: i in db.items && i !in moved ==>
          d.items[i].status == db.items[i].status || d.items[i].status == Cancelled)
    && (forall i :: i in d.items && i !in db.items ==> d.items[i].status == Queued)
  }

  lemma {:induction false} ConsumeRowsStay(db: Db, d: Db, i: nat)
    requires db.ledger <= d.ledger && HasConsume(RowsOf(db.ledger, i))
    ensures HasConsume(RowsOf(d.ledger, i))
  {
    var more := d.ledger[|db.ledger|..];
    assert d.ledger == db.ledger + more;
    RowsOfAppend(db.ledger, more, i);
    var k :| 0 <= k < |RowsOf(db.ledger, i)| && RowsOf(db.ledger, i)[k].reason == Consume;
    assert RowsOf(d.ledger, i)[k].reason == Consume;
  }

  lemma {:induction false} ConsumeLeavesARow(db: Db, i: nat)
    requires i in db.items && ConsumeForItem(db, i).Ok?
    ensures ConsumedOrEmpty(ConsumeForItem(db, i).value, i)
  {
    var d := ConsumeForItem(db, i).value;
    if HasConsume(RowsOf(db.ledger, i)) {
      assert d.ledger == db.ledger + [];
      ConsumeRowsStay(db, d, i);
    } else if LineBom(db, i) != [] {
      var rows := LineRows(db, i, -1, -1, Consume);
      RowsOfAppend(db.ledger, rows, i);
      RowsOfItemRows(LineBom(db, i), db.items[i].fin.qty, i, -1, -1, Consume, i);
      ItemRowsReason(LineBom(db, i), db.items[i].fin.qty, i, -1, -1, Consume);
      assert RowsOf(d.ledger, i)[|RowsOf(db.ledger, i)|] == rows[0];
    }
  }

  lemma {:induction false} LedgerStepIsPathStep(db: Db, step: Step)
    requires WellKeyed(db) && WritesLedger(step)
    ensures PathStep(db, Commit(db, Attempt(db, step)), {})
  {}

  lemma {:induction false} OrderStepIsPathStep(db: Db, step: Step)
    requires WellKeyed(db) && (step.DoRefund? || step.DoCancelOrder?)
    ensures PathStep(db, Commit(db, Attempt(db, step)), {})
  {}

  lemma {:induction false} PlacedIsPathStep(db: Db, ps: seq<Priced>, t: Totals)
    requires WellKeyed(db)
    ensures PathStep(db, Placed(db, ps, t), {})
  {
    PlacedAddsLines(db, ps, t);
  }

  lemma {:induction false} SetStationIsPathStep(db: Db, i: nat, to: Station)
    requires WellKeyed(db) && SetStation(db, i, to).Ok?
    ensures PathStep(db, SetStation(db, i, to).value, {i}) && SetStation(db, i, to).value.items[i].status == to
  {}

  /** A step that moves no station keeps what the path promised. */
  lemma {:induction false} UnmovedKeepsPath(s: Sys, t: Sys)
    requires PathInv(s) && PathStep(s.db, t.db, {})
    requires s.entered == t.entered && s.skipped == t.skipped && s.lost <= t.lost
    requires forall i :: i in s.calls && i in s.db.items ==> i in t.calls || i in t.lost || ConsumedOrEmpty(t.db, i)
    ensures PathInv(t)
  {
    forall i | i in t.db.items
      ensures PathOk(t, i)
    {
      if i in s.db.items {
        assert PathOk(s, i);
        if HasConsume(RowsOf(s.db.ledger, i)) { ConsumeRowsStay(s.db, t.db, i); }
      }
    }
  }

  lemma {:induction false} MovedKeepsPath(s: Sys, item: nat, to: Station)
    requires PathInv(s) && SetStation(s.db, item, to).Ok?
    ensures PathInv(Exec(s, DoSetStation(item, to)))
  {
    var t := Exec(s, DoSetStation(item, to));
    SetStationIsPathStep(s.db, item, to);
    assert t.db == SetStation(s.db, item, to).value;
    forall i | i in t.db.items
      ensures PathOk(t, i)
    {
      assert i in s.db.items && PathOk(s, i);
      if HasConsume(RowsOf(s.db.ledger, i)) { ConsumeRowsStay(s.db, t.db, i); }
    }
  }

  lemma {:induction false} ConsumeStepKeepsPath(s: Sys, i: nat)
    requires PathInv(s)
    ensures PathInv(Exec(s, DoConsume(i)))
  {
    if i in s.calls {
      LedgerStepIsPathStep(s.db, DoConsume(i));
      if i in s.db.items && ConsumeForItem(s.db, i).Ok? { ConsumeLeavesARow(s.db, i); }
      UnmovedKeepsPath(s, Exec(s, DoConsume(i)));
    }
  }

  lemma {:induction false} OtherStepKeepsPath(s: Sys, step: Step)
    requires PathInv(s) && (step.DoMarkPaid? || step.DoRestock? || step.DoAdjust? || step.DoRefund? || step.DoCancelOrder?)
    ensures PathInv(Exec(s, step))
  {
    if WritesLedger(step) { LedgerStepIsPathStep(s.db, step); } else { OrderStepIsPathStep(s.db, step); }
    UnmovedKeepsPath(s, Exec(s, step));
  }

  lemma {:induction false} PlaceKeepsPath(s: Sys, step: Step)
    requires PathInv(s) && step.DoPlaceOrder?
    ensures PathInv(Exec(s, step))
  {
    if Attempt(s.db, step).Ok? {
      var ps, t := PlaceOrderCommits(s.db, step);
      PlacedIsPathStep(s.db, ps, t);
      UnmovedKeepsPath(s, Exec(s, step));
    }
  }

  lemma {:induction false} StepKeepsPath(s: Sys, step: Step)
    requires PathInv(s) && AppStep(step)
    ensures PathInv(Exec(s, step))
  {
    if step.DoConsume? {
      ConsumeStepKeepsPath(s, step.item);
    } else if step.DoSetStation? {
      if SetStation(s.db, step.item, step.to).Ok? { MovedKeepsPath(s, step.item, step.to); }
    } else if step.DoCrash? {
      UnmovedKeepsPath(s, Exec(s, step));
    } else if step.DoPlaceOrder? {
      PlaceKeepsPath(s, step);
    } else {
      OtherStepKeepsPath(s, step);
    }
  }

  lemma {:induction false} RunKeepsPath(s: Sys, steps: seq<Step>)
    requires PathInv(s) && AppRun(steps)
    ensures PathInv(Run(s, steps))
    decreases |steps|
  {
    if steps != [] {
      StepKeepsPath(s, steps[0]);
      RunKeepsPath(Exec(s, steps[0]), steps[1..]);
    }
  }

  /**
   With its consume call completed, a line at `printing` or later that was never unblocked past
   `printing` has its consume rows, however often it was blocked, reprinted or cancelled; a crash
   between the status commit and the consume is the only other way to miss them.
   */
  lemma {:induction false} PrintedMeansConsumed(s: Sys, steps: seq<Step>, i: nat)
    requires Initial(s) && AppRun(steps)
    ensures var t := Run(s, steps);
      i in t.db.items && PastPrinting(t.db.items[i].status) && i !in t.skipped && i !in t.calls && i !in t.lost ==>
        ConsumedOrEmpty(t.db, i)
  {
    RunKeepsPath(s, steps);
    var t := Run(s, steps);
    if i in t.db.items { assert PathOk(t, i); }
  }

  /**
   Exactly which moves keep the board trustworthy: every legal move does, except an unblocking past
   `printing` of a line that is not accounted for yet.
   */
  lemma {:induction false} MoveKeepsTrustIff(s: Sys, i: nat, to: Station)
    requires i in s.db.items && SetStation(s.db, i, to).Ok? && Trusted(s, i)
    ensures var t := Exec(s, DoSetStation(i, to));
      i in t.db.items && (Trusted(t, i) <==> !Skips(s.db.items[i].status, to) || Accounted(s, i))
  {}
}
