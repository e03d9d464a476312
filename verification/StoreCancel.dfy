/**
 Cancelling an order with restock (admin/views.py): one restock transaction per line, with any
 admissible steps of other processes before each of them.
 */
module StoreCancel {
  import opened Inventory
  import opened StoreModel
  import opened StoreRuns
  import opened StorePhases
  import opened StoreDiscipline
  import opened StoreAdmissible
  import opened StoreTheorems

  lemma {:induction false} AdmissibleAppend(s: Sys, a: seq<Step>, b: seq<Step>)
    ensures AdmissibleRun(s, a + b) <==> AdmissibleRun(s, a) && AdmissibleRun(Run(s, a), b)
    decreases |a|
  {
    if a == [] {
      assert a + b == b;
    } else {
      assert (a + b)[0] == a[0] && (a + b)[1..] == a[1..] + b;
      AdmissibleAppend(Exec(s, a[0]), a[1..], b);
    }
  }

  /** Reserved or consumed and not put back (or made of nothing). */
  predicate Restockable(db: Db, i: nat) {
    i in db.items && (LineBom(db, i) == [] || PhaseIn(db, i) == Held || PhaseIn(db, i) == Used)
  }

  /** The line's ledger rows cancel out for every component. */
  ghost predicate NetZero(db: Db, i: nat) {
    forall c: nat :: Total(RowsOf(db.ledger, i), c) == ZERO
  }

  predicate Settled(db: Db, i: nat) {
    i in db.items && (LineBom(db, i) == [] || PhaseIn(db, i).Released? || PhaseIn(db, i).Returned?)
  }

  lemma {:induction false} SettledIsNetZero(db: Db, i: nat)
    requires Phased(db) && Settled(db, i)
    ensures NetZero(db, i)
  {
    assert OnScript(db, i);
    LineBomValid(db, i);
    var p := PhaseIn(db, i);
    HistoryReadsBack(LineBom(db, i), db.items[i].fin.qty, i, p);
    forall c: nat
      ensures Total(RowsOf(db.ledger, i), c) == ZERO
    {
      HistoryTotals(LineBom(db, i), |db.components|, db.items[i].fin.qty, i, p, c);
    }
  }

  lemma {:induction false} PhaseStep(s: Sys, step: Step, i: nat)
    requires Inv(s) && Admissible(s, step) && i in s.db.items
    ensures Inv(Exec(s, step)) && i in Exec(s, step).db.items
    ensures LineBom(Exec(s, step).db, i) == LineBom(s.db, i)
    ensures Moves(PhaseIn(s.db, i), PhaseIn(Exec(s, step).db, i), i, step)
  {
    StepKeepsInv(s, step);
  }

  /** Once put back, a line stays put back: no admissible step ever moves it again. */
  lemma {:induction false} SettledForever(s: Sys, steps: seq<Step>, i: nat)
    requires Inv(s) && AdmissibleRun(s, steps)
    ensures Settled(s.db, i) ==> Settled(Run(s, steps).db, i)
    decreases |steps|
  {
    if steps != [] && Settled(s.db, i) {
      PhaseStep(s, steps[0], i);
      SettledForever(Exec(s, steps[0]), steps[1..], i);
    }
  }

  predicate Restocks(step: Step, i: nat) {
    step.DoRestock? && step.item == i
  }

  predicate Spares(steps: seq<Step>, i: nat) {
    forall k :: 0 <= k < |steps| ==> !Restocks(steps[k], i)
  }

  lemma {:induction false} StaysRestockable(s: Sys, steps: seq<Step>, i: nat)
    requires Inv(s) && AdmissibleRun(s, steps) && Restockable(s.db, i)
    requires Spares(steps, i)
    ensures Restockable(Run(s, steps).db, i)
    decreases |steps|
  {
    if steps != [] {
      PhaseStep(s, steps[0], i);
      StaysRestockable(Exec(s, steps[0]), steps[1..], i);
    }
  }

  /** The cancel loop: before each line's restock, whatever the other processes do. */
  function CancelLoop(ids: seq<nat>, others: seq<seq<Step>>): seq<Step>
    requires |others| == |ids|
  {
    if ids == [] then []
    else others[0] + ([DoRestock(ids[0], CancelRestock)] + CancelLoop(ids[1..], others[1..]))
  }

  /** Stock a consumed line puts back fits its column when its turn comes. */
  predicate RoomInTurn(s: Sys, ids: seq<nat>, others: seq<seq<Step>>)
    requires |others| == |ids|
    decreases |ids|
  {
    ids == [] ||
    var turn := Run(s, others[0]);
    && (ids[0] in turn.db.items && PhaseIn(turn.db, ids[0]) == Used ==> Room(turn.db, ids[0]))
    && RoomInTurn(Exec(turn, DoRestock(ids[0], CancelRestock)), ids[1..], others[1..])
  }

  predicate EveryRestockCommits(s: Sys, ids: seq<nat>, others: seq<seq<Step>>)
    requires |others| == |ids|
    decreases |ids|
  {
    ids == [] ||
    var turn := Run(s, others[0]);
    && RestockForItem(turn.db, ids[0], CancelRestock).Ok?
    && EveryRestockCommits(Exec(turn, DoRestock(ids[0], CancelRestock)), ids[1..], others[1..])
  }

  predicate NobodyElseRestocks(ids: seq<nat>, others: seq<seq<Step>>) {
    forall j, k :: 0 <= j < |others| && 0 <= k < |others[j]| ==>
      !(others[j][k].DoRestock? && others[j][k].item in ids)
  }

  predicate Distinct(ids: seq<nat>) {
    forall x, y :: 0 <= x < y < |ids| ==> ids[x] != ids[y]
  }

  /**
   The discipline under which cancel is promised to work: an admissible interleaving, distinct
   lines none of which was restocked before or is restocked by others, and room for what returns.
   */
  ghost predicate Cancellable(s: Sys, ids: seq<nat>, others: seq<seq<Step>>)
    requires |others| == |ids|
  {
    && Inv(s) && AdmissibleRun(s, CancelLoop(ids, others))
    && (forall k :: 0 <= k < |ids| ==> Restockable(s.db, ids[k]))
    && Distinct(ids) && NobodyElseRestocks(ids, others) && RoomInTurn(s, ids, others)
  }

  /** The loop's state after its first round. */
  function NextTurn(s: Sys, ids: seq<nat>, others: seq<seq<Step>>): Sys
    requires |others| == |ids| > 0
  {
    Exec(Run(s, others[0]), DoRestock(ids[0], CancelRestock))
  }

  /** The loop's run is: the others' steps, one restock, the rest of the loop. */
  lemma {:induction false} LoopSplits(s: Sys, ids: seq<nat>, others: seq<seq<Step>>)
    requires |others| == |ids| > 0 && AdmissibleRun(s, CancelLoop(ids, others))
    ensures AdmissibleRun(s, others[0]) && Admissible(Run(s, others[0]), DoRestock(ids[0], CancelRestock))
    ensures AdmissibleRun(NextTurn(s, ids, others), CancelLoop(ids[1..], others[1..]))
    ensures Run(s, CancelLoop(ids, others)) == Run(NextTurn(s, ids, others), CancelLoop(ids[1..], others[1..]))
  {
    var restock, rest := DoRestock(ids[0], CancelRestock), CancelLoop(ids[1..], others[1..]);
    AdmissibleAppend(s, others[0], [restock] + rest);
    RunAppend(s, others[0], [restock] + rest);
    assert ([restock] + rest)[1..] == rest;
  }

  /** A line that holds something and has room to give it back is put back. */
  lemma {:induction false} PutBack(db: Db, i: nat)
    requires Phased(db) && Restockable(db, i) && (PhaseIn(db, i) == Used ==> Room(db, i))
    ensures RestockForItem(db, i, CancelRestock).Ok?
    ensures Phased(RestockForItem(db, i, CancelRestock).value) && Settled(RestockForItem(db, i, CancelRestock).value, i)
  {
    RestockCommitsIff(db, i, CancelRestock);
    RestockMovesBack(db, i, CancelRestock);
    assert RestockForItem(db, i, CancelRestock).value.items == db.items;
  }

  lemma {:induction false} RestockStep(s: Sys, i: nat)
    ensures Exec(s, DoRestock(i, CancelRestock)) == s.(db := Commit(s.db, RestockForItem(s.db, i, CancelRestock)))
    ensures Admissible(s, DoRestock(i, CancelRestock)) <==> i !in s.calls
  {}

  lemma {:induction false} RestockSettles(turn: Sys, i: nat)
    requires Inv(turn) && Admissible(turn, DoRestock(i, CancelRestock)) && Restockable(turn.db, i)
    requires PhaseIn(turn.db, i) == Used ==> Room(turn.db, i)
    ensures RestockForItem(turn.db, i, CancelRestock).Ok?
    ensures Inv(Exec(turn, DoRestock(i, CancelRestock))) && Settled(Exec(turn, DoRestock(i, CancelRestock)).db, i)
  {
    PutBack(turn.db, i);
    RestockStep(turn, i);
    StepKeepsInv(turn, DoRestock(i, CancelRestock));
  }

  lemma {:induction false} RoomNext(s: Sys, ids: seq<nat>, others: seq<seq<Step>>)
    requires |others| == |ids| > 0 && RoomInTurn(s, ids, others)
    ensures var turn := Run(s, others[0]).db; ids[0] in turn.items && PhaseIn(turn, ids[0]) == Used ==> Room(turn, ids[0])
    ensures RoomInTurn(NextTurn(s, ids, others), ids[1..], others[1..])
  {}

  lemma {:induction false} FirstTurn(s: Sys, ids: seq<nat>, others: seq<seq<Step>>)
    requires |others| == |ids| > 0 && Cancellable(s, ids, others)
    ensures RestockForItem(Run(s, others[0]).db, ids[0], CancelRestock).Ok?
    ensures Inv(NextTurn(s, ids, others)) && Settled(NextTurn(s, ids, others).db, ids[0])
  {
    LoopSplits(s, ids, others);
    RunKeepsInv(s, others[0]);
    StaysRestockable(s, others[0], ids[0]);
    RoomNext(s, ids, others);
    RestockSettles(Run(s, others[0]), ids[0]);
  }

  lemma {:induction false} OtherStaysRestockable(s: Sys, first: seq<Step>, i: nat, j: nat)
    requires Inv(s) && AdmissibleRun(s, first) && Admissible(Run(s, first), DoRestock(i, CancelRestock))
    requires Restockable(s.db, j) && Spares(first, j) && j != i
    ensures Restockable(Exec(Run(s, first), DoRestock(i, CancelRestock)).db, j)
  {
    StaysRestockable(s, first, j);
    RunKeepsInv(s, first);
    PhaseStep(Run(s, first), DoRestock(i, CancelRestock), j);
  }

  lemma {:induction false} RestRestockable(s: Sys, ids: seq<nat>, others: seq<seq<Step>>)
    requires |others| == |ids| > 0 && Cancellable(s, ids, others)
    ensures forall k :: 0 <= k < |ids[1..]| ==> Restockable(NextTurn(s, ids, others).db, ids[1..][k])
  {
    LoopSplits(s, ids, others);
    forall k | 0 <= k < |ids[1..]|
      ensures Restockable(NextTurn(s, ids, others).db, ids[1..][k])
    {
      assert ids[1..][k] == ids[k + 1] && ids[k + 1] in ids;
      OtherStaysRestockable(s, others[0], ids[0], ids[k + 1]);
    }
  }

  lemma {:induction false} RestOfTheLoop(s: Sys, ids: seq<nat>, others: seq<seq<Step>>)
    requires |others| == |ids| > 0
    ensures EveryRestockCommits(s, ids, others) <==>
      && RestockForItem(Run(s, others[0]).db, ids[0], CancelRestock).Ok?
      && EveryRestockCommits(NextTurn(s, ids, others), ids[1..], others[1..])
  {}

  lemma {:induction false} PlanTail(ids: seq<nat>, others: seq<seq<Step>>)
    requires |others| == |ids| > 0 && Distinct(ids) && NobodyElseRestocks(ids, others)
    ensures Distinct(ids[1..]) && NobodyElseRestocks(ids[1..], others[1..])
  {}

  /** What the remaining rounds start from is again a cancellable state. */
  lemma {:induction false} NextCancellable(s: Sys, ids: seq<nat>, others: seq<seq<Step>>)
    requires |others| == |ids| > 0 && Cancellable(s, ids, others)
    ensures Cancellable(NextTurn(s, ids, others), ids[1..], others[1..])
  {
    LoopSplits(s, ids, others);
    FirstTurn(s, ids, others);
    RoomNext(s, ids, others);
    RestRestockable(s, ids, others);
    PlanTail(ids, others);
  }

  /** One round of the loop. */
  lemma {:induction false} OneTurn(s: Sys, ids: seq<nat>, others: seq<seq<Step>>)
    requires |others| == |ids| > 0 && Cancellable(s, ids, others)
    ensures Settled(NextTurn(s, ids, others).db, ids[0])
    ensures Run(s, CancelLoop(ids, others)) == Run(NextTurn(s, ids, others), CancelLoop(ids[1..], others[1..]))
    ensures EveryRestockCommits(NextTurn(s, ids, others), ids[1..], others[1..]) ==>
        EveryRestockCommits(s, ids, others)
  {
    LoopSplits(s, ids, others);
    FirstTurn(s, ids, others);
    RestOfTheLoop(s, ids, others);
  }

  lemma {:induction false} CancelSettles(s: Sys, ids: seq<nat>, others: seq<seq<Step>>)
    requires |others| == |ids| && Cancellable(s, ids, others)
    ensures EveryRestockCommits(s, ids, others)
    ensures forall k :: 0 <= k < |ids| ==> Settled(Run(s, CancelLoop(ids, others)).db, ids[k])
    decreases |ids|
  {
    if ids != [] {
      var next := NextTurn(s, ids, others);
      OneTurn(s, ids, others);
      NextCancellable(s, ids, others);
      var t := Run(next, CancelLoop(ids[1..], others[1..]));
      CancelSettles(next, ids[1..], others[1..]);
      SettledForever(next, CancelLoop(ids[1..], others[1..]), ids[0]);
      forall k | 0 <= k < |ids|
        ensures Settled(t.db, ids[k])
      {
        if k > 0 { assert ids[k] == ids[1..][k - 1]; }
      }
    }
  }

  /**
   Cancel is an inverse: for lines not restocked before, reserved or consumed in any mix, and any
   interleaved steps of other orders, every restock of the loop commits, and at the end each
   line's net effect on every component is zero.
   */
  lemma {:induction false} CancelIsAnInverse(s: Sys, ids: seq<nat>, others: seq<seq<Step>>)
    requires |others| == |ids| && Cancellable(s, ids, others)
    ensures EveryRestockCommits(s, ids, others)
    ensures forall k :: 0 <= k < |ids| ==> NetZero(Run(s, CancelLoop(ids, others)).db, ids[k])
  {
    CancelSettles(s, ids, others);
    RunKeepsInv(s, CancelLoop(ids, others));
    forall k | 0 <= k < |ids|
      ensures NetZero(Run(s, CancelLoop(ids, others)).db, ids[k])
    {
      SettledIsNetZero(Run(s, CancelLoop(ids, others)).db, ids[k]);
    }
  }

  /** No line of the order was put back before. */
  predicate NeverRestocked(db: Db, ids: seq<nat>) {
    forall k :: 0 <= k < |ids| ==> !PhaseIn(db, ids[k]).Released? && !PhaseIn(db, ids[k]).Returned?
  }

  lemma {:induction false} PaidLinesAreRestockable(db: Db, o: nat)
    requires Phased(db) && o < |db.orders| && db.orders[o].paidAt && NeverRestocked(db, Lines(db, o))
    ensures forall k :: 0 <= k < |Lines(db, o)| ==> Restockable(db, Lines(db, o)[k])
  {
    LinesExist(db, o);
    forall k | 0 <= k < |Lines(db, o)|
      ensures Restockable(db, Lines(db, o)[k])
    {
      assert Lines(db, o)[k] in Lines(db, o);
    }
  }

  /** The others' steps are admissible around the loop, leave its lines alone, and room is there in turn. */
  predicate Plan(now: Sys, ids: seq<nat>, others: seq<seq<Step>>) {
    && |others| == |ids| && AdmissibleRun(now, CancelLoop(ids, others))
    && NobodyElseRestocks(ids, others) && RoomInTurn(now, ids, others)
  }

  /** The same for a paid order reached by any admissible run. */
  lemma {:induction false} CancellingAPaidOrderUndoesIt(s: Sys, before: seq<Step>, o: nat, others: seq<seq<Step>>)
    requires Initial(s) && AdmissibleRun(s, before)
    ensures var now, ids := Run(s, before), Lines(Run(s, before).db, o);
      o < |now.db.orders| && now.db.orders[o].paidAt && NeverRestocked(now.db, ids) && Plan(now, ids, others) ==>
        && EveryRestockCommits(now, ids, others)
        && forall k :: 0 <= k < |ids| ==> NetZero(Run(now, CancelLoop(ids, others)).db, ids[k])
  {
    InitialInv(s);
    RunKeepsInv(s, before);
    var now, ids := Run(s, before), Lines(Run(s, before).db, o);
    if o < |now.db.orders| && now.db.orders[o].paidAt && NeverRestocked(now.db, ids) && Plan(now, ids, others) {
      PaidLinesAreRestockable(now.db, o);
      LinesExist(now.db, o);
      CancelIsAnInverse(now, ids, others);
    }
  }
}
