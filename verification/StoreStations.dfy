/**
 The stations of the production board (db/repo/admin.py, db/migrations/20260805000002_enums.sql): the
 two lists the code is written from, which moves the board accepts, and the path a line takes.
 */
module StoreStations {
  import opened Common
  import opened StoreModel
  import opened StoreRuns
  import opened StoreBooks
  import opened StorePaths

  /** STATION_ORDER */
  const STATIONS: seq<Station> := [Queued, Printing, Printed, Mounting, Framing, Qc, Packed]

  /** The labels of the enum prod_status, in the order of its declaration. */
  const DECLARED: seq<Station> :=
    [Queued, Blocked, Printing, Printed, Mounting, Framing, Qc, Reprint, Packed, Cancelled]

  /** `to` is the station right behind `from`. */
  predicate Follows(from: Station, to: Station) {
    exists k :: 0 <= k < |STATIONS| - 1 && STATIONS[k] == from && STATIONS[k + 1] == to
  }

  /** The set `allowed` of advance_item. */
  predicate MayMove(from: Station, to: Station) {
    || Follows(from, to)
    || to == Blocked || to == Cancelled || to == Reprint
    || (from == Blocked && to in STATIONS)
    || (from == Reprint && to == Printing)
  }

  lemma {:induction false} NextFollows(from: Station, to: Station)
    ensures NextStation(from) == Some(to) <==> Follows(from, to)
  {
    if NextStation(from) == Some(to) {
      var k := if from.Queued? then 0 else if from.Printing? then 1 else if from.Printed? then 2
               else if from.Mounting? then 3 else if from.Framing? then 4 else 5;
      assert STATIONS[k] == from && STATIONS[k + 1] == to;
    }
  }

  lemma {:induction false} LegalIffMayMove(from: Station, to: Station)
    ensures Legal(from, to) <==> MayMove(from, to)
  {
    NextFollows(from, to);
  }

  /** The move happened: this line's station changed, and of the rest at most its order's rollup. */
  predicate Moved(db: Db, d: Db, i: nat, to: Station)
    requires i in db.items
  {
    var o := db.items[i].fin.order;
    && d == db.(items := d.items, orders := d.orders)
    && d.items == db.items[i := db.items[i].(status := to)]
    && |d.orders| == |db.orders|
    && (forall k :: 0 <= k < |db.orders| && k != o ==> d.orders[k] == db.orders[k])
    && (o < |db.orders| ==> d.orders[o] == db.orders[o].(rollup := LeastAdvanced(d.items, Lines(d, o))))
  }

  /** What advance_item's first transaction accepts, and what it then does. */
  lemma {:induction false} MoveCommitsIff(db: Db, i: nat, to: Station)
    ensures i !in db.items ==> SetStation(db, i, to) == Err(NotFound)
    ensures i in db.items && !MayMove(db.items[i].status, to) ==> SetStation(db, i, to) == Err(IllegalTransition)
    ensures i in db.items && MayMove(db.items[i].status, to) ==>
      SetStation(db, i, to).Ok? && Moved(db, SetStation(db, i, to).value, i, to)
  {
    if i in db.items { LegalIffMayMove(db.items[i].status, to); }
  }

  /** Along the list the board moves one station at a time, and only forwards. */
  lemma {:induction false} OneStationAtATime(db: Db, i: nat, j: nat, k: nat)
    requires i in db.items && j < |STATIONS| && k < |STATIONS| && db.items[i].status == STATIONS[j]
    ensures SetStation(db, i, STATIONS[k]).Ok? <==> k == j + 1
  {
    MoveCommitsIff(db, i, STATIONS[k]);
    if k == j + 1 { assert Follows(STATIONS[j], STATIONS[k]); }
  }

  /** The rollup is the live station declared first: no live line stands at one declared before it. */
  lemma {:induction false} RollupIsFirstDeclared(items: map<nat, Item>, ids: seq<nat>, j: nat)
    requires j < |DECLARED| && LeastAdvanced(items, ids) == Some(DECLARED[j])
    ensures exists k :: 0 <= k < |ids| && ids[k] in items && items[ids[k]].status == DECLARED[j] != Cancelled
    ensures forall k, h :: 0 <= k < |ids| && ids[k] in items && 0 <= h < j ==> items[ids[k]].status != DECLARED[h]
  {
    LeastAdvancedIsLeast(items, ids);
    assert forall h :: 0 <= h < |DECLARED| ==> DECLARED[h].Rank() == h;
  }

  // ---------------------------------------------------------------- paths

  /** The stations a line was moved to, oldest first, by the moves of this run that committed. */
  function Trace(s: Sys, steps: seq<Step>, i: nat): seq<Station>
    decreases |steps|
  {
    if steps == [] then []
    else
      (if steps[0].DoSetStation? && steps[0].item == i && SetStation(s.db, i, steps[0].to).Ok? then [steps[0].to] else [])
      + Trace(Exec(s, steps[0]), steps[1..], i)
  }

  predicate MovesLine(s: Sys, step: Step, i: nat) {
    step.DoSetStation? && step.item == i && SetStation(s.db, i, step.to).Ok?
  }

  /** One step for one line: moved as the board allows, or left where it is, or its order cancelled, or just placed. */
  predicate StepFor(s: Sys, step: Step, i: nat) {
    var t := Exec(s, step);
    && WellKeyed(t.db)
    && (i in s.db.items ==> i in t.db.items)
    && (MovesLine(s, step, i) ==>
          i in s.db.items && MayMove(s.db.items[i].status, step.to) && i in t.db.items && t.db.items[i].status == step.to)
    && (!MovesLine(s, step, i) && i in s.db.items ==>
          t.db.items[i].status == s.db.items[i].status || t.db.items[i].status == Cancelled)
    && (i !in s.db.items && i in t.db.items ==> t.db.items[i].status == Queued)
  }

  lemma {:induction false} StepMovesALine(s: Sys, step: Step, i: nat)
    requires WellKeyed(s.db) && AppStep(step)
    ensures StepFor(s, step, i)
  {
    ExecCommitsOrNot(s, step);
    if step.DoSetStation? {
      MoveCommitsIff(s.db, step.item, step.to);
      if SetStation(s.db, step.item, step.to).Ok? { SetStationIsPathStep(s.db, step.item, step.to); }
    } else if step.DoPlaceOrder? {
      if Attempt(s.db, step).Ok? {
        var ps, t := PlaceOrderCommits(s.db, step);
        PlacedIsPathStep(s.db, ps, t);
      }
    } else if WritesLedger(step) {
      LedgerStepIsPathStep(s.db, step);
    } else if step.DoRefund? || step.DoCancelOrder? {
      OrderStepIsPathStep(s.db, step);
    }
  }

  /** Never blocked, never sent back. */
  predicate Calm(trace: seq<Station>) {
    Blocked !in trace && Reprint !in trace
  }

  lemma {:induction false} TraceTail(s: Sys, steps: seq<Step>, i: nat)
    requires steps != [] && Calm(Trace(s, steps, i))
    ensures Calm(Trace(Exec(s, steps[0]), steps[1..], i))
    ensures MovesLine(s, steps[0], i) ==>
      Trace(s, steps, i) == [steps[0].to] + Trace(Exec(s, steps[0]), steps[1..], i) && steps[0].to != Blocked && steps[0].to != Reprint
    ensures !MovesLine(s, steps[0], i) ==> Trace(s, steps, i) == Trace(Exec(s, steps[0]), steps[1..], i)
  {
    var rest := Trace(Exec(s, steps[0]), steps[1..], i);
    if MovesLine(s, steps[0], i) {
      assert Trace(s, steps, i) == [steps[0].to] + rest;
    } else {
      assert Trace(s, steps, i) == rest;
    }
    assert forall x :: x in rest ==> x in Trace(s, steps, i);
  }

  lemma {:induction false} AppTail(steps: seq<Step>)
    requires steps != [] && AppRun(steps)
    ensures AppStep(steps[0]) && AppRun(steps[1..])
  {
    assert forall k :: 0 <= k < |steps[1..]| ==> steps[1..][k] == steps[k + 1];
  }

  /** From `cancelled` the only ways out are `blocked` and `reprint`. */
  lemma {:induction false} CancelledStays(s: Sys, steps: seq<Step>, i: nat)
    requires WellKeyed(s.db) && AppRun(steps) && Calm(Trace(s, steps, i))
    requires i in s.db.items && s.db.items[i].status == Cancelled
    ensures i in Run(s, steps).db.items && Run(s, steps).db.items[i].status == Cancelled
    decreases |steps|
  {
    if steps != [] {
      AppTail(steps);
      TraceTail(s, steps, i);
      StepMovesALine(s, steps[0], i);
      CancelledStays(Exec(s, steps[0]), steps[1..], i);
    }
  }

  lemma {:induction false} NextInLine(m: nat, to: Station)
    requires m < |STATIONS| && MayMove(STATIONS[m], to) && to != Blocked && to != Cancelled && to != Reprint
    ensures m + 1 < |STATIONS| && to == STATIONS[m + 1]
  {
    assert Follows(STATIONS[m], to);
  }

  lemma {:induction false} StationsDiffer(m: nat, n: nat)
    requires m < |STATIONS| && n < |STATIONS| && STATIONS[m] == STATIONS[n]
    ensures m == n && STATIONS[m + 1..n + 1] == []
  {}

  lemma {:induction false} Between(m: nat, n: nat)
    requires m + 1 <= n < |STATIONS|
    ensures [STATIONS[m + 1]] + STATIONS[m + 2..n + 1] == STATIONS[m + 1..n + 1]
  {}

  /** The line stands at station m, or is not placed yet, as if at the first. */
  predicate At(db: Db, i: nat, m: nat)
    requires m < |STATIONS|
  {
    if i in db.items then db.items[i].status == STATIONS[m] else m == 0
  }

  /** A calm step leaves the line where it is, moves it one station, or cancels it. */
  lemma {:induction false} CalmStep(s: Sys, step: Step, i: nat, m: nat)
    requires m < |STATIONS| && At(s.db, i, m) && StepFor(s, step, i)
    requires MovesLine(s, step, i) ==> step.to != Blocked && step.to != Reprint
    ensures var t := Exec(s, step);
      || (i in t.db.items && t.db.items[i].status == Cancelled)
      || (!MovesLine(s, step, i) && At(t.db, i, m))
      || (MovesLine(s, step, i) && m + 1 < |STATIONS| && step.to == STATIONS[m + 1] && At(t.db, i, m + 1))
  {
    if MovesLine(s, step, i) && step.to != Cancelled { NextInLine(m, step.to); }
  }

  predicate EndsAt(s: Sys, steps: seq<Step>, i: nat, n: nat)
    requires n < |STATIONS|
  {
    var t := Run(s, steps).db;
    i in t.items && t.items[i].status == STATIONS[n]
  }

  lemma {:induction false} NotCancelledBefore(s: Sys, steps: seq<Step>, i: nat, n: nat)
    requires n < |STATIONS| && EndsAt(s, steps, i, n)
    requires WellKeyed(s.db) && AppRun(steps) && Calm(Trace(s, steps, i))
    ensures !(i in s.db.items && s.db.items[i].status == Cancelled)
  {
    if i in s.db.items && s.db.items[i].status == Cancelled { CancelledStays(s, steps, i); }
  }

  /** A line at station m, or not placed yet, whose run ends at station n went through exactly those in between. */
  lemma {:induction false} PathFrom(s: Sys, steps: seq<Step>, i: nat, m: nat, n: nat)
    requires m < |STATIONS| && n < |STATIONS|
    requires WellKeyed(s.db) && AppRun(steps) && Calm(Trace(s, steps, i)) && At(s.db, i, m)
    requires EndsAt(s, steps, i, n)
    ensures m <= n && Trace(s, steps, i) == STATIONS[m + 1..n + 1]
    decreases |steps|
  {
    if steps == [] {
      StationsDiffer(m, n);
    } else {
      var t := Exec(s, steps[0]);
      AppTail(steps);
      TraceTail(s, steps, i);
      StepMovesALine(s, steps[0], i);
      CalmStep(s, steps[0], i, m);
      NotCancelledBefore(t, steps[1..], i, n);
      if MovesLine(s, steps[0], i) {
        PathFrom(t, steps[1..], i, m + 1, n);
        Between(m, n);
      } else {
        PathFrom(t, steps[1..], i, m, n);
      }
    }
  }

  /**
   In every application run: a line that stands at a station of the list and was never blocked or
   sent to reprint was moved to every station before it, once each and in order, and to no other.
   */
  lemma {:induction false} LineWentThroughEveryStation(s: Sys, steps: seq<Step>, i: nat, n: nat)
    requires Initial(s) && AppRun(steps) && n < |STATIONS|
    ensures EndsAt(s, steps, i, n) && Calm(Trace(s, steps, i)) ==> Trace(s, steps, i) == STATIONS[1..n + 1]
  {
    if EndsAt(s, steps, i, n) && Calm(Trace(s, steps, i)) { PathFrom(s, steps, i, 0, n); }
  }

  lemma {:induction false} PackedWentThroughEveryStation(s: Sys, steps: seq<Step>, i: nat)
    requires Initial(s) && AppRun(steps)
    ensures var t := Run(s, steps);
      i in t.db.items && t.db.items[i].status == Packed && Calm(Trace(s, steps, i)) ==>
        Trace(s, steps, i) == [Printing, Printed, Mounting, Framing, Qc, Packed]
  {
    LineWentThroughEveryStation(s, steps, i, 6);
  }
}
