/**
 What the callers are asked to do, as separate conditions on one step. The code enforces none of
 them, so each theorem takes only those it needs.
 */
module StoreDiscipline {
  import opened Inventory
  import opened StoreModel
  import opened StoreRuns
  import opened StoreBooks
  import opened StorePhases

  /** mark_paid is not repeated once money went back. */
  predicate PaysOnce(s: Sys, step: Step) {
    step.DoMarkPaid? && step.order < |s.db.orders| ==>
      s.db.orders[step.order].payment == Unpaid || s.db.orders[step.order].payment == Paid
  }

  /** A line goes to `printing` only with its reservation outstanding, or consumed already. */
  predicate PrintsReserved(s: Sys, step: Step) {
    step.DoSetStation? && step.to == Printing && step.item in s.db.items ==> CanConsume(s.db, step.item)
  }

  /** A restock uses one of the callers' two reasons and waits for a consume call in flight. */
  predicate RestocksInTurn(s: Sys, step: Step) {
    step.DoRestock? ==> RestockReason(step.reason) && step.item !in s.calls
  }

  predicate Admissible(s: Sys, step: Step) {
    AppStep(step) && PaysOnce(s, step) && PrintsReserved(s, step) && RestocksInTurn(s, step)
  }

  predicate AdmissibleRun(s: Sys, steps: seq<Step>)
    decreases |steps|
  {
    steps == [] || (Admissible(s, steps[0]) && AdmissibleRun(Exec(s, steps[0]), steps[1..]))
  }

  /** Any run of the application in which no order is paid again after a refund. */
  predicate UnrepaidRun(s: Sys, steps: seq<Step>)
    decreases |steps|
  {
    steps == [] || (AppStep(steps[0]) && PaysOnce(s, steps[0]) && UnrepaidRun(Exec(s, steps[0]), steps[1..]))
  }

  /** No restock forges this reason; the callers pass only the two of RestockReason. */
  predicate NeverRestocksAs(steps: seq<Step>, reason: Reason) {
    forall k :: 0 <= k < |steps| ==> steps[k].DoRestock? ==> steps[k].reason != reason
  }

  lemma {:induction false} UnrepaidIsApp(s: Sys, steps: seq<Step>)
    requires UnrepaidRun(s, steps)
    ensures AppRun(steps)
    decreases |steps|
  {
    if steps != [] {
      UnrepaidIsApp(Exec(s, steps[0]), steps[1..]);
      assert forall k :: 1 <= k < |steps| ==> steps[k] == steps[1..][k - 1];
    }
  }

  lemma {:induction false} AdmissibleIsUnrepaid(s: Sys, steps: seq<Step>)
    requires AdmissibleRun(s, steps)
    ensures UnrepaidRun(s, steps) && NeverRestocksAs(steps, Reserve) && NeverRestocksAs(steps, Consume)
    decreases |steps|
  {
    if steps != [] {
      AdmissibleIsUnrepaid(Exec(s, steps[0]), steps[1..]);
      assert forall k :: 1 <= k < |steps| ==> steps[k] == steps[1..][k - 1];
    }
  }
}
