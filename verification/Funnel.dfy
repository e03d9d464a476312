/**
 The conversion funnel: cumulative step flags per session (int_funnel_steps.sql), their sums per
 day, device and source (mart_funnel_daily.sql), and the admin panel's report (db/repo/analytics.py).
 */
module Funnel {
  import opened Common
  import Sessions

  datatype Group = Group(day: int, device: string, source: string)

  /** A session as the funnel reads it. */
  datatype Visit = Visit(group: Group, row: Sessions.Row)

  /** The reached_* columns. */
  datatype Steps = Steps(view: int, product: int, cart: int, checkout: int, purchase: int) {
    function Add(other: Steps): Steps {
      Steps(view + other.view, product + other.product, cart + other.cart,
            checkout + other.checkout, purchase + other.purchase)
    }
  }

  const NOBODY := Steps(0, 0, 0, 0, 0)

  function Bit(b: bool): int {
    if b then 1 else 0
  }

  function Reached(v: Visit): Steps {
    var r := v.row;
    Steps(1,
          Bit(r.sawProduct || r.addedToCart || r.startedCheckout || r.purchased),
          Bit(r.addedToCart || r.startedCheckout || r.purchased),
          Bit(r.startedCheckout || r.purchased),
          Bit(r.purchased))
  }

  /** count(*) and sum(reached_*) over a list of sessions. */
  function Totals(vs: seq<Visit>): Steps {
    if vs == [] then NOBODY else Totals(vs[1..]).Add(Reached(vs[0]))
  }

  /** group by day, device, utm_source */
  function InGroup(vs: seq<Visit>, g: Group): seq<Visit> {
    if vs == [] then [] else (if vs[0].group == g then [vs[0]] else []) + InGroup(vs[1..], g)
  }

  predicate Monotone(s: Steps) {
    s.view >= s.product >= s.cart >= s.checkout >= s.purchase >= 0
  }

  /** No step is ever larger than the one before it, whichever events the browser sent. */
  lemma {:induction false} FunnelIsMonotone(vs: seq<Visit>)
    ensures Monotone(Totals(vs)) && Totals(vs).view == |vs|
  {
    if vs != [] { FunnelIsMonotone(vs[1..]); }
  }

  lemma {:induction false} AddPairs(a: Steps, b: Steps, c: Steps, d: Steps)
    ensures a.Add(b).Add(c.Add(d)) == a.Add(c).Add(b.Add(d))
  {}

  lemma {:induction false} AddNobody(x: Steps)
    ensures x.Add(NOBODY) == x == NOBODY.Add(x)
  {}

  /** The rows of the grouped table, added up over a list of groups. */
  function SumOverGroups(vs: seq<Visit>, gs: seq<Group>): Steps {
    if gs == [] then NOBODY else SumOverGroups(vs, gs[1..]).Add(Totals(InGroup(vs, gs[0])))
  }

  function Share(v: Visit, included: bool): Steps {
    if included then Reached(v) else NOBODY
  }

  lemma {:induction false} VisitJoinsOneRow(v: Visit, vs: seq<Visit>, g: Group)
    ensures Totals(InGroup([v] + vs, g)) == Totals(InGroup(vs, g)).Add(Share(v, v.group == g))
  {
    var all, rest := [v] + vs, InGroup(vs, g);
    assert all[0] == v && all[1..] == vs;
    if v.group == g {
      assert InGroup(all, g) == [v] + rest;
      assert ([v] + rest)[0] == v && ([v] + rest)[1..] == rest;
    } else {
      assert InGroup(all, g) == [] + rest == rest;
      AddNobody(Totals(rest));
    }
  }

  /** One more session adds itself to its own group's row and to no other. */
  lemma {:induction false} VisitJoinsItsGroup(v: Visit, vs: seq<Visit>, gs: seq<Group>)
    requires forall j, k :: 0 <= j < k < |gs| ==> gs[j] != gs[k]
    ensures SumOverGroups([v] + vs, gs) == SumOverGroups(vs, gs).Add(Share(v, v.group in gs))
    decreases |gs|
  {
    if gs == [] {
      AddNobody(NOBODY);
    } else {
      var first, later := Share(v, v.group == gs[0]), Share(v, v.group in gs[1..]);
      VisitJoinsItsGroup(v, vs, gs[1..]);
      VisitJoinsOneRow(v, vs, gs[0]);
      AddPairs(SumOverGroups(vs, gs[1..]), later, Totals(InGroup(vs, gs[0])), first);
      assert later.Add(first) == Share(v, v.group in gs) by {
        assert v.group in gs <==> v.group == gs[0] || v.group in gs[1..];
        AddNobody(first);
        AddNobody(later);
      }
    }
  }

  lemma {:induction false} NoVisits(gs: seq<Group>)
    ensures SumOverGroups([], gs) == NOBODY
  {
    if gs != [] { NoVisits(gs[1..]); }
  }

  /** Every grouping conserves every step: the groups' rows sum to the overall row. */
  lemma {:induction false} GroupsConserve(vs: seq<Visit>, gs: seq<Group>)
    requires forall j, k :: 0 <= j < k < |gs| ==> gs[j] != gs[k]
    requires forall k :: 0 <= k < |vs| ==> vs[k].group in gs
    ensures SumOverGroups(vs, gs) == Totals(vs)
    decreases |vs|
  {
    if vs == [] {
      NoVisits(gs);
    } else {
      assert vs == [vs[0]] + vs[1..];
      GroupsConserve(vs[1..], gs);
      VisitJoinsItsGroup(vs[0], vs[1..], gs);
    }
  }

  // ---------------------------------------------------------------- the report

  /** count(*) filter (where ...) */
  function CountWhere(vs: seq<Visit>, keep: Visit -> bool): int {
    if vs == [] then 0 else CountWhere(vs[1..], keep) + if keep(vs[0]) then 1 else 0
  }

  predicate Viewed(v: Visit) { v.row.sawProduct || v.row.addedToCart || v.row.startedCheckout || v.row.purchased }
  predicate Carted(v: Visit) { v.row.addedToCart || v.row.startedCheckout || v.row.purchased }
  predicate AtCheckout(v: Visit) { v.row.startedCheckout || v.row.purchased }
  predicate Bought(v: Visit) { v.row.purchased }

  /** The panel's own query: landed, viewed, carted, checkout, bought. */
  function PanelCounts(vs: seq<Visit>): Steps {
    Steps(|vs|, CountWhere(vs, Viewed), CountWhere(vs, Carted), CountWhere(vs, AtCheckout), CountWhere(vs, Bought))
  }

  /** Column by column, the filtered counts are the sums. */
  predicate SameCounts(sums: Steps, vs: seq<Visit>) {
    && sums.view == |vs| && sums.product == CountWhere(vs, Viewed) && sums.cart == CountWhere(vs, Carted)
    && sums.checkout == CountWhere(vs, AtCheckout) && sums.purchase == CountWhere(vs, Bought)
  }

  /** The panel's counts are the mart's sums. */
  lemma {:induction false} PanelAgreesWithMart(vs: seq<Visit>)
    ensures SameCounts(Totals(vs), vs)
  {
    if vs != [] { PanelAgreesWithMart(vs[1..]); }
  }

  /** One bar of the report. */
  datatype Bar = Bar(name: string, value: int, pctOfTop: real, drop: int, dropPct: real)

  const LABELS: seq<string> := ["Landed", "Viewed a product", "Added to cart", "Started checkout", "Bought"]

  function Values(row: Steps): seq<int> {
    [row.view, row.product, row.cart, row.checkout, row.purchase]
  }

  function Percent(part: int, whole: int): real
    requires whole != 0
  {
    100.0 * part as real / whole as real
  }

  /** `shown` is `x` rounded to one decimal; which way a tie goes is left open. */
  predicate Rounded(x: real, shown: real) {
    (shown * 10.0).Floor as real == shown * 10.0 && -0.05 <= shown - x <= 0.05
  }

  function RoundTenth(x: real): (shown: real)
    ensures Rounded(x, shown)
  {
    var n := (x * 10.0 + 0.5).Floor;
    assert (n as real / 10.0) * 10.0 == n as real;
    n as real / 10.0
  }

  lemma {:induction false} RoundedBounds(x: real, shown: real)
    requires Rounded(x, shown) && 0.0 <= x <= 100.0
    ensures 0.0 <= shown <= 100.0
  {
    var n := (shown * 10.0).Floor;
    assert -1 < n < 1001;
  }

  /** Bar i is measured against the first bar and against the bar before it. */
  predicate IsBar(values: seq<int>, i: nat, bar: Bar)
    requires i < |values| && |values| == |LABELS|
  {
    && bar.name == LABELS[i] && bar.value == values[i]
    && Rounded(Percent(values[i], if values[0] == 0 then 1 else values[0]), bar.pctOfTop)
    && bar.drop == (if i == 0 then 0 else values[i - 1] - values[i])
    && if i == 0 || values[i - 1] == 0 then bar.dropPct == 0.0
       else Rounded(Percent(values[i - 1] - values[i], values[i - 1]), bar.dropPct)
  }

  predicate IsReport(row: Steps, out: seq<Bar>) {
    |out| == |LABELS| && forall i :: 0 <= i < |out| ==> IsBar(Values(row), i, out[i])
  }

  /** No row (the mart is not built yet) gives an empty report. */
  method Report(found: Option<Steps>) returns (out: seq<Bar>)
    ensures found.None? ==> out == []
    ensures found.Some? ==> IsReport(found.value, out)
  {
    if found.None? {
      return [];
    }
    var steps := Values(found.value);
    var top := if steps[0] == 0 then 1 else steps[0];
    out := [];
    for i := 0 to |steps|
      invariant |out| == i && forall k :: 0 <= k < i ==> IsBar(steps, k, out[k])
    {
      var value := steps[i];
      var previous := if i > 0 then steps[i - 1] else value;
      var dropPct := if i > 0 && previous != 0 then RoundTenth(Percent(previous - value, previous)) else 0.0;
      out := out + [Bar(LABELS[i], value, RoundTenth(Percent(value, top)), if i > 0 then previous - value else 0, dropPct)];
    }
  }

  function SumOfDrops(out: seq<Bar>): int {
    if out == [] then 0 else SumOfDrops(out[..|out| - 1]) + out[|out| - 1].drop
  }

  lemma {:induction false} DropsTelescope(row: Steps, out: seq<Bar>, n: nat)
    requires IsReport(row, out) && 0 < n <= |out|
    ensures SumOfDrops(out[..n]) == out[0].value - out[n - 1].value
  {
    assert IsBar(Values(row), n - 1, out[n - 1]) && IsBar(Values(row), 0, out[0]);
    assert out[..n][..n - 1] == out[..n - 1];
    if n > 1 {
      assert IsBar(Values(row), n - 2, out[n - 2]);
      DropsTelescope(row, out, n - 1);
    } else {
      assert out[..0] == [];
    }
  }

  lemma {:induction false} PercentBounds(part: int, whole: int)
    requires 0 <= part <= whole && whole > 0
    ensures 0.0 <= Percent(part, whole) <= 100.0
  {
    assert part as real / whole as real <= 1.0;
  }

  /** The report of any sessions loses nobody: drops are nonnegative and, with the buyers, add up to the landed. */
  lemma {:induction false} ReportConserves(vs: seq<Visit>, out: seq<Bar>)
    requires IsReport(PanelCounts(vs), out)
    ensures forall i :: 0 <= i < |out| ==>
      out[i].drop >= 0 && 0.0 <= out[i].pctOfTop <= 100.0 && 0.0 <= out[i].dropPct <= 100.0
    ensures SumOfDrops(out) + CountWhere(vs, Bought) == |vs|
  {
    var row := PanelCounts(vs);
    PanelAgreesWithMart(vs);
    FunnelIsMonotone(vs);
    DropsTelescope(row, out, |out|);
    assert out[..|out|] == out;
    assert IsBar(Values(row), 4, out[4]) && IsBar(Values(row), 0, out[0]);
    forall i | 0 <= i < |out|
      ensures out[i].drop >= 0 && 0.0 <= out[i].pctOfTop <= 100.0 && 0.0 <= out[i].dropPct <= 100.0
    {
      var values := Values(row);
      assert IsBar(values, i, out[i]);
      BarBounds(values, i, out[i]);
    }
  }

  lemma {:induction false} BarBounds(values: seq<int>, i: nat, bar: Bar)
    requires i < |values| && |values| == |LABELS| && IsBar(values, i, bar)
    requires values[0] >= values[1] >= values[2] >= values[3] >= values[4] >= 0
    ensures bar.drop >= 0 && 0.0 <= bar.pctOfTop <= 100.0 && 0.0 <= bar.dropPct <= 100.0
  {
    assert values[i] <= values[0];
    if values[0] != 0 { PercentBounds(values[i], values[0]); }
    RoundedBounds(Percent(values[i], if values[0] == 0 then 1 else values[0]), bar.pctOfTop);
    if i > 0 && values[i - 1] != 0 {
      PercentBounds(values[i - 1] - values[i], values[i - 1]);
      RoundedBounds(Percent(values[i - 1] - values[i], values[i - 1]), bar.dropPct);
    }
  }
}
