/**
 Sessionization (dbt/models/staging/stg_sessions.sql): within one session_id, an event more than
 the session gap after its predecessor starts a new session, and the running sum of those starts
 numbers the sessions. Compared here with a one-pass greedy grouping, with the grouping's defining
 property, and with a closed form that does not mention any order.
 */
module Sessions {
  import opened Common

  /** The columns the model groups by, orders by and aggregates; `at` is in seconds. */
  datatype Event = Event(id: nat, session: nat, at: int, name: string)

  const SESSION_GAP: int := 30 * 60

  predicate Sorted(es: seq<Event>) {
    forall j, k :: 0 <= j < k < |es| ==> es[j].at <= es[k].at
  }

  // ---------------------------------------------------------------- the window expressions

  /** lag(occurred_at) over (partition by session_id order by occurred_at) */
  function PreviousAt(es: seq<Event>, i: nat): Option<int>
    requires i < |es|
  {
    if i == 0 then None else Some(es[i - 1].at)
  }

  function IsNewSession(es: seq<Event>, i: nat): nat
    requires i < |es|
  {
    var previous := PreviousAt(es, i);
    if previous.None? || es[i].at - previous.value > SESSION_GAP then 1 else 0
  }

  /** sum(is_new_session) over (... rows between unbounded preceding and current row) */
  function SessionSeq(es: seq<Event>, i: nat): nat
    requires i < |es|
  {
    (if i == 0 then 0 else SessionSeq(es, i - 1)) + IsNewSession(es, i)
  }

  function SessionCount(es: seq<Event>): nat {
    if es == [] then 0 else SessionSeq(es, |es| - 1)
  }

  /** group by session_id, session_seq: the events of session k, in order. */
  function InSession(es: seq<Event>, k: nat): seq<Event> {
    if es == [] then []
    else InSession(es[..|es| - 1], k) + if SessionSeq(es, |es| - 1) == k then [es[|es| - 1]] else []
  }

  /** The model's groups, in session_seq order. */
  function Grouped(es: seq<Event>): (groups: seq<seq<Event>>)
    ensures |groups| == SessionCount(es)
    ensures forall k :: 0 <= k < |groups| ==> groups[k] == InSession(es, k + 1)
  {
    seq(SessionCount(es), k requires 0 <= k => InSession(es, k + 1))
  }

  lemma {:induction false} SeqOfPrefix(es: seq<Event>, n: nat, i: nat)
    requires i < n <= |es|
    ensures SessionSeq(es[..n], i) == SessionSeq(es, i)
    decreases i
  {
    if i > 0 { SeqOfPrefix(es, n, i - 1); }
  }

  // ---------------------------------------------------------------- the greedy grouping

  /** One pass: each event joins the last session or opens the next one. */
  function Greedy(es: seq<Event>): seq<seq<Event>> {
    if es == [] then []
    else
      var n := |es| - 1;
      var done := Greedy(es[..n]);
      if done == [] || es[n].at - es[n - 1].at > SESSION_GAP then done + [[es[n]]]
      else done[..|done| - 1] + [done[|done| - 1] + [es[n]]]
  }

  lemma {:induction false} GreedyNonempty(es: seq<Event>)
    ensures Greedy(es) == [] <==> es == []
  {}

  lemma {:induction false} CountOfPrefix(es: seq<Event>)
    requires es != []
    ensures SessionCount(es) == SessionCount(es[..|es| - 1]) + IsNewSession(es, |es| - 1)
  {
    if |es| > 1 { SeqOfPrefix(es, |es| - 1, |es| - 2); }
  }

  lemma {:induction false} NumbersRunFromOne(es: seq<Event>, i: nat)
    requires i < |es|
    ensures 1 <= SessionSeq(es, i) <= SessionCount(es)
    decreases |es| - i
  {
    if i == |es| - 1 {
      FirstIsOne(es, i);
    } else {
      NumbersRunFromOne(es, i + 1);
      FirstIsOne(es, i);
    }
  }

  lemma {:induction false} FirstIsOne(es: seq<Event>, i: nat)
    requires i < |es|
    ensures SessionSeq(es, i) >= 1
  {
    if i > 0 { FirstIsOne(es, i - 1); }
  }

  lemma {:induction false} BeyondTheLast(es: seq<Event>, k: nat)
    requires k > SessionCount(es)
    ensures InSession(es, k) == []
    decreases |es|
  {
    if es != [] {
      CountOfPrefix(es);
      BeyondTheLast(es[..|es| - 1], k);
    }
  }

  /** One more event extends the last group or adds one, by its own flag. */
  lemma {:induction false} GroupedLast(es: seq<Event>)
    requires es != []
    ensures var n := |es| - 1;
      var was := Grouped(es[..n]);
      Grouped(es) == if was == [] || IsNewSession(es, n) == 1 then was + [[es[n]]]
                     else was[..|was| - 1] + [was[|was| - 1] + [es[n]]]
  {
    var n := |es| - 1;
    var was, now := Grouped(es[..n]), Grouped(es);
    CountOfPrefix(es);
    if n > 0 { FirstIsOne(es[..n], n - 1); }
    BeyondTheLast(es[..n], SessionCount(es[..n]) + 1);
    forall k | 0 <= k < |now|
      ensures now[k] == if k < |now| - 1 then was[k] else (if k < |was| then was[k] else []) + [es[n]]
    {
      assert now[k] == InSession(es, k + 1);
      assert k < |was| ==> was[k] + [] == was[k];
    }
    assert [] + [es[n]] == [es[n]];
    if was == [] || IsNewSession(es, n) == 1 {
      assert |now| == |was| + 1;
      assert now == was + [[es[n]]];
    } else {
      assert |now| == |was|;
      assert now == was[..|was| - 1] + [was[|was| - 1] + [es[n]]];
    }
  }

  /** Grouping by the running sum is the greedy grouping: session k is its k-th group. */
  lemma {:induction false} WindowIsGreedy(es: seq<Event>)
    ensures Grouped(es) == Greedy(es)
    decreases |es|
  {
    if es != [] {
      var n := |es| - 1;
      WindowIsGreedy(es[..n]);
      GroupedLast(es);
      GreedyNonempty(es[..n]);
    }
  }

  // ---------------------------------------------------------------- what a sessionization is

  function Flatten(parts: seq<seq<Event>>): seq<Event> {
    if parts == [] then [] else Flatten(parts[..|parts| - 1]) + parts[|parts| - 1]
  }

  predicate Close(part: seq<Event>) {
    part != [] && forall j :: 0 < j < |part| ==> part[j].at - part[j - 1].at <= 1800
  }

  predicate Apart(a: seq<Event>, b: seq<Event>) {
    a != [] && b != [] ==> b[0].at - a[|a| - 1].at > 1800
  }

  /** The sessions partition the events; gaps inside are at most 30 minutes, between are larger. */
  predicate IsSessionization(parts: seq<seq<Event>>, es: seq<Event>) {
    && Flatten(parts) == es
    && (forall k :: 0 <= k < |parts| ==> Close(parts[k]))
    && forall k :: 0 < k < |parts| ==> Apart(parts[k - 1], parts[k])
  }

  lemma {:induction false} FlattenLast(parts: seq<seq<Event>>, part: seq<Event>)
    ensures Flatten(parts + [part]) == Flatten(parts) + part
  {
    assert (parts + [part])[..|parts|] == parts;
  }

  lemma {:induction false} EndsTogether(parts: seq<seq<Event>>, es: seq<Event>)
    requires IsSessionization(parts, es) && es != []
    ensures parts != [] && parts[|parts| - 1][|parts[|parts| - 1]| - 1] == es[|es| - 1]
  {
    assert Close(parts[|parts| - 1]);
  }

  lemma {:induction false} OpenNext(parts: seq<seq<Event>>, es: seq<Event>, e: Event)
    requires IsSessionization(parts, es)
    requires es != [] ==> e.at - es[|es| - 1].at > SESSION_GAP
    ensures IsSessionization(parts + [[e]], es + [e])
  {
    var next := parts + [[e]];
    FlattenLast(parts, [e]);
    assert Close([e]);
    if es == [] {
      PartsAreNonempty(parts);
      assert next == [[e]];
    } else {
      EndsTogether(parts, es);
      assert Apart(parts[|parts| - 1], [e]);
      assert forall k :: 0 <= k < |next| ==> next[k] == if k < |parts| then parts[k] else [e];
    }
  }

  lemma {:induction false} PartsAreNonempty(parts: seq<seq<Event>>)
    requires forall k :: 0 <= k < |parts| ==> Close(parts[k])
    ensures |Flatten(parts)| >= |parts|
    decreases |parts|
  {
    if parts != [] {
      assert Close(parts[|parts| - 1]);
      PartsAreNonempty(parts[..|parts| - 1]);
    }
  }

  lemma {:induction false} ExtendLast(parts: seq<seq<Event>>, es: seq<Event>, e: Event)
    requires IsSessionization(parts, es) && es != [] && parts != []
    requires e.at - es[|es| - 1].at <= SESSION_GAP
    ensures IsSessionization(parts[..|parts| - 1] + [parts[|parts| - 1] + [e]], es + [e])
  {
    var m := |parts| - 1;
    var last := parts[m] + [e];
    EndsTogether(parts, es);
    FlattenLast(parts[..m], last);
    assert Close(parts[m]);
    assert Close(last);
    assert m > 0 ==> Apart(parts[m - 1], parts[m]);
  }

  /** The greedy groups are a sessionization ... */
  lemma {:induction false} GreedySessionizes(es: seq<Event>)
    ensures IsSessionization(Greedy(es), es)
    decreases |es|
  {
    if es != [] {
      var n := |es| - 1;
      var done := Greedy(es[..n]);
      GreedySessionizes(es[..n]);
      GreedyNonempty(es[..n]);
      assert es == es[..n] + [es[n]];
      if done == [] || es[n].at - es[n - 1].at > SESSION_GAP {
        OpenNext(done, es[..n], es[n]);
      } else {
        ExtendLast(done, es[..n], es[n]);
      }
    }
  }

  lemma {:induction false} DropLast(parts: seq<seq<Event>>, es: seq<Event>) returns (front: seq<seq<Event>>)
    requires IsSessionization(parts, es) && es != []
    ensures parts != [] && IsSessionization(front, es[..|es| - 1])
    ensures front == if |parts[|parts| - 1]| == 1 then parts[..|parts| - 1]
                     else parts[..|parts| - 1] + [parts[|parts| - 1][..|parts[|parts| - 1]| - 1]]
  {
    EndsTogether(parts, es);
    var m := |parts| - 1;
    var last := parts[m];
    assert Close(last);
    assert es == Flatten(parts[..m]) + last;
    if |last| == 1 {
      front := parts[..m];
    } else {
      var shorter := last[..|last| - 1];
      front := parts[..m] + [shorter];
      FlattenLast(parts[..m], shorter);
      assert Close(shorter);
      assert m > 0 ==> Apart(parts[m - 1], last);
    }
  }

  /** ... and the only one. */
  lemma {:induction false} SessionizationIsUnique(parts: seq<seq<Event>>, es: seq<Event>)
    requires IsSessionization(parts, es)
    ensures parts == Greedy(es)
    decreases |es|
  {
    if es == [] {
      PartsAreNonempty(parts);
    } else {
      var n := |es| - 1;
      EndsTogether(parts, es);
      var front := DropLast(parts, es);
      SessionizationIsUnique(front, es[..n]);
      LastStep(parts, es, front);
    }
  }

  lemma {:induction false} LastStep(parts: seq<seq<Event>>, es: seq<Event>, front: seq<seq<Event>>)
    requires IsSessionization(parts, es) && es != [] && parts != []
    requires front == if |parts[|parts| - 1]| == 1 then parts[..|parts| - 1]
                      else parts[..|parts| - 1] + [parts[|parts| - 1][..|parts[|parts| - 1]| - 1]]
    requires IsSessionization(front, es[..|es| - 1]) && front == Greedy(es[..|es| - 1])
    ensures parts == Greedy(es)
  {
    var n, m := |es| - 1, |parts| - 1;
    var last := parts[m];
    EndsTogether(parts, es);
    GreedyNonempty(es[..n]);
    assert Close(last);
    if n > 0 { EndsTogether(front, es[..n]); }
    if |last| == 1 {
      assert last == [es[n]] && parts == front + [[es[n]]];
      assert m > 0 ==> Apart(parts[m - 1], last);
    } else {
      assert last == last[..|last| - 1] + [es[n]];
      assert parts == front[..m] + [front[m] + [es[n]]];
    }
  }

  /** The model's sessions are the one sessionization of the ordered events. */
  lemma {:induction false} SessionsAreTheSessionization(es: seq<Event>, parts: seq<seq<Event>>)
    ensures IsSessionization(parts, es) <==> parts == Grouped(es)
  {
    WindowIsGreedy(es);
    GreedySessionizes(es);
    if IsSessionization(parts, es) { SessionizationIsUnique(parts, es); }
  }

  // ---------------------------------------------------------------- arrival order

  function Times(es: seq<Event>): set<int> {
    set k | 0 <= k < |es| :: es[k].at
  }

  predicate StartsSession(times: set<int>, t: int) {
    forall u :: u in times && u < t ==> t - u > SESSION_GAP
  }

  function StartsUpTo(times: set<int>, t: int): set<int> {
    set u | u in times && u <= t && StartsSession(times, u)
  }

  lemma {:induction false} StartsAdvance(es: seq<Event>, i: nat)
    requires Sorted(es) && 0 < i < |es|
    ensures StartsUpTo(Times(es), es[i].at)
         == StartsUpTo(Times(es), es[i - 1].at) + if IsNewSession(es, i) == 1 then {es[i].at} else {}
    ensures IsNewSession(es, i) == 1 ==> es[i].at !in StartsUpTo(Times(es), es[i - 1].at)
  {
    var times := Times(es);
    assert es[i].at in times && es[i - 1].at in times;
    forall u | u in times && u < es[i].at
      ensures u <= es[i - 1].at
    {
      var k :| 0 <= k < |es| && es[k].at == u;
    }
    assert StartsSession(times, es[i].at) && es[i - 1].at < es[i].at <==> IsNewSession(es, i) == 1;
  }

  lemma {:induction false} FirstStarts(es: seq<Event>)
    requires Sorted(es) && es != []
    ensures StartsUpTo(Times(es), es[0].at) == {es[0].at}
  {
    var times, t := Times(es), es[0].at;
    assert t in times;
    forall u | u in times && u <= t
      ensures u == t
    {
      var k :| 0 <= k < |es| && es[k].at == u;
    }
    assert StartsSession(times, t);
  }

  lemma {:induction false} OneMoreStart(es: seq<Event>, i: nat)
    requires Sorted(es) && 0 < i < |es|
    ensures |StartsUpTo(Times(es), es[i].at)| == |StartsUpTo(Times(es), es[i - 1].at)| + IsNewSession(es, i)
  {
    StartsAdvance(es, i);
    var before := StartsUpTo(Times(es), es[i - 1].at);
    assert IsNewSession(es, i) != 1 ==> before + {} == before;
  }

  /** An event's number is how many session starts there are up to its time: no order is involved. */
  lemma {:induction false} SeqCountsStarts(es: seq<Event>, i: nat)
    requires Sorted(es) && i < |es|
    ensures SessionSeq(es, i) == |StartsUpTo(Times(es), es[i].at)|
    decreases i
  {
    if i == 0 {
      FirstStarts(es);
    } else {
      SeqCountsStarts(es, i - 1);
      OneMoreStart(es, i);
    }
  }

  /** The rows of one session_id, in arrival order. */
  function Of(table: seq<Event>, session: nat): seq<Event> {
    if table == [] then []
    else Of(table[..|table| - 1], session) + if table[|table| - 1].session == session then [table[|table| - 1]] else []
  }

  /** An order the window may see: sorted by time, ties any way. */
  predicate Arrangement(es: seq<Event>, table: seq<Event>, session: nat) {
    Sorted(es) && multiset(es) == multiset(Of(table, session))
  }

  lemma {:induction false} OfCounts(table: seq<Event>, session: nat, e: Event)
    ensures multiset(Of(table, session))[e] == if e.session == session then multiset(table)[e] else 0
    decreases |table|
  {
    if table != [] {
      OfCounts(table[..|table| - 1], session, e);
      assert table == table[..|table| - 1] + [table[|table| - 1]];
    }
  }

  lemma {:induction false} SameRowsSameTimes(a: seq<Event>, b: seq<Event>)
    requires multiset(a) == multiset(b)
    ensures Times(a) == Times(b)
  {
    assert forall e :: e in a <==> e in multiset(a);
    assert forall e :: e in b <==> e in multiset(b);
    TimesOfMembers(a, b);
    TimesOfMembers(b, a);
  }

  lemma {:induction false} TimesOfMembers(a: seq<Event>, b: seq<Event>)
    requires forall e :: e in a ==> e in b
    ensures Times(a) <= Times(b)
  {
    forall t | t in Times(a)
      ensures t in Times(b)
    {
      var k :| 0 <= k < |a| && a[k].at == t;
      assert a[k] in b;
    }
  }

  lemma {:induction false} ArrangementsAgree(a: seq<Event>, b: seq<Event>, x: seq<Event>, y: seq<Event>, session: nat)
    requires multiset(x) == multiset(y) && Arrangement(a, x, session) && Arrangement(b, y, session)
    ensures multiset(a) == multiset(b)
  {
    forall e
      ensures multiset(a)[e] == multiset(b)[e]
    {
      OfCounts(x, session, e);
      OfCounts(y, session, e);
    }
  }

  lemma {:induction false} SessionGrows(es: seq<Event>, n: nat, k: nat)
    requires 0 < n <= |es|
    ensures InSession(es[..n], k) == InSession(es[..n - 1], k) + if SessionSeq(es, n - 1) == k then [es[n - 1]] else []
    ensures es[..n] == es[..n - 1] + [es[n - 1]]
  {
    assert es[..n][..n - 1] == es[..n - 1];
    SeqOfPrefix(es, n, n - 1);
  }

  /** How many copies of an event session k holds: all of them if its number is k, else none. */
  lemma {:induction false} SessionHolds(es: seq<Event>, n: nat, k: nat, e: Event)
    requires Sorted(es) && n <= |es|
    ensures multiset(InSession(es[..n], k))[e]
         == if |StartsUpTo(Times(es), e.at)| == k then multiset(es[..n])[e] else 0
    decreases n
  {
    if n > 0 {
      SessionHolds(es, n - 1, k, e);
      SessionGrows(es, n, k);
      SeqCountsStarts(es, n - 1);
    }
  }

  /**
   Whatever order the events arrived in and however ties are broken, every event gets the same
   session number, and every session holds the same events.
   */
  lemma {:induction false} ArrivalOrderIrrelevant(x: seq<Event>, y: seq<Event>, session: nat, a: seq<Event>, b: seq<Event>)
    requires multiset(x) == multiset(y) && Arrangement(a, x, session) && Arrangement(b, y, session)
    ensures forall i, j :: 0 <= i < |a| && 0 <= j < |b| && a[i].at == b[j].at ==> SessionSeq(a, i) == SessionSeq(b, j)
    ensures forall k: nat :: multiset(InSession(a, k)) == multiset(InSession(b, k))
  {
    ArrangementsAgree(a, b, x, y, session);
    SameRowsSameTimes(a, b);
    forall i, j | 0 <= i < |a| && 0 <= j < |b| && a[i].at == b[j].at
      ensures SessionSeq(a, i) == SessionSeq(b, j)
    {
      SeqCountsStarts(a, i);
      SeqCountsStarts(b, j);
    }
    forall k: nat
      ensures multiset(InSession(a, k)) == multiset(InSession(b, k))
    {
      forall e
        ensures multiset(InSession(a, k))[e] == multiset(InSession(b, k))[e]
      {
        assert a[..|a|] == a && b[..|b|] == b;
        SessionHolds(a, |a|, k, e);
        SessionHolds(b, |b|, k, e);
      }
    }
  }

  // ---------------------------------------------------------------- the session rows

  /** The aggregates of one group that later models use. */
  datatype Row = Row(startedAt: int, endedAt: int, eventCount: nat,
                     sawProduct: bool, addedToCart: bool, startedCheckout: bool, purchased: bool)

  function MinAt(part: seq<Event>): int
    requires part != []
  {
    if |part| == 1 then part[0].at
    else
      var rest := MinAt(part[1..]);
      if part[0].at <= rest then part[0].at else rest
  }

  function MaxAt(part: seq<Event>): int
    requires part != []
  {
    if |part| == 1 then part[0].at
    else
      var rest := MaxAt(part[1..]);
      if part[0].at >= rest then part[0].at else rest
  }

  /** bool_or(event_name = name) */
  predicate Any(part: seq<Event>, name: string) {
    exists k :: 0 <= k < |part| && part[k].name == name
  }

  function RowOf(part: seq<Event>): Row
    requires part != []
  {
    Row(MinAt(part), MaxAt(part), |part|, Any(part, "product_view"), Any(part, "add_to_cart"),
        Any(part, "checkout_start"), Any(part, "purchase"))
  }

  lemma {:induction false} ExtremesAreEnds(part: seq<Event>)
    requires part != [] && Sorted(part)
    ensures MinAt(part) == part[0].at && MaxAt(part) == part[|part| - 1].at
    decreases |part|
  {
    if |part| > 1 { ExtremesAreEnds(part[1..]); }
  }

  function EventCounts(parts: seq<seq<Event>>): nat {
    if parts == [] then 0 else EventCounts(parts[..|parts| - 1]) + |parts[|parts| - 1]|
  }

  lemma {:induction false} CountsOfParts(parts: seq<seq<Event>>)
    ensures EventCounts(parts) == |Flatten(parts)|
    decreases |parts|
  {
    if parts != [] { CountsOfParts(parts[..|parts| - 1]); }
  }

  /** A part of a sorted sequence is sorted. */
  lemma {:induction false} PartsAreSorted(parts: seq<seq<Event>>, k: nat)
    requires Sorted(Flatten(parts)) && k < |parts|
    ensures Sorted(parts[k])
    decreases |parts|
  {
    var front, last := parts[..|parts| - 1], parts[|parts| - 1];
    assert Flatten(parts) == Flatten(front) + last;
    if k < |front| {
      assert forall j :: 0 <= j < |Flatten(front)| ==> Flatten(parts)[j] == Flatten(front)[j];
      PartsAreSorted(front, k);
    } else {
      assert forall j :: 0 <= j < |last| ==> last[j] == Flatten(parts)[|Flatten(front)| + j];
    }
  }

  lemma {:induction false} RowsAreApart(parts: seq<seq<Event>>, es: seq<Event>, k: nat)
    requires Sorted(es) && IsSessionization(parts, es) && 0 < k < |parts|
    ensures parts[k] != [] && parts[k - 1] != []
    ensures RowOf(parts[k]).startedAt - RowOf(parts[k - 1]).endedAt > SESSION_GAP
  {
    assert Close(parts[k]) && Close(parts[k - 1]) && Apart(parts[k - 1], parts[k]);
    PartsAreSorted(parts, k);
    PartsAreSorted(parts, k - 1);
    ExtremesAreEnds(parts[k]);
    ExtremesAreEnds(parts[k - 1]);
  }

  /** Every event is counted in one session row, and rows are separated by more than the session gap. */
  lemma {:induction false} RowsCoverTheVisit(es: seq<Event>)
    requires Sorted(es)
    ensures EventCounts(Grouped(es)) == |es|
    ensures forall k :: 0 <= k < SessionCount(es) ==> Grouped(es)[k] != []
    ensures forall k :: 0 < k < SessionCount(es) ==>
      RowOf(Grouped(es)[k]).startedAt - RowOf(Grouped(es)[k - 1]).endedAt > 1800
  {
    var parts := Grouped(es);
    SessionsAreTheSessionization(es, parts);
    CountsOfParts(parts);
    assert forall k :: 0 <= k < |parts| ==> Close(parts[k]);
    forall k | 0 < k < |parts|
      ensures RowOf(parts[k]).startedAt - RowOf(parts[k - 1]).endedAt > SESSION_GAP
    {
      RowsAreApart(parts, es, k);
    }
  }

  // ---------------------------------------------------------------- what a row says about its events

  lemma {:induction false} MembersOfSession(es: seq<Event>, k: nat, e: Event)
    ensures e in InSession(es, k) <==> exists i :: 0 <= i < |es| && SessionSeq(es, i) == k && es[i] == e
    decreases |es|
  {
    if es != [] {
      var n := |es| - 1;
      MembersOfSession(es[..n], k, e);
      forall i: nat | i < n
        ensures SessionSeq(es[..n], i) == SessionSeq(es, i)
      {
        SeqOfPrefix(es, n, i);
      }
      assert forall i :: 0 <= i < n ==> es[..n][i] == es[i];
    }
  }

  lemma {:induction false} ExtremesAreAttained(part: seq<Event>)
    requires part != []
    ensures exists e :: e in part && e.at == MinAt(part)
    ensures exists e :: e in part && e.at == MaxAt(part)
    ensures forall e :: e in part ==> MinAt(part) <= e.at <= MaxAt(part)
    decreases |part|
  {
    assert part[0] in part;
    if |part| > 1 {
      ExtremesAreAttained(part[1..]);
      assert forall e :: e in part[1..] ==> e in part;
      assert forall e :: e in part ==> e == part[0] || e in part[1..];
    }
  }

  /** Some event numbered k has this name. */
  predicate Sees(es: seq<Event>, k: nat, name: string) {
    exists i :: 0 <= i < |es| && SessionSeq(es, i) == k && es[i].name == name
  }

  lemma {:induction false} AnyIsSees(es: seq<Event>, k: nat, name: string)
    ensures Any(InSession(es, k), name) <==> Sees(es, k, name)
  {
    var part := InSession(es, k);
    if Any(part, name) {
      var j :| 0 <= j < |part| && part[j].name == name;
      MembersOfSession(es, k, part[j]);
    }
    if i :| 0 <= i < |es| && SessionSeq(es, i) == k && es[i].name == name {
      MembersOfSession(es, k, es[i]);
      var j :| 0 <= j < |part| && part[j] == es[i];
    }
  }

  /** The times of session k's events run from `low` to `high`, both attained. */
  predicate Spans(es: seq<Event>, k: nat, low: int, high: int) {
    && (forall i :: 0 <= i < |es| && SessionSeq(es, i) == k ==> low <= es[i].at <= high)
    && (exists i :: 0 <= i < |es| && SessionSeq(es, i) == k && es[i].at == low)
    && (exists i :: 0 <= i < |es| && SessionSeq(es, i) == k && es[i].at == high)
  }

  lemma {:induction false} RowSpans(es: seq<Event>, k: nat)
    requires InSession(es, k) != []
    ensures Spans(es, k, MinAt(InSession(es, k)), MaxAt(InSession(es, k)))
  {
    var part := InSession(es, k);
    ExtremesAreAttained(part);
    forall i | 0 <= i < |es| && SessionSeq(es, i) == k
      ensures MinAt(part) <= es[i].at <= MaxAt(part)
    {
      MembersOfSession(es, k, es[i]);
    }
    var first :| first in part && first.at == MinAt(part);
    var last :| last in part && last.at == MaxAt(part);
    MembersOfSession(es, k, first);
    MembersOfSession(es, k, last);
  }

  lemma {:induction false} FlagsAreAny(part: seq<Event>)
    requires part != []
    ensures var row := RowOf(part);
      && (row.sawProduct <==> Any(part, "product_view")) && (row.addedToCart <==> Any(part, "add_to_cart"))
      && (row.startedCheckout <==> Any(part, "checkout_start")) && (row.purchased <==> Any(part, "purchase"))
  {}

  /** Each session row spans exactly its events' times, and a flag is set exactly when an event of that name is among them. */
  lemma {:induction false} RowsReadTheirEvents(es: seq<Event>, k: nat)
    requires 1 <= k <= SessionCount(es)
    ensures Grouped(es)[k - 1] != []
    ensures var row := RowOf(Grouped(es)[k - 1]);
      && Spans(es, k, row.startedAt, row.endedAt)
      && (row.sawProduct <==> Sees(es, k, "product_view")) && (row.addedToCart <==> Sees(es, k, "add_to_cart"))
      && (row.startedCheckout <==> Sees(es, k, "checkout_start")) && (row.purchased <==> Sees(es, k, "purchase"))
  {
    SessionsAreTheSessionization(es, Grouped(es));
    assert Close(Grouped(es)[k - 1]);
    assert Grouped(es)[k - 1] == InSession(es, k);
    RowSpans(es, k);
    FlagsAreAny(InSession(es, k));
    AnyIsSees(es, k, "product_view");
    AnyIsSees(es, k, "add_to_cart");
    AnyIsSees(es, k, "checkout_start");
    AnyIsSees(es, k, "purchase");
  }
}
