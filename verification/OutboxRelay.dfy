/**
 The outbox relay (worker/main.py): unpublished raw.outbox rows are locked with
 `for update skip locked`, copied to raw.domain_events and marked published, at most 500 in a
 transaction. First one relay by itself, then any number of relays running at once.
 */
module OutboxRelay {
  import opened Common
  import StoreModel

  const LIMIT: nat := 500

  type Message = StoreModel.Message

  /** A raw.outbox row; `content` stands for the columns the relay copies. */
  datatype OutRow = OutRow(content: Message, published: bool)

  /** A raw.domain_events row. */
  datatype Event = Event(outboxId: nat, content: Message)

  /**
   The outbox by identity value. None is a value handed out to a transaction that has not
   committed (and may never), so rows can appear out of order.
   */
  type Outbox = seq<Option<OutRow>>

  datatype Db = Db(box: Outbox, events: seq<Event>)

  predicate Present(box: Outbox, id: nat) {
    id < |box| && box[id].Some?
  }

  predicate Unpublished(box: Outbox, id: nat) {
    Present(box, id) && !box[id].value.published
  }

  predicate Published(box: Outbox, id: nat) {
    Present(box, id) && box[id].value.published
  }

  predicate Ascending(a: seq<nat>) {
    forall j, k :: 0 <= j < k < |a| ==> a[j] < a[k]
  }

  /** The unpublished ids from `from` on, in id order. */
  function Pending(box: Outbox, from: nat): (ids: seq<nat>)
    ensures forall k :: 0 <= k < |ids| ==> from <= ids[k] && Unpublished(box, ids[k])
    ensures Ascending(ids)
    ensures forall id :: from <= id && Unpublished(box, id) ==> id in ids
    decreases |box| - from
  {
    if from >= |box| then []
    else if Unpublished(box, from) then [from] + Pending(box, from + 1)
    else Pending(box, from + 1)
  }

  function FirstOf(ids: seq<nat>, limit: nat): seq<nat> {
    if |ids| <= limit then ids else ids[..limit]
  }

  predicate HasEvent(events: seq<Event>, id: nat) {
    exists k :: 0 <= k < |events| && events[k].outboxId == id
  }

  /** insert ... on conflict (outbox_id) do nothing */
  function Recorded(events: seq<Event>, e: Event): seq<Event> {
    if HasEvent(events, e.outboxId) then events else events + [e]
  }

  function Mark(box: Outbox, id: nat): Outbox
    requires Present(box, id)
  {
    box[id := Some(box[id].value.(published := true))]
  }

  function RelayRow(db: Db, id: nat): Db
    requires Present(db.box, id)
  {
    Db(Mark(db.box, id), Recorded(db.events, Event(id, db.box[id].value.content)))
  }

  predicate AllPresent(box: Outbox, ids: seq<nat>) {
    forall k :: 0 <= k < |ids| ==> Present(box, ids[k])
  }

  function RelayAll(db: Db, ids: seq<nat>): Db
    requires AllPresent(db.box, ids)
    decreases |ids|
  {
    if ids == [] then db else RelayAll(RelayRow(db, ids[0]), ids[1..])
  }

  // ---------------------------------------------------------------- exactly once

  predicate OnePerRow(events: seq<Event>) {
    forall j, k :: 0 <= j < k < |events| ==> events[j].outboxId != events[k].outboxId
  }

  /** A domain event is a faithful copy of a published row. */
  predicate Faithful(box: Outbox, e: Event) {
    Published(box, e.outboxId) && e.content == box[e.outboxId].value.content
  }

  /** A row is published exactly when exactly one domain event carries its id, with the same content. */
  predicate Matched(db: Db) {
    && OnePerRow(db.events)
    && (forall k :: 0 <= k < |db.events| ==> Faithful(db.box, db.events[k]))
    && (forall id :: 0 <= id < |db.box| && Published(db.box, id) ==> HasEvent(db.events, id))
  }

  lemma {:induction false} UnpublishedHasNoEvent(db: Db, id: nat)
    requires Matched(db) && Unpublished(db.box, id)
    ensures !HasEvent(db.events, id)
  {
    forall k | 0 <= k < |db.events|
      ensures db.events[k].outboxId != id
    {
      assert Faithful(db.box, db.events[k]);
    }
  }

  lemma {:induction false} RelayRowKeepsMatched(db: Db, id: nat)
    requires Matched(db) && Unpublished(db.box, id)
    ensures Matched(RelayRow(db, id))
    ensures RelayRow(db, id).events == db.events + [Event(id, db.box[id].value.content)]
  {
    var d := RelayRow(db, id);
    UnpublishedHasNoEvent(db, id);
    forall k | 0 <= k < |d.events|
      ensures Faithful(d.box, d.events[k])
    {
      if k < |db.events| { assert Faithful(db.box, db.events[k]); }
    }
    assert d.events[|db.events|].outboxId == id;
    forall i | 0 <= i < |d.box| && Published(d.box, i)
      ensures HasEvent(d.events, i)
    {
      if i != id {
        assert HasEvent(db.events, i);
        var k :| 0 <= k < |db.events| && db.events[k].outboxId == i;
        assert d.events[k].outboxId == i;
      }
    }
  }

  /** Distinct, unpublished ids: what a relay's select returns. */
  predicate Pickable(box: Outbox, ids: seq<nat>) {
    && (forall k :: 0 <= k < |ids| ==> Unpublished(box, ids[k]))
    && (forall j, k :: 0 <= j < k < |ids| ==> ids[j] != ids[k])
  }

  /** The events a batch adds. */
  function EventsFor(box: Outbox, ids: seq<nat>): (es: seq<Event>)
    requires AllPresent(box, ids)
    ensures |es| == |ids|
    ensures forall k :: 0 <= k < |ids| ==> es[k] == Event(ids[k], box[ids[k]].value.content)
  {
    seq(|ids|, k requires 0 <= k < |ids| => Event(ids[k], box[ids[k]].value.content))
  }

  predicate MarkedExactly(before: Outbox, after: Outbox, ids: seq<nat>) {
    && |after| == |before|
    && forall id :: 0 <= id < |before| ==>
         after[id] == if id in ids && before[id].Some? then Some(before[id].value.(published := true)) else before[id]
  }

  lemma {:induction false} PickableTail(box: Outbox, ids: seq<nat>)
    requires Pickable(box, ids) && ids != []
    ensures Pickable(Mark(box, ids[0]), ids[1..])
    ensures EventsFor(box, ids) == [Event(ids[0], box[ids[0]].value.content)] + EventsFor(Mark(box, ids[0]), ids[1..])
  {
    assert forall k :: 0 <= k < |ids[1..]| ==> ids[1..][k] == ids[k + 1];
  }

  lemma {:induction false} MarkedCons(box: Outbox, after: Outbox, ids: seq<nat>)
    requires Pickable(box, ids) && ids != [] && MarkedExactly(Mark(box, ids[0]), after, ids[1..])
    ensures MarkedExactly(box, after, ids)
  {
    assert forall id :: id in ids <==> id == ids[0] || id in ids[1..];
  }

  lemma {:induction false} RelayAllKeepsMatched(db: Db, ids: seq<nat>)
    requires Matched(db) && Pickable(db.box, ids)
    ensures Matched(RelayAll(db, ids))
    decreases |ids|
  {
    if ids != [] {
      RelayRowKeepsMatched(db, ids[0]);
      PickableTail(db.box, ids);
      RelayAllKeepsMatched(RelayRow(db, ids[0]), ids[1..]);
    }
  }

  lemma {:induction false} RelayAllMarks(db: Db, ids: seq<nat>)
    requires Matched(db) && Pickable(db.box, ids)
    ensures MarkedExactly(db.box, RelayAll(db, ids).box, ids)
    decreases |ids|
  {
    if ids != [] {
      RelayRowKeepsMatched(db, ids[0]);
      PickableTail(db.box, ids);
      RelayAllMarks(RelayRow(db, ids[0]), ids[1..]);
      MarkedCons(db.box, RelayAll(db, ids).box, ids);
    }
  }

  lemma {:induction false} AppendAssociates(a: seq<Event>, b: seq<Event>, c: seq<Event>)
    ensures (a + b) + c == a + (b + c)
  {}

  lemma {:induction false} RelayAllAppends(db: Db, ids: seq<nat>)
    requires Matched(db) && Pickable(db.box, ids)
    ensures RelayAll(db, ids).events == db.events + EventsFor(db.box, ids)
    decreases |ids|
  {
    if ids != [] {
      var d := RelayRow(db, ids[0]);
      RelayRowKeepsMatched(db, ids[0]);
      PickableTail(db.box, ids);
      RelayAllAppends(d, ids[1..]);
      AppendAssociates(db.events, [Event(ids[0], db.box[ids[0]].value.content)], EventsFor(d.box, ids[1..]));
    }
  }

  /** A batch publishes exactly its rows and appends exactly their events, in the batch's order. */
  lemma {:induction false} RelayAllEffect(db: Db, ids: seq<nat>)
    requires Matched(db) && Pickable(db.box, ids)
    ensures MarkedExactly(db.box, RelayAll(db, ids).box, ids)
    ensures RelayAll(db, ids).events == db.events + EventsFor(db.box, ids)
  {
    RelayAllMarks(db, ids);
    RelayAllAppends(db, ids);
  }

  // ---------------------------------------------------------------- one relay

  /** What the select returns when nobody else holds a lock. */
  function Picked(box: Outbox): (ids: seq<nat>)
    ensures |ids| <= LIMIT && Pickable(box, ids)
  {
    FirstOf(Pending(box, 0), LIMIT)
  }

  function RelayOnce(db: Db): Db {
    RelayAll(db, Picked(db.box))
  }

  /** The first `n` pending rows were published and copied, in order, and nothing else changed. */
  predicate TookFront(before: Db, after: Db, n: nat)
    requires n <= |Pending(before.box, 0)|
  {
    var front := Pending(before.box, 0)[..n];
    MarkedExactly(before.box, after.box, front) && after.events == before.events + EventsFor(before.box, front)
  }

  lemma {:induction false} OnceTakesTheFront(db: Db)
    requires Matched(db)
    ensures |Picked(db.box)| <= |Pending(db.box, 0)| && TookFront(db, RelayOnce(db), |Picked(db.box)|)
  {
    RelayAllEffect(db, Picked(db.box));
    assert Pending(db.box, 0)[..|Picked(db.box)|] == Picked(db.box);
  }

  function Rounds(db: Db, k: nat): Db {
    if k == 0 then db else RelayOnce(Rounds(db, k - 1))
  }

  class Relay {
    var box: Outbox
    var events: seq<Event>

    ghost function Contents(): Db
      reads this
    {
      Db(box, events)
    }

    constructor (box: Outbox)
      ensures this.box == box && events == []
    {
      this.box, events := box, [];
    }

    /** The loop over the picked rows: each is copied and marked in turn. */
    method CopyAndMark(rows: seq<nat>)
      requires AllPresent(box, rows)
      modifies this
      ensures Contents() == RelayAll(old(Contents()), rows)
    {
      for i := 0 to |rows|
        invariant |box| == |old(box)| && AllPresent(box, rows)
        invariant RelayAll(Contents(), rows[i..]) == RelayAll(old(Contents()), rows)
      {
        var id := rows[i];
        assert rows[i..][0] == id && rows[i..][1..] == rows[i + 1..];
        events := Recorded(events, Event(id, box[id].value.content));
        box := Mark(box, id);
      }
    }

    /** One transaction: pick, copy, mark; the count is returned. */
    method Once() returns (moved: nat)
      modifies this
      ensures Contents() == RelayOnce(old(Contents()))
      ensures moved == if |Pending(old(box), 0)| <= 500 then |Pending(old(box), 0)| else 500
      ensures Matched(old(Contents())) ==> TookFront(old(Contents()), Contents(), moved)
    {
      var rows := Picked(box);
      if Matched(Contents()) { OnceTakesTheFront(Contents()); }
      CopyAndMark(rows);
      moved := |rows|;
    }
  }

  /** Two ascending lists with the same members are the same list. */
  lemma {:induction false} SortedUnique(a: seq<nat>, b: seq<nat>)
    requires Ascending(a) && Ascending(b) && forall id :: id in a <==> id in b
    ensures a == b
    decreases |a|
  {
    assert forall k :: 0 <= k < |a| ==> a[k] in a;
    assert forall k :: 0 <= k < |b| ==> b[k] in b;
    if a != [] && b != [] {
      assert a[0] in b && b[0] in a;
      forall id: nat
        ensures id in a[1..] <==> id in b[1..]
      {
        assert id in a <==> id == a[0] || id in a[1..];
        assert id in b <==> id == b[0] || id in b[1..];
      }
      SortedUnique(a[1..], b[1..]);
    }
  }

  lemma {:induction false} TailMembers(p: seq<nat>, n: nat, id: nat)
    requires Ascending(p) && n <= |p|
    ensures id in p[n..] <==> id in p && id !in p[..n]
  {
    assert p == p[..n] + p[n..];
  }

  /** Marking ids that are at the front of the pending list leaves the rest of it. */
  lemma {:induction false} PendingAfter(before: Outbox, after: Outbox, n: nat)
    requires n <= |Pending(before, 0)| && MarkedExactly(before, after, Pending(before, 0)[..n])
    ensures Pending(after, 0) == Pending(before, 0)[n..]
  {
    var p := Pending(before, 0);
    forall id: nat
      ensures id in Pending(after, 0) <==> id in p[n..]
    {
      TailMembers(p, n, id);
      PendingIff(before, id);
      PendingIff(after, id);
    }
    SortedUnique(Pending(after, 0), p[n..]);
  }

  lemma {:induction false} PendingIff(box: Outbox, id: nat)
    ensures id in Pending(box, 0) <==> Unpublished(box, id)
  {
    var p := Pending(box, 0);
    assert id in p ==> exists k :: 0 <= k < |p| && p[k] == id;
  }

  lemma {:induction false} OnceLeavesTheRest(db: Db)
    requires Matched(db)
    ensures Matched(RelayOnce(db))
    ensures var q := Pending(db.box, 0);
      Pending(RelayOnce(db).box, 0) == if |q| <= LIMIT then [] else q[LIMIT..]
  {
    var q := Pending(db.box, 0);
    RelayAllKeepsMatched(db, Picked(db.box));
    RelayAllEffect(db, Picked(db.box));
    var n := if |q| <= LIMIT then |q| else LIMIT;
    assert q[..n] == Picked(db.box);
    PendingAfter(db.box, RelayOnce(db).box, n);
  }

  /** What is left of `p` after k rounds. */
  function Left(p: seq<nat>, k: nat): seq<nat> {
    if 500 * k <= |p| then p[500 * k..] else []
  }

  lemma {:induction false} LeftAfterOneMore(p: seq<nat>, k: nat)
    requires k > 0
    ensures var q := Left(p, k - 1); Left(p, k) == if |q| <= LIMIT then [] else q[LIMIT..]
  {}

  /** After k rounds with no new rows, all but the first 500 k pending rows are left, in order. */
  lemma {:induction false} RoundsPublishInOrder(db: Db, k: nat)
    requires Matched(db)
    ensures Matched(Rounds(db, k))
    ensures Pending(Rounds(db, k).box, 0) == Left(Pending(db.box, 0), k)
    decreases k
  {
    if k > 0 {
      RoundsPublishInOrder(db, k - 1);
      OnceLeavesTheRest(Rounds(db, k - 1));
      LeftAfterOneMore(Pending(db.box, 0), k);
    }
  }

  /** The outbox is drained after k rounds exactly when k is at least ceil(n / 500). */
  lemma {:induction false} DrainsInCeil(db: Db, k: nat)
    requires Matched(db)
    ensures Pending(Rounds(db, k).box, 0) == [] <==> k >= (|Pending(db.box, 0)| + 499) / 500
  {
    RoundsPublishInOrder(db, k);
  }

  // ---------------------------------------------------------------- many relays

  /** An open transaction: the rows it locked, how many it has handled, the events it has staged. */
  datatype Tx = Tx(ids: seq<nat>, done: nat, staged: seq<Event>)

  datatype Sys = Sys(db: Db, open: map<nat, Tx>)

  datatype Step =
    | Allocate                       // an inserting transaction takes the next identity value
    | Appear(id: nat, content: Message)    // and commits its row
    | Begin(relay: nat, ids: seq<nat>)
    | Handle(relay: nat)             // the next row of the loop
    | Commit(relay: nat)
    | Abort(relay: nat)

  predicate Locked(s: Sys, id: nat) {
    exists w :: w in s.open && id in s.open[w].ids
  }

  /**
   Any rows a relay's snapshot may have shown it: unpublished, not locked, at most 500. The
   snapshot decides which, so no particular choice is assumed.
   */
  predicate CanBegin(s: Sys, w: nat, ids: seq<nat>) {
    && w !in s.open && |ids| <= LIMIT && Pickable(s.db.box, ids)
    && forall k :: 0 <= k < |ids| ==> !Locked(s, ids[k])
  }

  predicate CanHandle(s: Sys, w: nat) {
    && w in s.open && s.open[w].done < |s.open[w].ids|
    && Present(s.db.box, s.open[w].ids[s.open[w].done])
  }

  /** The loop's next insert, checked against what is committed and what this transaction staged. */
  function Handled(db: Db, tx: Tx): Tx
    requires tx.done < |tx.ids| && Present(db.box, tx.ids[tx.done])
  {
    var id := tx.ids[tx.done];
    Tx(tx.ids, tx.done + 1,
       if HasEvent(db.events, id) then tx.staged else Recorded(tx.staged, Event(id, db.box[id].value.content)))
  }

  function MarkAll(box: Outbox, ids: seq<nat>): (after: Outbox)
    ensures MarkedExactly(box, after, ids)
  {
    seq(|box|, id requires 0 <= id < |box| =>
      if id in ids && box[id].Some? then Some(box[id].value.(published := true)) else box[id])
  }

  /** A step that is not possible does nothing. */
  function Exec(s: Sys, step: Step): Sys {
    match step
    case Allocate => s.(db := s.db.(box := s.db.box + [None]))
    case Appear(id, content) =>
      if id < |s.db.box| && s.db.box[id].None? then s.(db := s.db.(box := s.db.box[id := Some(OutRow(content, false))])) else s
    case Begin(w, ids) => if CanBegin(s, w, ids) then s.(open := s.open[w := Tx(ids, 0, [])]) else s
    case Handle(w) => if CanHandle(s, w) then s.(open := s.open[w := Handled(s.db, s.open[w])]) else s
    case Commit(w) =>
      if w in s.open && s.open[w].done == |s.open[w].ids|
      then Sys(Db(MarkAll(s.db.box, s.open[w].ids), s.db.events + s.open[w].staged), s.open - {w})
      else s
    case Abort(w) => s.(open := s.open - {w})
  }

  function Run(s: Sys, steps: seq<Step>): Sys
    decreases |steps|
  {
    if steps == [] then s else Run(Exec(s, steps[0]), steps[1..])
  }

  predicate Initial(s: Sys) {
    s.db == Db([], []) && s.open == map[]
  }

  predicate Disjoint(a: seq<nat>, b: seq<nat>) {
    forall k :: 0 <= k < |a| ==> a[k] !in b
  }

  /** No row is held by two open transactions. */
  predicate LocksDisjoint(s: Sys) {
    forall w, v :: w in s.open && v in s.open && w != v ==> Disjoint(s.open[w].ids, s.open[v].ids)
  }

  predicate GoodTx(db: Db, tx: Tx) {
    && Pickable(db.box, tx.ids) && tx.done <= |tx.ids|
    && tx.staged == EventsFor(db.box, tx.ids[..tx.done])
  }

  predicate Inv(s: Sys) {
    && Matched(s.db) && LocksDisjoint(s)
    && forall w :: w in s.open ==> GoodTx(s.db, s.open[w])
  }

  lemma {:induction false} NewRowKeepsTx(db: Db, d: Db, tx: Tx)
    requires GoodTx(db, tx)
    requires forall k :: 0 <= k < |tx.ids| ==> tx.ids[k] < |d.box| && d.box[tx.ids[k]] == db.box[tx.ids[k]]
    ensures GoodTx(d, tx)
  {
    assert EventsFor(d.box, tx.ids[..tx.done]) == EventsFor(db.box, tx.ids[..tx.done]);
  }

  lemma {:induction false} NewRowKeepsMatched(db: Db, box: Outbox)
    requires Matched(db) && |box| >= |db.box|
    requires forall id :: 0 <= id < |db.box| && db.box[id].Some? ==> box[id] == db.box[id]
    requires forall id :: 0 <= id < |box| && Published(box, id) ==> id < |db.box| && db.box[id] == box[id]
    ensures Matched(Db(box, db.events))
  {
    forall k | 0 <= k < |db.events|
      ensures Faithful(box, db.events[k])
    {
      assert Faithful(db.box, db.events[k]);
    }
  }

  lemma {:induction false} InsertKeepsInv(s: Sys, step: Step)
    requires Inv(s) && (step.Allocate? || step.Appear?)
    ensures Inv(Exec(s, step))
  {
    var t := Exec(s, step);
    NewRowKeepsMatched(s.db, t.db.box);
    forall w | w in t.open
      ensures GoodTx(t.db, t.open[w])
    {
      assert GoodTx(s.db, s.open[w]);
      NewRowKeepsTx(s.db, t.db, s.open[w]);
    }
  }

  lemma {:induction false} BeginKeepsInv(s: Sys, w: nat, ids: seq<nat>)
    requires Inv(s)
    ensures Inv(Exec(s, Begin(w, ids)))
  {
    var t := Exec(s, Begin(w, ids));
    if CanBegin(s, w, ids) {
      forall x | x in t.open
        ensures GoodTx(t.db, t.open[x])
      {
        assert x != w ==> GoodTx(s.db, s.open[x]);
      }
      assert forall k, v :: 0 <= k < |ids| && v in s.open ==> ids[k] !in s.open[v].ids;
    }
  }

  /** An unpublished row never conflicts, so every handled row stages its event. */
  lemma {:induction false} HandledIsGood(db: Db, tx: Tx)
    requires Matched(db) && GoodTx(db, tx) && tx.done < |tx.ids|
    ensures GoodTx(db, Handled(db, tx))
  {
    var id, next := tx.ids[tx.done], Handled(db, tx);
    assert Unpublished(db.box, id);
    UnpublishedHasNoEvent(db, id);
    forall k | 0 <= k < |tx.staged|
      ensures tx.staged[k].outboxId != id
    {
      assert tx.staged[k].outboxId == tx.ids[..tx.done][k];
    }
    assert tx.ids[..tx.done + 1] == tx.ids[..tx.done] + [id];
    assert next.staged == EventsFor(db.box, tx.ids[..tx.done + 1]);
  }

  lemma {:induction false} HandleKeepsInv(s: Sys, w: nat)
    requires Inv(s)
    ensures Inv(Exec(s, Handle(w)))
  {
    var t := Exec(s, Handle(w));
    if CanHandle(s, w) {
      assert GoodTx(s.db, s.open[w]);
      HandledIsGood(s.db, s.open[w]);
      assert t.open[w].ids == s.open[w].ids;
      forall x | x in t.open
        ensures GoodTx(t.db, t.open[x])
      {
        assert x != w ==> GoodTx(s.db, s.open[x]);
      }
    }
  }

  /** Committing is running that transaction's batch alone on the committed state. */
  lemma {:induction false} CommitIsSequential(s: Sys, w: nat)
    requires Inv(s) && w in s.open && s.open[w].done == |s.open[w].ids|
    ensures AllPresent(s.db.box, s.open[w].ids)
    ensures Exec(s, Commit(w)).db == RelayAll(s.db, s.open[w].ids)
  {
    var tx := s.open[w];
    assert GoodTx(s.db, tx);
    assert tx.ids[..tx.done] == tx.ids;
    RelayAllEffect(s.db, tx.ids);
    assert MarkAll(s.db.box, tx.ids) == RelayAll(s.db, tx.ids).box;
  }

  lemma {:induction false} CommitKeepsInv(s: Sys, w: nat)
    requires Inv(s)
    ensures Inv(Exec(s, Commit(w)))
  {
    if w in s.open && s.open[w].done == |s.open[w].ids| {
      var t := Exec(s, Commit(w));
      assert GoodTx(s.db, s.open[w]);
      CommitIsSequential(s, w);
      RelayAllKeepsMatched(s.db, s.open[w].ids);
      forall v | v in t.open
        ensures GoodTx(t.db, t.open[v])
      {
        assert GoodTx(s.db, s.open[v]);
        OthersUntouched(s, w, v);
        NewRowKeepsTx(s.db, t.db, s.open[v]);
      }
    }
  }

  lemma {:induction false} OthersUntouched(s: Sys, w: nat, v: nat)
    requires LocksDisjoint(s) && w in s.open && v in s.open && v != w
    ensures forall k :: 0 <= k < |s.open[v].ids| ==> s.open[v].ids[k] !in s.open[w].ids
  {}

  lemma {:induction false} StepKeepsInv(s: Sys, step: Step)
    requires Inv(s)
    ensures Inv(Exec(s, step))
  {
    match step
    case Allocate => InsertKeepsInv(s, step);
    case Appear(_, _) => InsertKeepsInv(s, step);
    case Begin(w, ids) => BeginKeepsInv(s, w, ids);
    case Handle(w) => HandleKeepsInv(s, w);
    case Commit(w) => CommitKeepsInv(s, w);
    case Abort(w) =>
      forall v | v in Exec(s, step).open
        ensures GoodTx(s.db, s.open[v])
      {}
  }

  lemma {:induction false} RunKeepsInv(s: Sys, steps: seq<Step>)
    requires Inv(s)
    ensures Inv(Run(s, steps))
    decreases |steps|
  {
    if steps != [] {
      StepKeepsInv(s, steps[0]);
      RunKeepsInv(Exec(s, steps[0]), steps[1..]);
    }
  }

  /** In every state of every run: locks are disjoint, and published means recorded exactly once. */
  lemma {:induction false} RelaysDeliverExactlyOnce(s: Sys, steps: seq<Step>)
    requires Initial(s)
    ensures LocksDisjoint(Run(s, steps)) && Matched(Run(s, steps).db)
    ensures forall id :: 0 <= id < |Run(s, steps).db.box| ==>
      (Published(Run(s, steps).db.box, id) <==> HasEvent(Run(s, steps).db.events, id))
  {
    RunKeepsInv(s, steps);
    var db := Run(s, steps).db;
    forall id | 0 <= id < |db.box| && HasEvent(db.events, id)
      ensures Published(db.box, id)
    {
      var k :| 0 <= k < |db.events| && db.events[k].outboxId == id;
      assert Faithful(db.box, db.events[k]);
    }
  }

  // ---------------------------------------------------------------- histories

  /** A row keeps its content for good and stays published once published. */
  predicate RowGrows(a: Option<OutRow>, b: Option<OutRow>) {
    a.Some? ==> b.Some? && b.value.content == a.value.content && (a.value.published ==> b.value.published)
  }

  predicate Grows(a: Db, b: Db) {
    && |a.box| <= |b.box| && a.events <= b.events
    && forall id :: 0 <= id < |a.box| ==> RowGrows(a.box[id], b.box[id])
  }

  lemma {:induction false} StepGrows(s: Sys, step: Step)
    ensures Grows(s.db, Exec(s, step).db)
  {}

  /** The domain events of any moment are a prefix of those of any later one; no row is lost or unpublished. */
  lemma {:induction false} NothingIsUndone(s: Sys, steps: seq<Step>)
    ensures Grows(s.db, Run(s, steps).db)
    decreases |steps|
  {
    if steps != [] {
      var t := Exec(s, steps[0]);
      StepGrows(s, steps[0]);
      NothingIsUndone(t, steps[1..]);
      var a, b, c := s.db, t.db, Run(s, steps).db;
      assert forall id :: 0 <= id < |a.box| ==> RowGrows(a.box[id], b.box[id]) && RowGrows(b.box[id], c.box[id]);
    }
  }
}
