/**
 The stream loader (worker/main.py): Redis entries are delivered to workers, inserted into
 raw.events with ON CONFLICT DO NOTHING, and acknowledged only after the commit. A worker may
 crash anywhere, and any entry not acknowledged may be delivered again, in any grouping.
 */
module EventLoader {
  import opened Common
  import opened EventRows

  const BATCH: nat := 500

  type Table = map<Key, Row>

  predicate AllStorable(rows: seq<Row>) {
    forall k :: 0 <= k < |rows| ==> Storable(rows[k])
  }

  // ---------------------------------------------------------------- insert ... on conflict do nothing

  function Stored(t: Table, row: Row): Table
    requires Storable(row)
  {
    if KeyOf(row) in t then t else t[KeyOf(row) := row]
  }

  function StoreAll(t: Table, rows: seq<Row>): Table
    requires AllStorable(rows)
    decreases |rows|
  {
    if rows == [] then t else StoreAll(Stored(t, rows[0]), rows[1..])
  }

  function Keys(rows: seq<Row>): set<Key>
    requires AllStorable(rows)
  {
    set k | 0 <= k < |rows| :: KeyOf(rows[k])
  }

  lemma {:induction false} KeysCons(rows: seq<Row>)
    requires AllStorable(rows) && rows != []
    ensures Keys(rows) == {KeyOf(rows[0])} + Keys(rows[1..])
  {
    forall key | key in Keys(rows)
      ensures key in {KeyOf(rows[0])} + Keys(rows[1..])
    {
      var k :| 0 <= k < |rows| && KeyOf(rows[k]) == key;
      if k > 0 { assert rows[1..][k - 1] == rows[k]; }
    }
    forall key | key in Keys(rows[1..])
      ensures key in Keys(rows)
    {
      var k :| 0 <= k < |rows[1..]| && KeyOf(rows[1..][k]) == key;
      assert rows[k + 1] == rows[1..][k];
    }
  }

  /** The keys afterwards are those before plus the batch's; no stored row is overwritten. */
  lemma {:induction false} StoreAllKeys(t: Table, rows: seq<Row>)
    requires AllStorable(rows)
    ensures StoreAll(t, rows).Keys == t.Keys + Keys(rows)
    ensures forall key :: key in t ==> StoreAll(t, rows)[key] == t[key]
    decreases |rows|
  {
    if rows != [] {
      KeysCons(rows);
      StoreAllKeys(Stored(t, rows[0]), rows[1..]);
    }
  }

  predicate FirstWith(rows: seq<Row>, k: nat, key: Key)
    requires AllStorable(rows)
  {
    k < |rows| && KeyOf(rows[k]) == key && forall j :: 0 <= j < k ==> KeyOf(rows[j]) != key
  }

  /** A new key's row is the first one the batch holds for it. */
  lemma {:induction false} StoreAllFirst(t: Table, rows: seq<Row>, k: nat)
    requires AllStorable(rows) && k < |rows| && KeyOf(rows[k]) !in t && FirstWith(rows, k, KeyOf(rows[k]))
    ensures KeyOf(rows[k]) in StoreAll(t, rows) && StoreAll(t, rows)[KeyOf(rows[k])] == rows[k]
    decreases |rows|
  {
    StoreAllKeys(Stored(t, rows[0]), rows[1..]);
    if k > 0 {
      assert forall j :: 0 <= j < k - 1 ==> rows[1..][j] == rows[j + 1];
      StoreAllFirst(Stored(t, rows[0]), rows[1..], k - 1);
    }
  }

  lemma {:induction false} StoreAllAppend(t: Table, a: seq<Row>, b: seq<Row>)
    requires AllStorable(a) && AllStorable(b)
    ensures StoreAll(t, a + b) == StoreAll(StoreAll(t, a), b)
    decreases |a|
  {
    if a == [] {
      assert a + b == b;
    } else {
      assert (a + b)[0] == a[0] && (a + b)[1..] == a[1..] + b;
      StoreAllAppend(Stored(t, a[0]), a[1..], b);
    }
  }

  /** A batch whose keys are all stored changes nothing, whenever it is replayed. */
  lemma {:induction false} ReplayChangesNothing(t: Table, rows: seq<Row>)
    requires AllStorable(rows) && Keys(rows) <= t.Keys
    ensures StoreAll(t, rows) == t
    decreases |rows|
  {
    if rows != [] {
      KeysCons(rows);
      ReplayChangesNothing(t, rows[1..]);
    }
  }

  /** Rows inserted by the statement: what cur.rowcount reports. */
  function Inserted(t: Table, rows: seq<Row>): (n: nat)
    requires AllStorable(rows)
  {
    |Keys(rows) - t.Keys|
  }

  lemma {:induction false} InsertedIsGrowth(t: Table, rows: seq<Row>)
    requires AllStorable(rows)
    ensures Inserted(t, rows) == |StoreAll(t, rows)| - |t|
  {
    StoreAllKeys(t, rows);
    var before, after := t.Keys, StoreAll(t, rows).Keys;
    assert after == before + (Keys(rows) - before);
    assert |after| == |StoreAll(t, rows)| && |before| == |t|;
  }

  /** Retries carry the same row for the same key. */
  predicate SameKeySameRow(rows: seq<Row>)
    requires AllStorable(rows)
  {
    forall j, k :: 0 <= j < |rows| && 0 <= k < |rows| && KeyOf(rows[j]) == KeyOf(rows[k]) ==> rows[j] == rows[k]
  }

  lemma {:induction false} StoredRowIsAnyOfItsKey(t: Table, rows: seq<Row>, k: nat)
    requires AllStorable(rows) && SameKeySameRow(rows) && k < |rows| && KeyOf(rows[k]) !in t
    ensures KeyOf(rows[k]) in StoreAll(t, rows) && StoreAll(t, rows)[KeyOf(rows[k])] == rows[k]
  {
    var first := FirstIndex(rows, KeyOf(rows[k]), k);
    StoreAllFirst(t, rows, first);
  }

  lemma {:induction false} FirstIndex(rows: seq<Row>, key: Key, k: nat) returns (first: nat)
    requires AllStorable(rows) && k < |rows| && KeyOf(rows[k]) == key
    ensures FirstWith(rows, first, key)
    decreases k
  {
    if j :| 0 <= j < k && KeyOf(rows[j]) == key {
      first := FirstIndex(rows, key, j);
    } else {
      first := k;
    }
  }

  lemma {:induction false} SameRowsSameKeys(a: seq<Row>, b: seq<Row>)
    requires AllStorable(a) && AllStorable(b) && forall r :: r in a ==> r in b
    ensures Keys(a) <= Keys(b)
  {
    forall key | key in Keys(a)
      ensures key in Keys(b)
    {
      var j :| 0 <= j < |a| && KeyOf(a[j]) == key;
      assert a[j] in b;
    }
  }

  lemma {:induction false} SameRowForKey(t: Table, a: seq<Row>, b: seq<Row>, key: Key)
    requires AllStorable(a) && AllStorable(b) && SameKeySameRow(a) && SameKeySameRow(b)
    requires (forall r :: r in a ==> r in b) && key in Keys(a) && key !in t
    ensures key in StoreAll(t, a) && key in StoreAll(t, b) && StoreAll(t, a)[key] == StoreAll(t, b)[key]
  {
    var j :| 0 <= j < |a| && KeyOf(a[j]) == key;
    assert a[j] in b;
    var k :| 0 <= k < |b| && b[k] == a[j];
    StoredRowIsAnyOfItsKey(t, a, j);
    StoredRowIsAnyOfItsKey(t, b, k);
  }

  /** Then neither the order of the rows nor their repetition matters. */
  lemma {:induction false} OrderIrrelevant(t: Table, a: seq<Row>, b: seq<Row>)
    requires AllStorable(a) && AllStorable(b) && SameKeySameRow(a) && SameKeySameRow(b)
    requires forall r :: r in a <==> r in b
    ensures StoreAll(t, a) == StoreAll(t, b)
  {
    StoreAllKeys(t, a);
    StoreAllKeys(t, b);
    SameRowsSameKeys(a, b);
    SameRowsSameKeys(b, a);
    forall key | key in StoreAll(t, a)
      ensures key in StoreAll(t, b) && StoreAll(t, a)[key] == StoreAll(t, b)[key]
    {
      if key !in t { SameRowForKey(t, a, b, key); }
    }
  }

  // ---------------------------------------------------------------- the table in terms of the entries' fields

  /** The row some entry gives, with every required field, under that entry's own key. */
  ghost predicate Entered(key: Key, row: Row) {
    Storable(row) && KeyOf(row) == key && exists x :: Complete(x) && Holds(row, x)
  }

  ghost predicate FromEntries(t: Table) {
    forall key :: key in t ==> Entered(key, t[key])
  }

  /** A row with exactly this entry's field values is stored. */
  predicate StoredAs(t: Table, e: Fields) {
    exists key :: key in t && Holds(t[key], e)
  }

  /** Exactly one stored row is of this event. */
  ghost predicate StoredOnce(t: Table, e: Fields)
    requires Complete(e)
  {
    exists key :: key in t && IsEventOf(t[key], e) && forall other :: other in t && IsEventOf(t[other], e) ==> other == key
  }

  /** Events that differ from each other, none of them stored yet. */
  ghost predicate AllNew(t: Table, entries: seq<Fields>) {
    && (forall k :: 0 <= k < |entries| ==> Complete(entries[k]))
    && (forall k, key :: 0 <= k < |entries| && key in t ==> !IsEventOf(t[key], entries[k]))
    && (forall j, k :: 0 <= j < k < |entries| ==> !SameEvent(entries[j], entries[k]))
  }

  predicate AllComplete(entries: seq<Fields>) {
    forall k :: 0 <= k < |entries| ==> Complete(entries[k])
  }

  lemma {:induction false} CompleteAreStorable(entries: seq<Fields>)
    ensures AllStorable(RowsOf(entries)) <==> AllComplete(entries)
  {
    forall k | 0 <= k < |entries|
      ensures Storable(RowsOf(entries)[k]) <==> Complete(entries[k])
    {
      CompleteIsStorable(entries[k]);
    }
  }

  /** The rows of an event are those under its key. */
  lemma {:induction false} EventHasOneKey(key: Key, row: Row, e: Fields)
    requires Entered(key, row) && Complete(e)
    ensures Storable(RowOf(e)) && (IsEventOf(row, e) <==> key == KeyOf(RowOf(e)))
  {
    CompleteIsStorable(e);
    forall x | Complete(x) && Holds(row, x)
      ensures SameEvent(x, e) <==> key == KeyOf(RowOf(e))
    {
      HoldsIsRowOf(row, x);
      ConflictIff(x, e);
    }
  }

  lemma {:induction false} OwnRowEntered(e: Fields)
    requires Complete(e)
    ensures Storable(RowOf(e)) && Entered(KeyOf(RowOf(e)), RowOf(e)) && Holds(RowOf(e), e)
  {
    CompleteIsStorable(e);
    HoldsIsRowOf(RowOf(e), e);
  }

  lemma {:induction false} StoreAllKeepsFromEntries(t: Table, entries: seq<Fields>)
    requires FromEntries(t) && AllComplete(entries) && AllStorable(RowsOf(entries))
    ensures FromEntries(StoreAll(t, RowsOf(entries)))
    decreases |entries|
  {
    if entries != [] {
      OwnRowEntered(entries[0]);
      assert RowsOf(entries)[1..] == RowsOf(entries[1..]);
      StoreAllKeepsFromEntries(Stored(t, RowOf(entries[0])), entries[1..]);
    }
  }

  lemma {:induction false} HeldKeyIsStoredOnce(t: Table, e: Fields)
    requires FromEntries(t) && Complete(e) && Storable(RowOf(e)) && KeyOf(RowOf(e)) in t
    ensures StoredOnce(t, e)
  {
    forall key | key in t
      ensures IsEventOf(t[key], e) <==> key == KeyOf(RowOf(e))
    {
      EventHasOneKey(key, t[key], e);
    }
  }

  lemma {:induction false} DistinctKeys(rows: seq<Row>)
    requires AllStorable(rows) && forall j, k :: 0 <= j < k < |rows| ==> KeyOf(rows[j]) != KeyOf(rows[k])
    ensures |Keys(rows)| == |rows|
    decreases |rows|
  {
    if rows != [] {
      KeysCons(rows);
      DistinctKeys(rows[1..]);
      assert forall k :: 0 <= k < |rows| - 1 ==> rows[1..][k] == rows[k + 1];
    }
  }

  /** Different events have different keys, and a new event's key is not taken. */
  lemma {:induction false} NewKeys(t: Table, entries: seq<Fields>)
    requires FromEntries(t) && AllNew(t, entries) && AllStorable(RowsOf(entries))
    ensures forall j, k :: 0 <= j < k < |entries| ==> KeyOf(RowsOf(entries)[j]) != KeyOf(RowsOf(entries)[k])
    ensures forall k :: 0 <= k < |entries| ==> KeyOf(RowsOf(entries)[k]) !in t
  {
    forall j, k | 0 <= j < k < |entries|
      ensures KeyOf(RowsOf(entries)[j]) != KeyOf(RowsOf(entries)[k])
    {
      ConflictIff(entries[j], entries[k]);
    }
    forall k | 0 <= k < |entries|
      ensures KeyOf(RowsOf(entries)[k]) !in t
    {
      var key := KeyOf(RowsOf(entries)[k]);
      if key in t { EventHasOneKey(key, t[key], entries[k]); }
    }
  }

  lemma {:induction false} NewRowsAreCounted(t: Table, rows: seq<Row>)
    requires AllStorable(rows) && forall k :: 0 <= k < |rows| ==> KeyOf(rows[k]) !in t
    requires forall j, k :: 0 <= j < k < |rows| ==> KeyOf(rows[j]) != KeyOf(rows[k])
    ensures Inserted(t, rows) == |rows|
  {
    DistinctKeys(rows);
    assert Keys(rows) - t.Keys == Keys(rows);
  }

  /** New events are counted in full, and each is found with its own field values. */
  lemma {:induction false} NewEventsAreStored(t: Table, entries: seq<Fields>)
    requires FromEntries(t) && AllNew(t, entries) && AllStorable(RowsOf(entries))
    ensures Inserted(t, RowsOf(entries)) == |entries|
    ensures forall k :: 0 <= k < |entries| ==> StoredAs(StoreAll(t, RowsOf(entries)), entries[k])
  {
    NewKeys(t, entries);
    NewRowsAreCounted(t, RowsOf(entries));
    forall k | 0 <= k < |entries|
      ensures StoredAs(StoreAll(t, RowsOf(entries)), entries[k])
    {
      OwnRowIsFound(t, entries, k);
    }
  }

  lemma {:induction false} OwnRowIsFound(t: Table, entries: seq<Fields>, k: nat)
    requires AllStorable(RowsOf(entries)) && k < |entries| && KeyOf(RowsOf(entries)[k]) !in t
    requires forall j, i :: 0 <= j < i < |entries| ==> KeyOf(RowsOf(entries)[j]) != KeyOf(RowsOf(entries)[i])
    ensures StoredAs(StoreAll(t, RowsOf(entries)), entries[k])
  {
    StoreAllFirst(t, RowsOf(entries), k);
    HoldsIsRowOf(RowsOf(entries)[k], entries[k]);
  }

  /** After a batch every entry's event is stored once; new events are all counted, each with its own field values. */
  ghost predicate BatchOutcome(before: Table, now: Table, entries: seq<Fields>, count: nat)
    requires AllComplete(entries)
  {
    && FromEntries(now)
    && (forall k :: 0 <= k < |entries| ==> StoredOnce(now, entries[k]))
    && (AllNew(before, entries) ==> count == |entries| && forall k :: 0 <= k < |entries| ==> StoredAs(now, entries[k]))
  }

  lemma {:induction false} BatchStored(t: Table, entries: seq<Fields>)
    requires FromEntries(t) && AllComplete(entries) && AllStorable(RowsOf(entries))
    ensures BatchOutcome(t, StoreAll(t, RowsOf(entries)), entries, Inserted(t, RowsOf(entries)))
  {
    var rows := RowsOf(entries);
    StoreAllKeepsFromEntries(t, entries);
    StoreAllKeys(t, rows);
    forall k | 0 <= k < |entries|
      ensures StoredOnce(StoreAll(t, rows), entries[k])
    {
      assert KeyOf(rows[k]) in Keys(rows);
      HeldKeyIsStoredOnce(StoreAll(t, rows), entries[k]);
    }
    if AllNew(t, entries) { NewEventsAreStored(t, entries); }
  }

  // ---------------------------------------------------------------- the loader's transaction

  class Events {
    var table: Table

    ghost predicate Valid()
      reads this
    {
      FromEntries(table)
    }

    constructor ()
      ensures Valid() && table == map[]
    {
      table := map[];
    }

    /**
     One batch: an entry without one of the required fields, a cell that does not cast to its column's
     type, or a time no partition covers aborts it with nothing stored; otherwise the count is
     the number of keys not stored before. `fits` tells the rows that cast and have a partition.
     */
    method LoadBatch(entries: seq<Fields>, fits: Row -> bool) returns (r: Result<nat>)
      requires Valid()
      modifies this
      ensures Valid()
      ensures r.Ok? <==> AllComplete(entries) && forall k :: 0 <= k < |entries| ==> fits(RowsOf(entries)[k])
      ensures r.Ok? ==> AllStorable(RowsOf(entries)) && table == StoreAll(old(table), RowsOf(entries))
      ensures r.Ok? ==> r.value == |table| - |old(table)| && BatchOutcome(old(table), table, entries, r.value)
      ensures r.Err? ==> table == old(table)
    {
      CompleteAreStorable(entries);
      var incoming := CopyRows(entries, fits);
      if incoming.Err? {
        return Err(incoming.error);
      }
      var rowcount := 0;
      if incoming.value != [] {
        rowcount := Insert(incoming.value);
      }
      InsertedIsGrowth(old(table), RowsOf(entries));
      BatchStored(old(table), entries);
      r := Ok(rowcount);
    }

    /** The rows, copied into the temporary table one by one. */
    static method CopyRows(entries: seq<Fields>, fits: Row -> bool) returns (r: Result<seq<Row>>)
      ensures r.Ok? <==> AllStorable(RowsOf(entries)) && forall k :: 0 <= k < |entries| ==> fits(RowsOf(entries)[k])
      ensures r.Ok? ==> r.value == RowsOf(entries)
    {
      var rows: seq<Row> := [];
      for i := 0 to |entries|
        invariant |rows| == i && forall k :: 0 <= k < i ==> rows[k] == RowOf(entries[k])
      {
        rows := rows + [RowOf(entries[i])];
      }
      assert rows == RowsOf(entries);
      var incoming: seq<Row> := [];
      for i := 0 to |rows|
        invariant incoming == rows[..i] && AllStorable(incoming)
        invariant forall k :: 0 <= k < i ==> fits(rows[k])
      {
        if !Storable(rows[i]) || !fits(rows[i]) {
          return Err(CheckViolation);
        }
        incoming := incoming + [rows[i]];
      }
      assert incoming == rows;
      r := Ok(incoming);
    }

    /** insert ... select ... on conflict do nothing; returns the number of rows inserted. */
    method Insert(incoming: seq<Row>) returns (rowcount: nat)
      requires AllStorable(incoming)
      modifies this
      ensures table == StoreAll(old(table), incoming) && rowcount == |table| - |old(table)|
    {
      rowcount := 0;
      for i := 0 to |incoming|
        invariant StoreAll(old(table), incoming) == StoreAll(table, incoming[i..])
        invariant rowcount == |table| - |old(table)|
      {
        assert incoming[i..][1..] == incoming[i + 1..];
        if KeyOf(incoming[i]) !in table {
          table := table[KeyOf(incoming[i]) := incoming[i]];
          rowcount := rowcount + 1;
        }
      }
    }
  }

  // ---------------------------------------------------------------- the delivery protocol

  datatype Worker = Idle | Holding(ids: seq<nat>) | Committed(ids: seq<nat>)

  /**
   `stream` is every entry ever added (its index is its id), `acked` the acknowledged ids.
   `batches` and `counts` record the committed batches and what load_batch returned for each.
   */
  datatype Sys = Sys(stream: seq<Fields>, acked: set<nat>, table: Table, workers: map<nat, Worker>,
                     batches: seq<seq<nat>>, counts: seq<nat>)

  datatype Step =
    | Publish(fields: Fields)
    | Deliver(worker: nat, ids: seq<nat>)
    | Load(worker: nat)
    | Ack(worker: nat)
    | Crash(worker: nat)

  function WorkerAt(s: Sys, w: nat): Worker {
    if w in s.workers then s.workers[w] else Idle
  }

  /** Any entries not acknowledged, new or redelivered, to any worker that is free. */
  predicate CanDeliver(s: Sys, w: nat, ids: seq<nat>) {
    && WorkerAt(s, w).Idle? && 0 < |ids| <= BATCH
    && forall k :: 0 <= k < |ids| ==> ids[k] < |s.stream| && ids[k] !in s.acked
  }

  predicate InStream(s: Sys, ids: seq<nat>) {
    forall k :: 0 <= k < |ids| ==> ids[k] < |s.stream|
  }

  function BatchRows(stream: seq<Fields>, ids: seq<nat>): (rows: seq<Row>)
    requires forall k :: 0 <= k < |ids| ==> ids[k] < |stream|
    ensures |rows| == |ids|
    ensures forall k :: 0 <= k < |ids| ==> rows[k] == RowOf(stream[ids[k]])
  {
    seq(|ids|, k requires 0 <= k < |ids| => RowOf(stream[ids[k]]))
  }

  /**
   A load that fails leaves its entries unacknowledged and its worker free, which is also what a
   crash does; so a batch refused by a cast or a missing partition is a Crash step. A step that is
   not possible does nothing.
   */
  function Exec(s: Sys, step: Step): Sys {
    match step
    case Publish(fields) => s.(stream := s.stream + [fields])
    case Deliver(w, ids) => if CanDeliver(s, w, ids) then s.(workers := s.workers[w := Holding(ids)]) else s
    case Load(w) =>
      if !WorkerAt(s, w).Holding? || !InStream(s, WorkerAt(s, w).ids) then s
      else
        var ids := WorkerAt(s, w).ids;
        var rows := BatchRows(s.stream, ids);
        if !AllStorable(rows) then s.(workers := s.workers[w := Idle])
        else s.(table := StoreAll(s.table, rows), workers := s.workers[w := Committed(ids)],
                batches := s.batches + [ids], counts := s.counts + [Inserted(s.table, rows)])
    case Ack(w) =>
      if !WorkerAt(s, w).Committed? then s
      else s.(acked := s.acked + (set id | id in WorkerAt(s, w).ids), workers := s.workers[w := Idle])
    case Crash(w) => s.(workers := s.workers[w := Idle])
  }

  function Run(s: Sys, steps: seq<Step>): Sys
    decreases |steps|
  {
    if steps == [] then s else Run(Exec(s, steps[0]), steps[1..])
  }

  predicate Initial(s: Sys) {
    s.stream == [] && s.acked == {} && s.table == map[] && s.workers == map[] && s.batches == [] && s.counts == []
  }

  /** The entry's row is in the table, under its key (possibly from an earlier delivery). */
  predicate Held(s: Sys, id: nat) {
    id < |s.stream| && Storable(RowOf(s.stream[id])) && KeyOf(RowOf(s.stream[id])) in s.table
  }

  predicate AllHeld(s: Sys, ids: seq<nat>) {
    forall k :: 0 <= k < |ids| ==> Held(s, ids[k])
  }

  predicate BatchesHeld(s: Sys) {
    forall b :: 0 <= b < |s.batches| ==> AllHeld(s, s.batches[b])
  }

  function Flatten(batches: seq<seq<nat>>): (ids: seq<nat>)
    ensures forall id :: id in ids ==> exists b :: 0 <= b < |batches| && id in batches[b]
  {
    if batches == [] then []
    else
      assert forall b :: 0 <= b < |batches| - 1 ==> batches[..|batches| - 1][b] == batches[b];
      Flatten(batches[..|batches| - 1]) + batches[|batches| - 1]
  }

  function Sum(counts: seq<nat>): nat {
    if counts == [] then 0 else Sum(counts[..|counts| - 1]) + counts[|counts| - 1]
  }

  predicate WorkersHonest(s: Sys) {
    forall w :: w in s.workers ==>
      match s.workers[w]
      case Idle => true
      case Holding(ids) => InStream(s, ids)
      case Committed(ids) => AllHeld(s, ids)
  }

  /** The table is what storing the committed batches one after another gives. */
  predicate Replayable(s: Sys) {
    && InStream(s, Flatten(s.batches))
    && AllStorable(BatchRows(s.stream, Flatten(s.batches)))
    && s.table == StoreAll(map[], BatchRows(s.stream, Flatten(s.batches)))
  }

  predicate Inv(s: Sys) {
    && WorkersHonest(s) && BatchesHeld(s) && Replayable(s)
    && (forall id :: id in s.acked ==> Held(s, id))
    && Sum(s.counts) == |s.table|
  }

  lemma {:induction false} PublishKeepsInv(s: Sys, fields: Fields)
    requires Inv(s)
    ensures Inv(Exec(s, Publish(fields)))
  {
    var t := Exec(s, Publish(fields));
    assert forall id: nat :: id < |s.stream| ==> t.stream[id] == s.stream[id];
    assert forall id: nat :: Held(s, id) ==> Held(t, id);
    assert BatchRows(t.stream, Flatten(t.batches)) == BatchRows(s.stream, Flatten(s.batches));
    forall b | 0 <= b < |t.batches|
      ensures AllHeld(t, t.batches[b])
    {
      assert AllHeld(s, s.batches[b]);
    }
  }

  lemma {:induction false} BatchRowsAppend(stream: seq<Fields>, a: seq<nat>, b: seq<nat>)
    requires forall k :: 0 <= k < |a| ==> a[k] < |stream|
    requires forall k :: 0 <= k < |b| ==> b[k] < |stream|
    ensures forall k :: 0 <= k < |a + b| ==> (a + b)[k] < |stream|
    ensures BatchRows(stream, a + b) == BatchRows(stream, a) + BatchRows(stream, b)
  {}

  /** The state after a worker's batch of storable rows commits. */
  lemma {:induction false} CommitKeepsReplayable(s: Sys, t: Sys, ids: seq<nat>)
    requires Replayable(s) && InStream(s, ids) && AllStorable(BatchRows(s.stream, ids))
    requires t.stream == s.stream && t.batches == s.batches + [ids]
    requires t.table == StoreAll(s.table, BatchRows(s.stream, ids))
    ensures Replayable(t)
  {
    assert Flatten(t.batches) == Flatten(s.batches) + ids by {
      assert t.batches[..|t.batches| - 1] == s.batches;
    }
    BatchRowsAppend(s.stream, Flatten(s.batches), ids);
    StoreAllAppend(map[], BatchRows(s.stream, Flatten(s.batches)), BatchRows(s.stream, ids));
  }

  lemma {:induction false} CommitHolds(s: Sys, t: Sys, ids: seq<nat>)
    requires InStream(s, ids) && AllStorable(BatchRows(s.stream, ids))
    requires t.stream == s.stream && t.table == StoreAll(s.table, BatchRows(s.stream, ids))
    ensures AllHeld(t, ids)
    ensures forall id: nat :: Held(s, id) ==> Held(t, id)
  {
    var rows := BatchRows(s.stream, ids);
    StoreAllKeys(s.table, rows);
    forall k | 0 <= k < |ids|
      ensures Held(t, ids[k])
    {
      assert Storable(rows[k]) && KeyOf(rows[k]) in Keys(rows);
    }
  }

  /** Entries held stay held, so the workers' and the batches' claims survive. */
  lemma {:induction false} ClaimsSurvive(s: Sys, t: Sys)
    requires WorkersHonest(s) && BatchesHeld(s) && t.stream == s.stream
    requires forall id: nat :: Held(s, id) ==> Held(t, id)
    ensures forall w :: w in s.workers && s.workers[w].Committed? ==> AllHeld(t, s.workers[w].ids)
    ensures forall b :: 0 <= b < |s.batches| ==> AllHeld(t, s.batches[b])
  {
    forall b | 0 <= b < |s.batches|
      ensures AllHeld(t, s.batches[b])
    {
      assert AllHeld(s, s.batches[b]);
    }
  }

  lemma {:induction false} CommitKeepsBatches(s: Sys, t: Sys, ids: seq<nat>)
    requires WorkersHonest(s) && BatchesHeld(s) && t.stream == s.stream && t.batches == s.batches + [ids]
    requires AllHeld(t, ids) && forall id: nat :: Held(s, id) ==> Held(t, id)
    ensures BatchesHeld(t)
  {
    ClaimsSurvive(s, t);
  }

  lemma {:induction false} CommitKeepsWorkers(s: Sys, t: Sys, w: nat, ids: seq<nat>)
    requires WorkersHonest(s) && BatchesHeld(s) && t.stream == s.stream && t.workers == s.workers[w := Committed(ids)]
    requires AllHeld(t, ids) && forall id: nat :: Held(s, id) ==> Held(t, id)
    ensures WorkersHonest(t)
  {
    ClaimsSurvive(s, t);
  }

  lemma {:induction false} CommitKeepsClaims(s: Sys, w: nat)
    requires Inv(s) && WorkerAt(s, w).Holding? && AllStorable(BatchRows(s.stream, WorkerAt(s, w).ids))
    ensures var t := Exec(s, Load(w));
      WorkersHonest(t) && BatchesHeld(t) && forall id :: id in t.acked ==> Held(t, id)
  {
    var t, ids := Exec(s, Load(w)), WorkerAt(s, w).ids;
    CommitHolds(s, t, ids);
    CommitKeepsBatches(s, t, ids);
    CommitKeepsWorkers(s, t, w, ids);
  }

  lemma {:induction false} CommitKeepsCounts(s: Sys, w: nat)
    requires Inv(s) && WorkerAt(s, w).Holding? && AllStorable(BatchRows(s.stream, WorkerAt(s, w).ids))
    ensures Sum(Exec(s, Load(w)).counts) == |Exec(s, Load(w)).table|
  {
    InsertedIsGrowth(s.table, BatchRows(s.stream, WorkerAt(s, w).ids));
    assert Exec(s, Load(w)).counts[..|s.counts|] == s.counts;
  }

  lemma {:induction false} CommitKeepsInv(s: Sys, w: nat)
    requires Inv(s) && WorkerAt(s, w).Holding? && AllStorable(BatchRows(s.stream, WorkerAt(s, w).ids))
    ensures Inv(Exec(s, Load(w)))
  {
    var t, ids := Exec(s, Load(w)), WorkerAt(s, w).ids;
    CommitKeepsClaims(s, w);
    CommitKeepsReplayable(s, t, ids);
    CommitKeepsCounts(s, w);
  }

  /** Steps that only move a worker, and acknowledge at most what is held. */
  lemma {:induction false} MoveKeepsInv(s: Sys, t: Sys)
    requires Inv(s) && t == s.(workers := t.workers, acked := t.acked) && WorkersHonest(t)
    requires forall id :: id in t.acked ==> id in s.acked || Held(s, id)
    ensures Inv(t)
  {
    assert forall id: nat :: Held(s, id) ==> Held(t, id);
    ClaimsSurvive(s, t);
  }

  lemma {:induction false} LoadKeepsInv(s: Sys, w: nat)
    requires Inv(s)
    ensures Inv(Exec(s, Load(w)))
  {
    if WorkerAt(s, w).Holding? {
      if AllStorable(BatchRows(s.stream, WorkerAt(s, w).ids)) {
        CommitKeepsInv(s, w);
      } else {
        MoveKeepsInv(s, Exec(s, Load(w)));
      }
    }
  }

  lemma {:induction false} AckKeepsInv(s: Sys, w: nat)
    requires Inv(s)
    ensures Inv(Exec(s, Ack(w)))
  {
    if WorkerAt(s, w).Committed? {
      var ids := WorkerAt(s, w).ids;
      assert AllHeld(s, ids);
      assert forall id :: id in ids ==> Held(s, id);
      MoveKeepsInv(s, Exec(s, Ack(w)));
    }
  }

  lemma {:induction false} DeliverKeepsInv(s: Sys, w: nat, ids: seq<nat>)
    requires Inv(s)
    ensures Inv(Exec(s, Deliver(w, ids)))
  {
    if CanDeliver(s, w, ids) { MoveKeepsInv(s, Exec(s, Deliver(w, ids))); }
  }

  lemma {:induction false} StepKeepsInv(s: Sys, step: Step)
    requires Inv(s)
    ensures Inv(Exec(s, step))
  {
    match step
    case Publish(fields) => PublishKeepsInv(s, fields);
    case Deliver(w, ids) => DeliverKeepsInv(s, w, ids);
    case Load(w) => LoadKeepsInv(s, w);
    case Ack(w) => AckKeepsInv(s, w);
    case Crash(w) => MoveKeepsInv(s, Exec(s, Crash(w)));
  }

  lemma {:induction false} RunKeepsInv(s: Sys, steps: seq<Step>)
    requires Inv(s)
    ensures Inv(Run(s, steps))
    decreases |steps|
  {
    if steps != [] {
      StepKeepsInv(s, steps[0]);
      RunKeepsInv(Exec(s, steps[0]), steps[1..]);
    }
  }

  lemma {:induction false} InitialInv(s: Sys)
    requires Initial(s)
    ensures Inv(s)
  {
    assert BatchRows(s.stream, Flatten(s.batches)) == [];
  }

  // ---------------------------------------------------------------- what the protocol guarantees

  predicate KeyedAt(s: Sys, id: nat, key: Key) {
    id < |s.stream| && Storable(RowOf(s.stream[id])) && KeyOf(RowOf(s.stream[id])) == key
  }

  predicate InBatch(s: Sys, ids: seq<nat>, key: Key) {
    exists k :: 0 <= k < |ids| && KeyedAt(s, ids[k], key)
  }

  /** The key belongs to an entry of a committed batch. */
  predicate CommittedKey(s: Sys, key: Key) {
    exists b :: 0 <= b < |s.batches| && InBatch(s, s.batches[b], key)
  }

  /** The row holds, column by column, the fields of an entry of this batch. */
  predicate HoldsOneOf(s: Sys, ids: seq<nat>, row: Row) {
    exists k :: 0 <= k < |ids| && ids[k] < |s.stream| && Holds(row, s.stream[ids[k]])
  }

  predicate HoldsCommitted(s: Sys, row: Row) {
    exists b :: 0 <= b < |s.batches| && HoldsOneOf(s, s.batches[b], row)
  }

  /** The entry has every required field, and exactly one stored row is of its event. */
  ghost predicate StoredExactlyOnce(s: Sys, id: nat) {
    id < |s.stream| && Complete(s.stream[id]) && StoredOnce(s.table, s.stream[id])
  }

  /**
   Exactly-once storage, for every interleaving: each acknowledged entry, and each entry of a
   committed batch, has exactly one stored row with its event id and time; each stored row holds the
   fields of a committed entry; the table is the sequential replay of the batches, and the counts
   returned add up to its size.
   */
  lemma {:induction false} ExactlyOnce(s: Sys, steps: seq<Step>)
    requires Initial(s)
    ensures var t := Run(s, steps);
      && (forall id :: id in t.acked ==> StoredExactlyOnce(t, id))
      && (forall b, k :: 0 <= b < |t.batches| && 0 <= k < |t.batches[b]| ==> StoredExactlyOnce(t, t.batches[b][k]))
      && (forall key :: key in t.table ==> HoldsCommitted(t, t.table[key]))
      && (forall key :: key in t.table <==> CommittedKey(t, key))
      && Sum(t.counts) == |t.table|
      && Replayable(t)
  {
    InitialInv(s);
    RunKeepsInv(s, steps);
    var t := Run(s, steps);
    ReplayedFromEntries(t);
    forall id: nat | Held(t, id)
      ensures StoredExactlyOnce(t, id)
    {
      HeldIsStoredOnce(t, id);
    }
    forall b, k | 0 <= b < |t.batches| && 0 <= k < |t.batches[b]|
      ensures StoredExactlyOnce(t, t.batches[b][k])
    {
      assert AllHeld(t, t.batches[b]) && Held(t, t.batches[b][k]);
    }
    forall key
      ensures key in t.table <==> CommittedKey(t, key)
      ensures key in t.table ==> HoldsCommitted(t, t.table[key])
    {
      if key in t.table { StoredKeyIsCommitted(t, key); }
      if CommittedKey(t, key) { CommittedKeyIsStored(t, key); }
    }
  }

  function EntriesAt(stream: seq<Fields>, ids: seq<nat>): (entries: seq<Fields>)
    requires forall k :: 0 <= k < |ids| ==> ids[k] < |stream|
    ensures |entries| == |ids| && forall k :: 0 <= k < |ids| ==> entries[k] == stream[ids[k]]
    ensures BatchRows(stream, ids) == RowsOf(entries)
  {
    seq(|ids|, k requires 0 <= k < |ids| => stream[ids[k]])
  }

  lemma {:induction false} ReplayedFromEntries(s: Sys)
    requires Replayable(s)
    ensures FromEntries(s.table)
  {
    var entries := EntriesAt(s.stream, Flatten(s.batches));
    CompleteAreStorable(entries);
    StoreAllKeepsFromEntries(map[], entries);
  }

  lemma {:induction false} HeldIsStoredOnce(s: Sys, id: nat)
    requires FromEntries(s.table) && Held(s, id)
    ensures StoredExactlyOnce(s, id)
  {
    CompleteIsStorable(s.stream[id]);
    HeldKeyIsStoredOnce(s.table, s.stream[id]);
  }

  /** Every row of the table was there before or is a row of the batch. */
  lemma {:induction false} StoredRowComesFrom(t: Table, rows: seq<Row>, key: Key)
    requires AllStorable(rows) && key in StoreAll(t, rows)
    ensures (key in t && StoreAll(t, rows)[key] == t[key])
         || exists j :: 0 <= j < |rows| && rows[j] == StoreAll(t, rows)[key] && KeyOf(rows[j]) == key
    decreases |rows|
  {
    if rows != [] {
      StoredRowComesFrom(Stored(t, rows[0]), rows[1..], key);
      assert forall j :: 0 <= j < |rows| - 1 ==> rows[1..][j] == rows[j + 1];
    }
  }

  /** In any reachable state, a batch of new events is counted in full and each is found with its own field values. */
  lemma {:induction false} NewEventsAreCounted(s: Sys, steps: seq<Step>, w: nat)
    requires Initial(s) && WorkerAt(Run(s, steps), w).Holding?
    ensures var t := Run(s, steps);
      var ids, u := WorkerAt(t, w).ids, Exec(t, Load(w));
      && InStream(t, ids)
      && (AllNew(t.table, EntriesAt(t.stream, ids)) ==>
            && u.counts == t.counts + [|ids|] && u.batches == t.batches + [ids]
            && forall k :: 0 <= k < |ids| ==> StoredAs(u.table, t.stream[ids[k]]))
  {
    InitialInv(s);
    RunKeepsInv(s, steps);
    var t := Run(s, steps);
    ReplayedFromEntries(t);
    var entries := EntriesAt(t.stream, WorkerAt(t, w).ids);
    if AllNew(t.table, entries) {
      CompleteAreStorable(entries);
      NewEventsAreStored(t.table, entries);
    }
  }

  lemma {:induction false} StoredKeyIsCommitted(s: Sys, key: Key)
    requires Replayable(s) && key in s.table
    ensures CommittedKey(s, key) && HoldsCommitted(s, s.table[key])
  {
    var ids := Flatten(s.batches);
    var rows := BatchRows(s.stream, ids);
    StoredRowComesFrom(map[], rows, key);
    var j :| 0 <= j < |rows| && rows[j] == s.table[key] && KeyOf(rows[j]) == key;
    assert ids[j] in ids && KeyedAt(s, ids[j], key);
    HoldsIsRowOf(rows[j], s.stream[ids[j]]);
    var b :| 0 <= b < |s.batches| && ids[j] in s.batches[b];
    assert InBatch(s, s.batches[b], key) && HoldsOneOf(s, s.batches[b], s.table[key]);
  }

  lemma {:induction false} Delivered(s: Sys, w: nat, ids: seq<nat>)
    requires CanDeliver(s, w, ids)
    ensures var t := Exec(s, Deliver(w, ids));
      t.stream == s.stream && t.acked == s.acked && WorkerAt(t, w) == Holding(ids)
  {}

  lemma {:induction false} Loaded(s: Sys, w: nat, ids: seq<nat>)
    requires WorkerAt(s, w) == Holding(ids) && InStream(s, ids) && AllStorable(BatchRows(s.stream, ids))
    ensures Exec(s, Load(w)).acked == s.acked && WorkerAt(Exec(s, Load(w)), w) == Committed(ids)
  {}

  lemma {:induction false} Acked(s: Sys, w: nat, ids: seq<nat>)
    requires WorkerAt(s, w) == Committed(ids)
    ensures Exec(s, Ack(w)).acked == s.acked + (set id | id in ids) && WorkerAt(Exec(s, Ack(w)), w).Idle?
  {}

  /**
   The way through: a free worker that is given entries with every required field, loads them and
   acknowledges them leaves each acknowledged and stored exactly once, whatever happened before.
   */
  lemma {:induction false} DeliveredBatchGetsThrough(s: Sys, steps: seq<Step>, w: nat, ids: seq<nat>)
    requires Initial(s) && CanDeliver(Run(s, steps), w, ids)
    requires AllComplete(EntriesAt(Run(s, steps).stream, ids))
    ensures var t := Run(Run(s, steps), [Deliver(w, ids), Load(w), Ack(w)]);
      && t.acked == Run(s, steps).acked + (set id | id in ids) && WorkerAt(t, w).Idle?
      && forall id :: id in t.acked ==> StoredExactlyOnce(t, id)
  {
    CompleteAreStorable(EntriesAt(Run(s, steps).stream, ids));
    var t := Run(s, steps);
    Delivered(t, w, ids);
    Loaded(Exec(t, Deliver(w, ids)), w, ids);
    Acked(Exec(Exec(t, Deliver(w, ids)), Load(w)), w, ids);
    ThreeSteps(Run(s, steps), Deliver(w, ids), Load(w), Ack(w));
    RunAppend(s, steps, [Deliver(w, ids), Load(w), Ack(w)]);
    ExactlyOnce(s, steps + [Deliver(w, ids), Load(w), Ack(w)]);
  }

  lemma {:induction false} ThreeSteps(s: Sys, x: Step, y: Step, z: Step)
    ensures Run(s, [x, y, z]) == Exec(Exec(Exec(s, x), y), z)
  {
    assert [x, y, z][1..] == [y, z] && [y, z][1..] == [z] && [z][1..] == [];
    assert Run(Exec(Exec(s, x), y), [z]) == Exec(Exec(Exec(s, x), y), z);
  }

  lemma {:induction false} RunAppend(s: Sys, a: seq<Step>, b: seq<Step>)
    ensures Run(s, a + b) == Run(Run(s, a), b)
    decreases |a|
  {
    if a == [] {
      assert a + b == b;
    } else {
      assert (a + b)[0] == a[0] && (a + b)[1..] == a[1..] + b;
      RunAppend(Exec(s, a[0]), a[1..], b);
    }
  }

  lemma {:induction false} CommittedKeyIsStored(s: Sys, key: Key)
    requires BatchesHeld(s) && CommittedKey(s, key)
    ensures key in s.table
  {
    var b :| 0 <= b < |s.batches| && InBatch(s, s.batches[b], key);
    var k :| 0 <= k < |s.batches[b]| && KeyedAt(s, s.batches[b][k], key);
    assert AllHeld(s, s.batches[b]) && Held(s, s.batches[b][k]);
  }

  /** Redelivering any committed batch, however much later, inserts nothing and returns 0. */
  lemma {:induction false} ReplayReturnsZero(s: Sys, steps: seq<Step>, b: nat)
    requires Initial(s) && b < |Run(s, steps).batches|
    ensures var t := Run(s, steps);
      && InStream(t, t.batches[b]) && AllStorable(BatchRows(t.stream, t.batches[b]))
      && StoreAll(t.table, BatchRows(t.stream, t.batches[b])) == t.table
      && Inserted(t.table, BatchRows(t.stream, t.batches[b])) == 0
  {
    InitialInv(s);
    RunKeepsInv(s, steps);
    var t := Run(s, steps);
    var ids := t.batches[b];
    assert AllHeld(t, ids);
    assert forall k :: 0 <= k < |ids| ==> Held(t, ids[k]);
    ReplayChangesNothing(t.table, BatchRows(t.stream, ids));
    InsertedIsGrowth(t.table, BatchRows(t.stream, ids));
  }

  /**
   When redelivered and retried entries carry the same row for the same key, two runs that
   committed the same entries end with the same table, however the entries were batched and
   interleaved.
   */
  lemma {:induction false} InterleavingIrrelevant(s: Sys, a: seq<Step>, b: seq<Step>)
    requires Initial(s) && Run(s, a).stream == Run(s, b).stream
    requires forall id :: id in Flatten(Run(s, a).batches) <==> id in Flatten(Run(s, b).batches)
    requires forall i, j :: 0 <= i < |Run(s, a).stream| && 0 <= j < |Run(s, a).stream| ==>
      SameRowIfSameKey(RowOf(Run(s, a).stream[i]), RowOf(Run(s, a).stream[j]))
    ensures Run(s, a).table == Run(s, b).table
  {
    InitialInv(s);
    RunKeepsInv(s, a);
    RunKeepsInv(s, b);
    var stream, x, y := Run(s, a).stream, Flatten(Run(s, a).batches), Flatten(Run(s, b).batches);
    SameEntriesSameRows(stream, x, y);
    SameEntriesSameRows(stream, y, x);
    OrderIrrelevant(map[], BatchRows(stream, x), BatchRows(stream, y));
  }

  predicate SameRowIfSameKey(x: Row, y: Row) {
    Storable(x) && Storable(y) && KeyOf(x) == KeyOf(y) ==> x == y
  }

  lemma {:induction false} SameEntriesSameRows(stream: seq<Fields>, x: seq<nat>, y: seq<nat>)
    requires forall k :: 0 <= k < |x| ==> x[k] < |stream|
    requires forall k :: 0 <= k < |y| ==> y[k] < |stream|
    requires forall id :: id in x ==> id in y
    ensures forall r :: r in BatchRows(stream, x) ==> r in BatchRows(stream, y)
  {
    forall r | r in BatchRows(stream, x)
      ensures r in BatchRows(stream, y)
    {
      var j :| 0 <= j < |x| && BatchRows(stream, x)[j] == r;
      assert x[j] in y;
      var k :| 0 <= k < |y| && y[k] == x[j];
      assert BatchRows(stream, y)[k] == r;
    }
  }

  /** The table only grows, and a stored row is never replaced. */
  lemma {:induction false} StoredRowsStay(s: Sys, steps: seq<Step>)
    ensures s.table.Keys <= Run(s, steps).table.Keys
    ensures forall key :: key in s.table ==> Run(s, steps).table[key] == s.table[key]
    decreases |steps|
  {
    if steps != [] {
      var t := Exec(s, steps[0]);
      if steps[0].Load? && WorkerAt(s, steps[0].worker).Holding? && InStream(s, WorkerAt(s, steps[0].worker).ids) {
        var rows := BatchRows(s.stream, WorkerAt(s, steps[0].worker).ids);
        if AllStorable(rows) { StoreAllKeys(s.table, rows); }
      }
      assert s.table.Keys <= t.table.Keys && forall key :: key in s.table ==> t.table[key] == s.table[key];
      StoredRowsStay(t, steps[1..]);
    }
  }

  /** An entry without a required field is never acknowledged and nothing is stored for a batch that holds it. */
  lemma {:induction false} PoisonIsNeverCommitted(s: Sys, steps: seq<Step>, id: nat)
    requires Initial(s)
    ensures var t := Run(s, steps);
      id < |t.stream| && !Complete(t.stream[id]) ==>
        id !in t.acked && forall b :: 0 <= b < |t.batches| ==> id !in t.batches[b]
  {
    InitialInv(s);
    RunKeepsInv(s, steps);
    var t := Run(s, steps);
    if id < |t.stream| { CompleteIsStorable(t.stream[id]); }
    forall b | 0 <= b < |t.batches| && id in t.batches[b]
      ensures Held(t, id)
    {
      assert AllHeld(t, t.batches[b]);
      var k :| 0 <= k < |t.batches[b]| && t.batches[b][k] == id;
      assert Held(t, t.batches[b][k]);
    }
  }
}
