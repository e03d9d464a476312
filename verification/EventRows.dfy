/**
 A stream entry and its row (worker/main.py): the cells the loader copies, the key the insert
 conflicts on, and both again in terms of the entry's fields by name.
 */
module EventRows {
  import opened Common

  /** A stream entry's fields, decoded; a null field is None. */
  type Fields = map<string, Option<string>>

  const EVENT_COLUMNS: seq<string> := [
    "event_id", "occurred_at", "session_id", "visitor_hash", "name", "path",
    "product_id", "variant_id", "cart_id", "device", "browser", "os", "country",
    "referrer_host", "utm", "props"]

  /** One value per column, in the order of EVENT_COLUMNS. */
  type Row = seq<Option<string>>

  /** The primary key (event_id, occurred_at). */
  datatype Key = Key(eventId: string, occurredAt: string)

  /** A missing, null or empty field is stored as null. */
  function Cell(fields: Fields, column: string): Option<string> {
    if column !in fields || fields[column] == None || fields[column] == Some("") then None else fields[column]
  }

  function RowOf(fields: Fields): (row: Row)
    ensures |row| == |EVENT_COLUMNS|
  {
    seq(|EVENT_COLUMNS|, k requires 0 <= k < |EVENT_COLUMNS| => Cell(fields, EVENT_COLUMNS[k]))
  }

  function RowsOf(entries: seq<Fields>): (rows: seq<Row>)
    ensures |rows| == |entries|
    ensures forall k :: 0 <= k < |entries| ==> rows[k] == RowOf(entries[k])
  {
    seq(|entries|, k requires 0 <= k < |entries| => RowOf(entries[k]))
  }

  /** The NOT NULL columns among EVENT_COLUMNS, which the temp table inherits. */
  predicate Storable(row: Row) {
    && |row| == |EVENT_COLUMNS|
    && row[0].Some? && row[1].Some? && row[2].Some? && row[3].Some? && row[4].Some? && row[15].Some?
  }

  function LowerChar(c: char): char {
    if 'A' <= c <= 'Z' then c - 'A' + 'a' else c
  }

  /** uuid columns compare without regard to case. */
  function Lower(text: string): string {
    if text == "" then "" else [LowerChar(text[0])] + Lower(text[1..])
  }

  function KeyOf(row: Row): Key
    requires Storable(row)
  {
    Key(Lower(row[0].value), row[1].value)
  }

  // ---------------------------------------------------------------- the same in terms of the fields

  /** The field is there, not null and not empty. */
  predicate Filled(e: Fields, name: string) {
    name in e && e[name].Some? && e[name].value != ""
  }

  /** The field's text, or null. */
  function FieldOf(e: Fields, name: string): Option<string> {
    if Filled(e, name) then e[name] else None
  }

  const REQUIRED: set<string> := {"event_id", "occurred_at", "session_id", "visitor_hash", "name", "props"}

  /** Nothing the landing zone declares NOT NULL is missing. */
  predicate Complete(e: Fields) {
    forall name :: name in REQUIRED ==> Filled(e, name)
  }

  predicate SameLetter(x: char, y: char) {
    || x == y
    || ('A' <= x <= 'Z' && y as int == x as int + 32)
    || ('A' <= y <= 'Z' && x as int == y as int + 32)
  }

  predicate SameUpToCase(a: string, b: string) {
    |a| == |b| && forall k :: 0 <= k < |a| ==> SameLetter(a[k], b[k])
  }

  /** One event, sent twice perhaps: equal ids and equal times. */
  predicate SameEvent(a: Fields, b: Fields)
    requires Complete(a) && Complete(b)
  {
    && SameUpToCase(a["event_id"].value, b["event_id"].value)
    && a["occurred_at"] == b["occurred_at"]
  }

  /** The row has each field of the entry in the column of its name. */
  predicate Holds(row: Row, e: Fields) {
    |row| == |EVENT_COLUMNS| && forall k :: 0 <= k < |row| ==> row[k] == FieldOf(e, EVENT_COLUMNS[k])
  }

  /** The row, of whatever entry, carries this entry's id and time. */
  ghost predicate IsEventOf(row: Row, e: Fields)
    requires Complete(e)
  {
    exists x :: Complete(x) && Holds(row, x) && SameEvent(x, e)
  }

  // ---------------------------------------------------------------- when two entries conflict

  lemma {:induction false} LowerIsCaseBlind(a: string, b: string)
    ensures Lower(a) == Lower(b) <==> SameUpToCase(a, b)
  {
    LowerLength(a);
    LowerLength(b);
    if a != "" && b != "" {
      LowerIsCaseBlind(a[1..], b[1..]);
      LowerCharIsCaseBlind(a[0], b[0]);
      assert Lower(a)[0] == LowerChar(a[0]) && Lower(a)[1..] == Lower(a[1..]);
      assert Lower(b)[0] == LowerChar(b[0]) && Lower(b)[1..] == Lower(b[1..]);
      assert SameUpToCase(a, b) <==> SameLetter(a[0], b[0]) && SameUpToCase(a[1..], b[1..]) by {
        assert forall k :: 1 <= k < |a| && k < |b| ==> a[k] == a[1..][k - 1] && b[k] == b[1..][k - 1];
        assert forall k :: 0 <= k < |a| - 1 && k < |b| - 1 ==> a[1..][k] == a[k + 1] && b[1..][k] == b[k + 1];
      }
    }
  }

  lemma {:induction false} LowerLength(a: string)
    ensures |Lower(a)| == |a|
  {
    if a != "" { LowerLength(a[1..]); }
  }

  lemma {:induction false} LowerCharIsCaseBlind(x: char, y: char)
    ensures LowerChar(x) == LowerChar(y) <==> SameLetter(x, y)
  {}

  lemma {:induction false} HoldsIsRowOf(row: Row, e: Fields)
    ensures Holds(row, e) <==> row == RowOf(e)
  {
    assert forall k :: 0 <= k < |EVENT_COLUMNS| ==> Cell(e, EVENT_COLUMNS[k]) == FieldOf(e, EVENT_COLUMNS[k]);
  }

  lemma {:induction false} CompleteIsStorable(e: Fields)
    ensures Storable(RowOf(e)) <==> Complete(e)
  {
    var row := RowOf(e);
    assert row[0] == FieldOf(e, "event_id") && row[1] == FieldOf(e, "occurred_at") && row[2] == FieldOf(e, "session_id");
    assert row[3] == FieldOf(e, "visitor_hash") && row[4] == FieldOf(e, "name") && row[15] == FieldOf(e, "props");
  }

  /** The conflict target of the insert, read off the fields: same id up to case, same time. */
  lemma {:induction false} ConflictIff(a: Fields, b: Fields)
    requires Complete(a) && Complete(b)
    ensures Storable(RowOf(a)) && Storable(RowOf(b))
    ensures KeyOf(RowOf(a)) == KeyOf(RowOf(b)) <==> SameEvent(a, b)
  {
    CompleteIsStorable(a);
    CompleteIsStorable(b);
    LowerIsCaseBlind(a["event_id"].value, b["event_id"].value);
    assert RowOf(a)[0] == FieldOf(a, "event_id") && RowOf(a)[1] == FieldOf(a, "occurred_at");
    assert RowOf(b)[0] == FieldOf(b, "event_id") && RowOf(b)[1] == FieldOf(b, "occurred_at");
  }
}
