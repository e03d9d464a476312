/**
 The inventory ledger (db/migrations/20260805000006_ops_inventory.sql): an append-only
 table of movements, a trigger that folds each movement into the cached balance of its
 component, and the row-level CHECK `stock_sane` on that balance.
 */
module Inventory {
  import opened Common

  /** The cached columns of one ops.components row. */
  datatype Balance = Balance(onHand: int, reserved: int) {
    function Add(b: Balance): Balance { Balance(onHand + b.onHand, reserved + b.reserved) }
  }

  const ZERO := Balance(0, 0)

  /** `stock_sane`, together with the width of the two columns. */
  predicate Sane(b: Balance) {
    0 <= b.reserved <= b.onHand <= INT4_MAX
  }

  predicate AllSane(cs: seq<Balance>) {
    forall c :: 0 <= c < |cs| ==> Sane(cs[c])
  }

  datatype Reason = Receive | Consume | Damage | Return | Correction | CancelRestock | Reserve | Unreserve

  datatype Row = Row(component: nat, delta: int, reservedDelta: int, reason: Reason, item: Option<nat>)

  /** What a row says on its own: it fits the columns and `ledger_moves_something`. */
  function RowError(r: Row): Option<Error> {
    if !Int4(r.delta) || !Int4(r.reservedDelta) then Some(OutOfRange)
    else if r.delta == 0 && r.reservedDelta == 0 then Some(CheckViolation)
    else None
  }

  function FirstRowError(rows: seq<Row>): Option<Error> {
    if rows == [] then None
    else if RowError(rows[0]).Some? then RowError(rows[0])
    else FirstRowError(rows[1..])
  }

  function Moved(b: Balance, r: Row): Balance {
    Balance(b.onHand + r.delta, b.reserved + r.reservedDelta)
  }

  /** apply_ledger for one row, with the foreign key and the CHECK on the updated balance. */
  function ApplyRow(cs: seq<Balance>, r: Row): Result<seq<Balance>> {
    if r.component >= |cs| then Err(ForeignKey)
    else
      var b := Moved(cs[r.component], r);
      if !Int4(b.onHand) || !Int4(b.reserved) then Err(OutOfRange)
      else if !Sane(b) then Err(CheckViolation)
      else Ok(cs[r.component := b])
  }

  /** The AFTER ROW trigger over a whole statement: one row at a time, checked after each. */
  function ApplyAll(cs: seq<Balance>, rows: seq<Row>): Result<seq<Balance>>
    decreases |rows|
  {
    if rows == [] then Ok(cs)
    else match ApplyRow(cs, rows[0])
      case Err(e) => Err(e)
      case Ok(cs') => ApplyAll(cs', rows[1..])
  }

  /** One INSERT ... SELECT: row constraints at insertion, then the trigger for every row. */
  function InsertRows(cs: seq<Balance>, rows: seq<Row>): Result<seq<Balance>> {
    match FirstRowError(rows)
    case Some(e) => Err(e)
    case None => ApplyAll(cs, rows)
  }

  // ---------------------------------------------------------------- sums over the ledger

  /** sum(delta) and sum(reserved_delta) over the rows of one component. */
  function Total(rows: seq<Row>, c: nat): Balance {
    if rows == [] then ZERO
    else if rows[0].component == c then Balance(rows[0].delta, rows[0].reservedDelta).Add(Total(rows[1..], c))
    else Total(rows[1..], c)
  }

  /** The two sums over all components, as restock_for_item computes them for one line. */
  function Net(rows: seq<Row>): Balance {
    if rows == [] then ZERO
    else Balance(rows[0].delta, rows[0].reservedDelta).Add(Net(rows[1..]))
  }

  /** The rows that carry one order line's id, in ledger order. */
  function RowsOf(rows: seq<Row>, item: nat): seq<Row> {
    if rows == [] then []
    else if rows[0].item == Some(item) then [rows[0]] + RowsOf(rows[1..], item)
    else RowsOf(rows[1..], item)
  }

  /** A component row returned by ops.ledger_drift. */
  predicate Drifted(cs: seq<Balance>, ledger: seq<Row>, c: nat)
    requires c < |cs|
  {
    cs[c] != Total(ledger, c)
  }

  lemma {:induction false} TotalAppend(a: seq<Row>, b: seq<Row>, c: nat)
    ensures Total(a + b, c) == Total(a, c).Add(Total(b, c))
  {
    if a == [] {
      assert a + b == b;
    } else {
      assert (a + b)[0] == a[0] && (a + b)[1..] == a[1..] + b;
      TotalAppend(a[1..], b, c);
    }
  }

  lemma {:induction false} NetAppend(a: seq<Row>, b: seq<Row>)
    ensures Net(a + b) == Net(a).Add(Net(b))
  {
    if a == [] {
      assert a + b == b;
    } else {
      assert (a + b)[1..] == a[1..] + b;
      NetAppend(a[1..], b);
    }
  }

  lemma {:induction false} RowsOfAppend(a: seq<Row>, b: seq<Row>, item: nat)
    ensures RowsOf(a + b, item) == RowsOf(a, item) + RowsOf(b, item)
  {
    if a == [] {
      assert a + b == b;
    } else {
      assert (a + b)[1..] == a[1..] + b;
      RowsOfAppend(a[1..], b, item);
    }
  }

  lemma {:induction false} AddSwap(a: Balance, b: Balance, c: Balance)
    ensures a.Add(b.Add(c)) == b.Add(a.Add(c))
  {}

  lemma {:induction false} TotalMiddle(x: seq<Row>, r: Row, y: seq<Row>, c: nat)
    ensures Total(x + ([r] + y), c) == Total([r], c).Add(Total(x + y, c))
  {
    calc {
      Total(x + ([r] + y), c);
      { TotalAppend(x, [r] + y, c); }
      Total(x, c).Add(Total([r] + y, c));
      { TotalAppend([r], y, c); }
      Total(x, c).Add(Total([r], c).Add(Total(y, c)));
      { AddSwap(Total(x, c), Total([r], c), Total(y, c)); }
      Total([r], c).Add(Total(x, c).Add(Total(y, c)));
      { TotalAppend(x, y, c); }
      Total([r], c).Add(Total(x + y, c));
    }
  }

  /** Sums do not depend on the order in which a statement emits its rows. */
  lemma {:induction false} TotalPermutation(a: seq<Row>, b: seq<Row>, c: nat)
    requires multiset(a) == multiset(b)
    ensures Total(a, c) == Total(b, c)
    decreases |a|
  {
    if a == [] {
      assert |multiset(b)| == 0;
    } else {
      var r, tail := a[0], a[1..];
      assert a == [r] + tail;
      var x, y := TakeOut(r, tail, b);
      assert b == x + ([r] + y);
      TotalPermutation(tail, x + y, c);
      TotalMiddle(x, r, y, c);
      TotalAppend([r], tail, c);
    }
  }

  // ---------------------------------------------------------------- the trigger and its cache

  /** A statement that succeeds moves every cached balance by exactly its ledger sums. */
  lemma {:induction false} ApplyMovesByTotals(cs: seq<Balance>, rows: seq<Row>)
    requires ApplyAll(cs, rows).Ok?
    ensures var cs' := ApplyAll(cs, rows).value;
      |cs'| == |cs| && forall c :: 0 <= c < |cs| ==> cs'[c] == cs[c].Add(Total(rows, c))
    ensures AllSane(cs) ==> AllSane(ApplyAll(cs, rows).value)
    decreases |rows|
  {
    if rows != [] {
      ApplyMovesByTotals(ApplyRow(cs, rows[0]).value, rows[1..]);
    }
  }

  // ---------------------------------------------------------------- one-directional statements

  /** How many units a row moves, when it moves on-hand stock, reservations or both equally. */
  function Amount(r: Row): int {
    var x := if r.delta != 0 then r.delta else r.reservedDelta;
    if x < 0 then -x else x
  }

  /** Every statement the shop issues moves all of its rows in one direction (a, b). */
  predicate Directed(rows: seq<Row>, a: int, b: int)
    requires -1 <= a <= 1 && -1 <= b <= 1
  {
    forall r :: r in rows ==>
      Amount(r) > 0 && r.delta == Scale(a, Amount(r)) && r.reservedDelta == Scale(b, Amount(r))
  }

  function Units(rows: seq<Row>, c: nat): int {
    if rows == [] then 0
    else (if rows[0].component == c then Amount(rows[0]) else 0) + Units(rows[1..], c)
  }

  /** The balance of component `c` after all the rows, wherever it passed through. */
  function After(cs: seq<Balance>, rows: seq<Row>, a: int, b: int, c: nat): Balance
    requires -1 <= a <= 1 && -1 <= b <= 1 && c < |cs|
  {
    Balance(cs[c].onHand + Scale(a, Units(rows, c)), cs[c].reserved + Scale(b, Units(rows, c)))
  }

  lemma {:induction false} UnitsNonNegative(rows: seq<Row>, c: nat)
    ensures Units(rows, c) >= 0
  {
    if rows != [] { UnitsNonNegative(rows[1..], c); }
  }

  lemma {:induction false} DirectedTotals(rows: seq<Row>, a: int, b: int, c: nat)
    requires -1 <= a <= 1 && -1 <= b <= 1 && Directed(rows, a, b)
    ensures Total(rows, c) == Balance(Scale(a, Units(rows, c)), Scale(b, Units(rows, c)))
  {
    if rows != [] {
      assert rows[0] in rows;
      DirectedTotals(rows[1..], a, b, c);
    }
  }

  /** A check after every row refuses exactly what one check at the end would refuse. */
  lemma {:induction false} CheckPerRowIsCheckAtEnd(cs: seq<Balance>, rows: seq<Row>, a: int, b: int)
    requires -1 <= a <= 1 && -1 <= b <= 1 && AllSane(cs) && Directed(rows, a, b)
    requires forall r :: r in rows ==> r.component < |cs|
    ensures ApplyAll(cs, rows).Ok? <==> forall c :: 0 <= c < |cs| ==> Sane(After(cs, rows, a, b, c))
    ensures ApplyAll(cs, rows).Ok? ==> FirstRowError(rows).None?
    decreases |rows|
  {
    if rows == [] {
      assert forall c :: 0 <= c < |cs| ==> After(cs, rows, a, b, c) == cs[c];
    } else {
      var r, rest := rows[0], rows[1..];
      assert r in rows;
      UnitsNonNegative(rest, r.component);
      if Sane(Moved(cs[r.component], r)) {
        var cs' := cs[r.component := Moved(cs[r.component], r)];
        assert ApplyRow(cs, r) == Ok(cs');
        assert forall c :: 0 <= c < |cs| ==> After(cs', rest, a, b, c) == After(cs, rows, a, b, c);
        CheckPerRowIsCheckAtEnd(cs', rest, a, b);
      } else {
        assert ApplyAll(cs, rows).Err?;
        assert !Sane(After(cs, rows, a, b, r.component));
      }
    }
  }

  /** The same for the whole INSERT, in terms of ledger sums only. */
  lemma {:induction false} InsertSucceedsIff(cs: seq<Balance>, rows: seq<Row>, a: int, b: int)
    requires -1 <= a <= 1 && -1 <= b <= 1 && AllSane(cs) && Directed(rows, a, b)
    requires forall r :: r in rows ==> r.component < |cs|
    ensures InsertRows(cs, rows).Ok? <==> forall c :: 0 <= c < |cs| ==> Sane(cs[c].Add(Total(rows, c)))
  {
    CheckPerRowIsCheckAtEnd(cs, rows, a, b);
    forall c | 0 <= c < |cs|
      ensures cs[c].Add(Total(rows, c)) == After(cs, rows, a, b, c)
    {
      DirectedTotals(rows, a, b, c);
    }
  }

  /**
   The executor may emit the rows of an INSERT ... SELECT in any order: whether the statement
   succeeds, and the balances it leaves, are the same.
   */
  lemma {:induction false} RowOrderIrrelevant(cs: seq<Balance>, rows: seq<Row>, other: seq<Row>, a: int, b: int)
    requires -1 <= a <= 1 && -1 <= b <= 1 && AllSane(cs) && Directed(rows, a, b)
    requires forall r :: r in rows ==> r.component < |cs|
    requires multiset(rows) == multiset(other)
    ensures InsertRows(cs, rows).Ok? <==> InsertRows(cs, other).Ok?
    ensures InsertRows(cs, rows).Ok? ==> InsertRows(cs, rows) == InsertRows(cs, other)
  {
    forall r | r in other
      ensures r in rows
    {
      assert r in multiset(other);
    }
    forall c: nat
      ensures Total(rows, c) == Total(other, c)
    {
      TotalPermutation(rows, other, c);
    }
    InsertSucceedsIff(cs, rows, a, b);
    InsertSucceedsIff(cs, other, a, b);
    if InsertRows(cs, rows).Ok? {
      ApplyMovesByTotals(cs, rows);
      ApplyMovesByTotals(cs, other);
      assert InsertRows(cs, rows).value == InsertRows(cs, other).value;
    }
  }

  // ---------------------------------------------------------------- bill of materials

  datatype BomLine = BomLine(component: nat, qty: int)

  /** Primary key (variant_id, component_id), qty > 0 and the component reference. */
  predicate ValidLines(lines: seq<BomLine>, components: nat) {
    && (forall k :: 0 <= k < |lines| ==> lines[k].component < components && lines[k].qty > 0)
    && (forall j, k :: 0 <= j < k < |lines| ==> lines[j].component != lines[k].component)
  }

  function BomQty(lines: seq<BomLine>, c: nat): int {
    if lines == [] then 0
    else if lines[0].component == c then lines[0].qty
    else BomQty(lines[1..], c)
  }

  /** Units of component `c` that `qty` pieces take. */
  function Need(lines: seq<BomLine>, qty: int, c: nat): int {
    BomQty(lines, c) * qty
  }

  /** One ledger row per BOM line: direction (a, b) times vc.qty * oi.qty. */
  function ItemRows(lines: seq<BomLine>, qty: int, item: nat, a: int, b: int, reason: Reason): seq<Row>
    requires -1 <= a <= 1 && -1 <= b <= 1
  {
    if lines == [] then []
    else
      var n := lines[0].qty * qty;
      [Row(lines[0].component, Scale(a, n), Scale(b, n), reason, Some(item))]
      + ItemRows(lines[1..], qty, item, a, b, reason)
  }

  lemma {:induction false} BomQtyAbsent(lines: seq<BomLine>, c: nat)
    requires forall k :: 0 <= k < |lines| ==> lines[k].component != c
    ensures BomQty(lines, c) == 0
  {
    if lines != [] { BomQtyAbsent(lines[1..], c); }
  }

  lemma {:induction false} BomQtyBounds(lines: seq<BomLine>, components: nat, c: nat)
    requires ValidLines(lines, components)
    ensures BomQty(lines, c) >= 0
    ensures BomQty(lines, c) > 0 <==> exists k :: 0 <= k < |lines| && lines[k].component == c
    ensures forall k :: 0 <= k < |lines| ==> BomQty(lines, lines[k].component) == lines[k].qty
  {
    if lines != [] {
      BomQtyBounds(lines[1..], components, c);
      forall k | 0 <= k < |lines|
        ensures BomQty(lines, lines[k].component) == lines[k].qty
      {
        if k > 0 { assert lines[1..][k - 1] == lines[k]; assert lines[0].component != lines[k].component; }
      }
      if exists k :: 0 <= k < |lines| && lines[k].component == c {
        var k :| 0 <= k < |lines| && lines[k].component == c;
        if k > 0 { assert lines[1..][k - 1].component == c; }
      }
    }
  }

  lemma {:induction false} NeedNonNegative(lines: seq<BomLine>, components: nat, qty: int, c: nat)
    requires ValidLines(lines, components) && qty >= 0
    ensures Need(lines, qty, c) >= 0
  {
    BomQtyBounds(lines, components, c);
  }

  /** What one line's rows add up to, component by component. */
  lemma {:induction false} ItemRowsTotal(lines: seq<BomLine>, components: nat, qty: int, item: nat, a: int, b: int, reason: Reason, c: nat)
    requires -1 <= a <= 1 && -1 <= b <= 1 && ValidLines(lines, components)
    ensures Total(ItemRows(lines, qty, item, a, b, reason), c)
         == Balance(Scale(a, Need(lines, qty, c)), Scale(b, Need(lines, qty, c)))
  {
    if lines != [] {
      var rest := ItemRows(lines[1..], qty, item, a, b, reason);
      ItemRowsTotal(lines[1..], components, qty, item, a, b, reason, c);
      assert ItemRows(lines, qty, item, a, b, reason)[1..] == rest;
      if lines[0].component == c { BomQtyAbsent(lines[1..], c); }
    }
  }

  /** Shape of one line's rows: they all carry its id and reason, and move in one direction. */
  lemma {:induction false} ItemRowsShape(lines: seq<BomLine>, components: nat, qty: int, item: nat, a: int, b: int, reason: Reason)
    requires -1 <= a <= 1 && -1 <= b <= 1 && ValidLines(lines, components) && qty > 0
    ensures var rows := ItemRows(lines, qty, item, a, b, reason);
      && |rows| == |lines|
      && (forall k :: 0 <= k < |rows| ==>
            rows[k].component == lines[k].component && rows[k].item == Some(item) && rows[k].reason == reason)
      && (a != 0 || b != 0 ==> Directed(rows, a, b))
      && (a == 0 && b == 0 && lines != [] ==> FirstRowError(rows) == Some(CheckViolation))
  {
    if lines != [] {
      ItemRowsShape(lines[1..], components, qty, item, a, b, reason);
      assert lines[0].qty * qty > 0;
    }
  }

  lemma {:induction false} ItemRowsReason(lines: seq<BomLine>, qty: int, item: nat, a: int, b: int, reason: Reason)
    requires -1 <= a <= 1 && -1 <= b <= 1
    ensures var rows := ItemRows(lines, qty, item, a, b, reason);
      |rows| == |lines| && forall k :: 0 <= k < |rows| ==> rows[k].reason == reason && rows[k].item == Some(item)
  {
    if lines != [] { ItemRowsReason(lines[1..], qty, item, a, b, reason); }
  }

  /** Units of all components together that `qty` pieces take. */
  function Pieces(lines: seq<BomLine>, qty: int): int {
    if lines == [] then 0 else lines[0].qty * qty + Pieces(lines[1..], qty)
  }

  lemma {:induction false} PiecesPositive(lines: seq<BomLine>, components: nat, qty: int)
    requires ValidLines(lines, components) && qty > 0
    ensures Pieces(lines, qty) >= 0 && (Pieces(lines, qty) > 0 <==> lines != [])
  {
    if lines != [] {
      assert lines[0].qty * qty > 0;
      PiecesPositive(lines[1..], components, qty);
    }
  }

  /** One more row, moving `n` units in direction (a, b). */
  lemma {:induction false} NetCons(c: nat, n: int, m: int, a: int, b: int, reason: Reason, item: nat, rest: seq<Row>)
    requires -1 <= a <= 1 && -1 <= b <= 1 && Net(rest) == Balance(Scale(a, m), Scale(b, m))
    ensures Net([Row(c, Scale(a, n), Scale(b, n), reason, Some(item))] + rest) == Balance(Scale(a, n + m), Scale(b, n + m))
  {
    var rows := [Row(c, Scale(a, n), Scale(b, n), reason, Some(item))] + rest;
    assert rows[1..] == rest;
  }

  /** The two whole-line sums that restock_for_item looks at have the sign of the direction. */
  lemma {:induction false} ItemRowsNet(lines: seq<BomLine>, qty: int, item: nat, a: int, b: int, reason: Reason)
    requires -1 <= a <= 1 && -1 <= b <= 1
    ensures Net(ItemRows(lines, qty, item, a, b, reason)) == Balance(Scale(a, Pieces(lines, qty)), Scale(b, Pieces(lines, qty)))
  {
    if lines != [] {
      ItemRowsNet(lines[1..], qty, item, a, b, reason);
      NetCons(lines[0].component, lines[0].qty * qty, Pieces(lines[1..], qty), a, b, reason, item,
              ItemRows(lines[1..], qty, item, a, b, reason));
    }
  }

  lemma {:induction false} RowsOfItemRows(lines: seq<BomLine>, qty: int, item: nat, a: int, b: int, reason: Reason, other: nat)
    requires -1 <= a <= 1 && -1 <= b <= 1
    ensures RowsOf(ItemRows(lines, qty, item, a, b, reason), other)
         == if other == item then ItemRows(lines, qty, item, a, b, reason) else []
  {
    if lines != [] { RowsOfItemRows(lines[1..], qty, item, a, b, reason, other); }
  }

  // ---------------------------------------------------------------- ops.variant_buildable

  /** min((on_hand - reserved) / qty) over a non-empty BOM. */
  function Buildable(cs: seq<Balance>, lines: seq<BomLine>): int
    requires lines != [] && ValidLines(lines, |cs|)
  {
    var here := (cs[lines[0].component].onHand - cs[lines[0].component].reserved) / lines[0].qty;
    if |lines| == 1 then here
    else
      var rest := Buildable(cs, lines[1..]);
      if rest < here then rest else here
  }

  lemma {:induction false} DivisionBound(n: int, q: int, available: int)
    requires q > 0 && available >= 0
    ensures n <= available / q <==> q * n <= available
  {
    var d := available / q;
    assert q * d <= available < q * d + q;
    if n <= d { assert q * n <= q * d; }
    else { assert q * n >= q * (d + 1); }
  }

  lemma {:induction false} BuildableIsTight(cs: seq<Balance>, lines: seq<BomLine>, n: int)
    requires lines != [] && ValidLines(lines, |cs|) && AllSane(cs)
    ensures n <= Buildable(cs, lines) <==>
      forall k :: 0 <= k < |lines| ==>
        lines[k].qty * n <= cs[lines[k].component].onHand - cs[lines[k].component].reserved
  {
    var b := cs[lines[0].component];
    DivisionBound(n, lines[0].qty, b.onHand - b.reserved);
    if |lines| > 1 {
      BuildableIsTight(cs, lines[1..], n);
      assert forall k :: 1 <= k < |lines| ==> lines[k] == lines[1..][k - 1];
      assert forall k :: 0 <= k < |lines| - 1 ==> lines[1..][k] == lines[k + 1];
    }
  }

  /** Reserving one line of `n` pieces succeeds exactly when n <= buildable. */
  lemma {:induction false} BuildableIsExact(cs: seq<Balance>, lines: seq<BomLine>, n: int, item: nat)
    requires lines != [] && ValidLines(lines, |cs|) && AllSane(cs) && n > 0
    ensures InsertRows(cs, ItemRows(lines, n, item, 0, 1, Reserve)).Ok? <==> n <= Buildable(cs, lines)
  {
    var rows := ItemRows(lines, n, item, 0, 1, Reserve);
    ItemRowsShape(lines, |cs|, n, item, 0, 1, Reserve);
    InsertSucceedsIff(cs, rows, 0, 1);
    BuildableIsTight(cs, lines, n);
    forall c: nat
      ensures Total(rows, c) == Balance(0, Need(lines, n, c)) && Need(lines, n, c) >= 0
    {
      ItemRowsTotal(lines, |cs|, n, item, 0, 1, Reserve, c);
      NeedNonNegative(lines, |cs|, n, c);
    }
    forall k | 0 <= k < |lines|
      ensures Need(lines, n, lines[k].component) == lines[k].qty * n
    {
      BomQtyBounds(lines, |cs|, lines[k].component);
    }
    forall c | 0 <= c < |cs| && Need(lines, n, c) > 0
      ensures exists k :: 0 <= k < |lines| && lines[k].component == c
    {
      BomQtyBounds(lines, |cs|, c);
    }
    forall k | 0 <= k < |lines|
      ensures Sane(cs[lines[k].component].Add(Total(rows, lines[k].component))) <==>
              lines[k].qty * n <= cs[lines[k].component].onHand - cs[lines[k].component].reserved
    {
      assert Sane(cs[lines[k].component]);
    }
  }
}
