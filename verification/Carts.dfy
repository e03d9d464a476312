/** Server-side carts (web/carts.py): the saturating upsert, positional update and repricing. */
module Carts {
  import opened Common
  import opened Pricing

  const MAX_QTY: int := 25

  /** The check on the qty column. */
  predicate QtyFits(q: int) {
    0 < q <= MAX_QTY
  }

  function Least(a: int, b: int): int {
    if a <= b then a else b
  }

  /** Index of the line with this (variant, theme), or the length. */
  function Find(lines: seq<CartLine>, variant: nat, theme: string): (k: nat)
    ensures k <= |lines|
    ensures k < |lines| ==> lines[k].variant == variant && lines[k].theme == theme
    ensures forall j :: 0 <= j < k ==> !(lines[j].variant == variant && lines[j].theme == theme)
  {
    if lines == [] || (lines[0].variant == variant && lines[0].theme == theme) then 0
    else 1 + Find(lines[1..], variant, theme)
  }

  function QtyOf(lines: seq<CartLine>, variant: nat, theme: string): int {
    var k := Find(lines, variant, theme);
    if k < |lines| then lines[k].qty else 0
  }

  predicate SameKey(a: CartLine, b: CartLine) {
    a.variant == b.variant && a.theme == b.theme
  }

  /** cart_line_unique, the qty check, and lines listed in id order. */
  predicate WellFormed(lines: seq<CartLine>, nextId: nat) {
    && (forall j, k :: 0 <= j < k < |lines| ==> lines[j].id < lines[k].id && !SameKey(lines[j], lines[k]))
    && (forall k :: 0 <= k < |lines| ==> lines[k].id < nextId && QtyFits(lines[k].qty))
  }

  /** The upsert: a new line at the end, or the existing one with its quantity clamped. */
  function Upserted(lines: seq<CartLine>, nextId: nat, variant: nat, theme: string, qty: int, unitPrice: int): seq<CartLine> {
    var k := Find(lines, variant, theme);
    if k < |lines| then lines[k := lines[k].(qty := Least(lines[k].qty + qty, MAX_QTY), unitPrice := unitPrice)]
    else lines + [CartLine(nextId, variant, theme, qty, unitPrice)]
  }

  /** Find keeps pointing at the upserted line, whose quantity is the clamped sum. */
  lemma {:induction false} UpsertSaturates(lines: seq<CartLine>, nextId: nat, variant: nat, theme: string, qty: int, unitPrice: int)
    requires QtyFits(qty)
    ensures var now := Upserted(lines, nextId, variant, theme, qty, unitPrice);
      && Find(now, variant, theme) == Find(lines, variant, theme) < |now|
      && (QtyOf(lines, variant, theme) <= 25 ==>
            QtyOf(now, variant, theme) == Least(QtyOf(lines, variant, theme) + qty, 25))
      && now[Find(lines, variant, theme)].unitPrice == unitPrice
  {
    var now, k := Upserted(lines, nextId, variant, theme, qty, unitPrice), Find(lines, variant, theme);
    assert now[k].variant == variant && now[k].theme == theme;
    assert forall j :: 0 <= j < k ==> now[j] == lines[j];
  }

  /** No other line changes, and the table stays well formed. */
  lemma {:induction false} UpsertKeepsTheRest(lines: seq<CartLine>, nextId: nat, variant: nat, theme: string, qty: int, unitPrice: int)
    requires WellFormed(lines, nextId) && QtyFits(qty)
    ensures var now := Upserted(lines, nextId, variant, theme, qty, unitPrice);
      && WellFormed(now, nextId + 1)
      && (Find(lines, variant, theme) < |lines| ==> WellFormed(now, nextId))
      && forall j :: 0 <= j < |lines| && j != Find(lines, variant, theme) ==> now[j] == lines[j]
  {
    var now, k := Upserted(lines, nextId, variant, theme, qty, unitPrice), Find(lines, variant, theme);
    if k < |lines| {
      assert SameKey(now[k], lines[k]) && now[k].id == lines[k].id;
    } else {
      assert forall j :: 0 <= j < |lines| ==> !SameKey(lines[j], now[k]);
    }
  }

  class Cart {
    /** Does the token name a stored cart? */
    const stored: bool
    var lines: seq<CartLine>
    var nextId: nat

    ghost predicate Valid()
      reads this
    {
      WellFormed(lines, nextId) && (!stored ==> lines == [])
    }

    constructor (stored: bool)
      ensures Valid() && lines == [] && this.stored == stored
    {
      this.stored := stored;
      lines, nextId := [], 0;
    }

    /**
     INSERT ... ON CONFLICT DO UPDATE. `found` is the live variant the lookup returned, if any:
     without one, or without a stored cart, the call does nothing. The proposed row must pass the checks even when it
     conflicts, and a new line's theme must exist; on conflict the quantity saturates at 25.
     */
    method Add(found: Option<nat>, theme: string, qty: int, unitPrice: int, themes: set<string>) returns (r: Result<()>)
      requires Valid()
      modifies this
      ensures Valid()
      ensures found.None? || !stored ==> r == Ok(()) && lines == old(lines)
      ensures found.Some? && stored ==>
        var isNew := Find(old(lines), found.value, theme) == |old(lines)|;
        && (r == Err(CheckViolation) <==> qty <= 0 || qty > 25 || unitPrice < 0)
        && (r == Err(ForeignKey) <==> 0 < qty <= 25 && unitPrice >= 0 && isNew && theme !in themes)
        && (r.Err? ==> r.error == CheckViolation || r.error == ForeignKey)
        && lines == if r.Ok? then Upserted(old(lines), old(nextId), found.value, theme, qty, unitPrice) else old(lines)
    {
      if found.None? || !stored {
        return Ok(());
      }
      var variant := found.value;
      if !QtyFits(qty) || unitPrice < 0 {
        return Err(CheckViolation);
      }
      UpsertKeepsTheRest(lines, nextId, variant, theme, qty, unitPrice);
      var k := Find(lines, variant, theme);
      if k < |lines| {
        lines := lines[k := lines[k].(qty := Least(lines[k].qty + qty, MAX_QTY), unitPrice := unitPrice)];
      } else if theme !in themes {
        return Err(ForeignKey);
      } else {
        lines := lines + [CartLine(nextId, variant, theme, qty, unitPrice)];
        nextId := nextId + 1;
      }
      r := Ok(());
    }

    /** The index posted by the page is the position in items(), which lists lines by id. */
    method UpdateByIndex(index: int, qty: int)
      requires Valid()
      modifies this
      ensures Valid()
      ensures lines == if index < 0 || index >= |old(lines)| then old(lines)
                       else if qty <= 0 then old(lines)[..index] + old(lines)[index + 1..]
                       else old(lines)[index := old(lines)[index].(qty := Least(qty, 25))]
    {
      if index < 0 || index >= |lines| {
        return;
      }
      if qty <= 0 {
        lines := lines[..index] + lines[index + 1..];
      } else {
        lines := lines[index := lines[index].(qty := Least(qty, MAX_QTY))];
      }
    }

    /** Refresh the stored unit prices; quantities and line identities stay. */
    method Reprice(cat: Catalog)
      requires Valid()
      modifies this
      ensures Valid()
      ensures |lines| == |old(lines)|
      ensures forall k :: 0 <= k < |lines| ==>
        lines[k] == old(lines)[k].(unitPrice := lines[k].unitPrice) && UpToDate(cat, lines[k])
      ensures forall k :: 0 <= k < |lines| && Resolves(cat, lines[k]) ==> Charged(cat, lines[k], lines[k].unitPrice)
      ensures forall k :: 0 <= k < |lines| && !Resolves(cat, lines[k]) ==> lines[k] == old(lines)[k]
    {
      for i := 0 to |lines|
        invariant |lines| == |old(lines)|
        invariant forall k :: i <= k < |lines| ==> lines[k] == old(lines)[k]
        invariant forall k :: 0 <= k < i ==>
          lines[k] == old(lines)[k].(unitPrice := lines[k].unitPrice) && UpToDate(cat, lines[k])
        invariant forall k :: 0 <= k < i && !Resolves(cat, lines[k]) ==> lines[k] == old(lines)[k]
        invariant nextId == old(nextId)
      {
        var l := lines[i];
        if l.variant in cat.variants {
          lines := lines[i := l.(unitPrice := UnitPrice(cat, cat.variants[l.variant], l.theme))];
        }
      }
    }
  }

  // ---------------------------------------------------------------- saturation is order-free

  function Sum(qs: seq<int>): int {
    if qs == [] then 0 else qs[0] + Sum(qs[1..])
  }

  /** The quantity after a run of upserts to one line. */
  function AddAll(q: int, qs: seq<int>): int
    decreases |qs|
  {
    if qs == [] then q else AddAll(Least(q + qs[0], MAX_QTY), qs[1..])
  }

  /** Clamping at every step is clamping once: the order of the additions does not matter. */
  lemma {:induction false} SaturationIsMinOfSum(q: int, qs: seq<int>)
    requires q <= MAX_QTY && forall k :: 0 <= k < |qs| ==> QtyFits(qs[k])
    ensures AddAll(q, qs) == Least(q + Sum(qs), 25)
    ensures Sum(qs) >= 0
    decreases |qs|
  {
    if qs != [] {
      SaturationIsMinOfSum(Least(q + qs[0], MAX_QTY), qs[1..]);
    }
  }

  // ---------------------------------------------------------------- what an upsert does to the cart's figures

  /** The cents the line with this (variant, theme) contributes to the subtotal. */
  function ValueOf(lines: seq<CartLine>, variant: nat, theme: string): int {
    var k := Find(lines, variant, theme);
    if k < |lines| then lines[k].qty * lines[k].unitPrice else 0
  }

  lemma {:induction false} ReplacedLine(lines: seq<CartLine>, k: nat, l: CartLine)
    requires k < |lines|
    ensures Quantity(lines[k := l]) == Quantity(lines) - lines[k].qty + l.qty
    ensures Subtotal(lines[k := l]) == Subtotal(lines) - lines[k].qty * lines[k].unitPrice + l.qty * l.unitPrice
  {
    var n := |lines| - 1;
    if k == n {
      assert lines[k := l][..n] == lines[..n];
    } else {
      assert lines[k := l][..n] == lines[..n][k := l];
      ReplacedLine(lines[..n], k, l);
    }
  }

  lemma {:induction false} OneMoreLine(lines: seq<CartLine>, l: CartLine)
    ensures Quantity(lines + [l]) == Quantity(lines) + l.qty
    ensures Subtotal(lines + [l]) == Subtotal(lines) + l.qty * l.unitPrice
  {
    assert (lines + [l])[..|lines|] == lines;
  }

  /** An upsert raises the page's item count by what the line gained, and the subtotal by what it is worth now and was not before. */
  lemma {:induction false} UpsertMovesTheFigures(lines: seq<CartLine>, nextId: nat, variant: nat, theme: string, qty: int, unitPrice: int)
    requires QtyFits(qty) && QtyOf(lines, variant, theme) <= 25
    ensures var now, gained := Upserted(lines, nextId, variant, theme, qty, unitPrice), Least(qty, 25 - QtyOf(lines, variant, theme));
      && Quantity(now) == Quantity(lines) + gained
      && Subtotal(now) == Subtotal(lines) - ValueOf(lines, variant, theme) + (QtyOf(lines, variant, theme) + gained) * unitPrice
  {
    var k, held := Find(lines, variant, theme), QtyOf(lines, variant, theme);
    var gained := Least(qty, 25 - held);
    if k < |lines| {
      var l := lines[k].(qty := held + gained, unitPrice := unitPrice);
      assert Upserted(lines, nextId, variant, theme, qty, unitPrice) == lines[k := l];
      ReplacedLine(lines, k, l);
    } else {
      OneMoreLine(lines, CartLine(nextId, variant, theme, qty, unitPrice));
      assert held + gained == qty;
    }
  }
}
