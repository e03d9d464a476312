/**
 Price arithmetic in integer cents (web/pricing.py, web/orders.py): unit prices, the
 Build-a-Set discount with Python's round-half-to-even, and cart totals.
 */
module Pricing {
  import opened Common

  const BUNDLE_MIN_QTY: int := 3

  datatype Variant = Variant(sku: string, name: string, attrs: string, price: int, sale: Option<int>, cost: int)

  datatype Catalog = Catalog(variants: map<nat, Variant>, themes: map<string, int>)

  datatype CartLine = CartLine(id: nat, variant: nat, theme: string, qty: int, unitPrice: int)

  /** A cart line whose variant was found, with the price derived inside the transaction. */
  datatype Priced = Priced(v: Variant, line: CartLine, unit: int)

  datatype Totals = Totals(subtotal: int, discount: int, total: int, qty: int)

  /** Python's `sale or price`: a sale price of None or 0 falls back to the list price. */
  function BasePrice(v: Variant): int {
    if v.sale.Some? && v.sale.value != 0 then v.sale.value else v.price
  }

  function UnitPrice(cat: Catalog, v: Variant, theme: string): int {
    BasePrice(v) + if theme in cat.themes then cat.themes[theme] else 0
  }

  /** Python's round(n / 100): to the nearest integer, ties to the even neighbour. */
  function RoundHalfEven(n: int): int {
    var q, r := n / 100, n % 100;
    if r < 50 || (r == 50 && q % 2 == 0) then q else q + 1
  }

  /** BUNDLE_PERCENT (10) percent of the subtotal, from BUNDLE_MIN_QTY pieces on. */
  function Discount(subtotal: int, qty: int): int {
    if qty >= BUNDLE_MIN_QTY then RoundHalfEven(subtotal * 10) else 0
  }

  /** A tenth of the subtotal from three pieces on, rounded to the nearest cent, the even one on a tie. */
  predicate Discounted(subtotal: int, qty: int, discount: int) {
    if qty < 3 then discount == 0
    else
      var excess := 10 * discount - subtotal;
      -5 <= excess <= 5 && (excess == 5 || excess == -5 ==> discount % 2 == 0)
  }

  function TotalsFor(subtotal: int, qty: int): Totals {
    var discount := Discount(subtotal, qty);
    Totals(subtotal, discount, subtotal - discount, qty)
  }

  function Subtotal(lines: seq<CartLine>): int {
    if lines == [] then 0
    else Subtotal(lines[..|lines| - 1]) + lines[|lines| - 1].qty * lines[|lines| - 1].unitPrice
  }

  function Quantity(lines: seq<CartLine>): int {
    if lines == [] then 0 else Quantity(lines[..|lines| - 1]) + lines[|lines| - 1].qty
  }

  /** compute_cart_totals: what the cart and checkout pages show. */
  method ComputeCartTotals(lines: seq<CartLine>) returns (t: Totals)
    ensures t == TotalsFor(Subtotal(lines), Quantity(lines))
    ensures Discounted(Subtotal(lines), Quantity(lines), t.discount) && t.total == t.subtotal - t.discount
  {
    var subtotal, qty := 0, 0;
    for i := 0 to |lines|
      invariant subtotal == Subtotal(lines[..i]) && qty == Quantity(lines[..i])
    {
      assert lines[..i + 1][..i] == lines[..i];
      subtotal := subtotal + lines[i].qty * lines[i].unitPrice;
      qty := qty + lines[i].qty;
    }
    assert lines[..|lines|] == lines;
    var discount := 0;
    if qty >= BUNDLE_MIN_QTY {
      discount := RoundHalfEven(subtotal * 10);
    }
    t := Totals(subtotal, discount, subtotal - discount, qty);
    DiscountIsATenth(subtotal, qty);
  }

  // ---------------------------------------------------------------- what place_order charges

  predicate Resolves(cat: Catalog, l: CartLine) {
    l.variant in cat.variants
  }

  /** What a piece of this line costs: the sale price when there is one other than 0, else the list price, and the theme on top. */
  predicate Charged(cat: Catalog, l: CartLine, unit: int)
    requires Resolves(cat, l)
  {
    var v := cat.variants[l.variant];
    var base := if l.theme in cat.themes then unit - cat.themes[l.theme] else unit;
    match v.sale
    case None => base == v.price
    case Some(s) => if s == 0 then base == v.price else base == s
  }

  /** The cart lines whose variant the catalogue still has, in cart order. */
  function Kept(cat: Catalog, lines: seq<CartLine>): seq<CartLine> {
    if lines == [] then []
    else Kept(cat, lines[..|lines| - 1]) + if Resolves(cat, lines[|lines| - 1]) then [lines[|lines| - 1]] else []
  }

  /** Line by line: the kept cart line, its catalogue row, and the charge for it. */
  predicate PricedFrom(cat: Catalog, kept: seq<CartLine>, ps: seq<Priced>) {
    && |ps| == |kept|
    && forall k :: 0 <= k < |ps| ==>
         && ps[k].line == kept[k] && Resolves(cat, kept[k]) && ps[k].v == cat.variants[kept[k].variant]
         && Charged(cat, kept[k], ps[k].unit)
  }

  /** The lines place_order keeps: a line whose variant is gone is skipped. */
  function PricedLines(cat: Catalog, lines: seq<CartLine>): seq<Priced> {
    if lines == [] then []
    else
      var l := lines[|lines| - 1];
      PricedLines(cat, lines[..|lines| - 1])
      + if l.variant in cat.variants
        then [Priced(cat.variants[l.variant], l, UnitPrice(cat, cat.variants[l.variant], l.theme))]
        else []
  }

  lemma {:induction false} LinesArePricedFromTheCatalogue(cat: Catalog, lines: seq<CartLine>)
    ensures PricedFrom(cat, Kept(cat, lines), PricedLines(cat, lines))
  {
    if lines != [] { LinesArePricedFromTheCatalogue(cat, lines[..|lines| - 1]); }
  }

  function PricedSubtotal(ps: seq<Priced>): int {
    if ps == [] then 0
    else PricedSubtotal(ps[..|ps| - 1]) + ps[|ps| - 1].unit * ps[|ps| - 1].line.qty
  }

  /** One round of place_order's loop. */
  lemma {:induction false} PricedStep(cat: Catalog, lines: seq<CartLine>, l: CartLine)
    ensures PricedLines(cat, lines + [l]) == PricedLines(cat, lines)
      + if l.variant in cat.variants
        then [Priced(cat.variants[l.variant], l, UnitPrice(cat, cat.variants[l.variant], l.theme))] else []
    ensures Quantity(lines + [l]) == Quantity(lines) + l.qty
  {
    assert (lines + [l])[..|lines|] == lines;
  }

  lemma {:induction false} PricedSubtotalStep(ps: seq<Priced>, p: Priced)
    ensures PricedSubtotal(ps + [p]) == PricedSubtotal(ps) + p.unit * p.line.qty
  {
    assert (ps + [p])[..|ps|] == ps;
  }

  /** The loop of place_order over the cart: `lines` and `subtotal` grow, a missing variant is skipped. */
  method PriceLines(cat: Catalog, lines: seq<CartLine>) returns (ps: seq<Priced>, subtotal: int, qty: int)
    ensures ps == PricedLines(cat, lines) && PricedFrom(cat, Kept(cat, lines), ps)
    ensures subtotal == PricedSubtotal(ps) && qty == Quantity(lines)
  {
    ps, subtotal, qty := [], 0, 0;
    for i := 0 to |lines|
      invariant ps == PricedLines(cat, lines[..i])
      invariant subtotal == PricedSubtotal(ps) && qty == Quantity(lines[..i])
    {
      var l := lines[i];
      PricedStep(cat, lines[..i], l);
      assert lines[..i + 1] == lines[..i] + [l];
      qty := qty + l.qty;
      if l.variant in cat.variants {
        var p := Priced(cat.variants[l.variant], l, UnitPrice(cat, cat.variants[l.variant], l.theme));
        PricedSubtotalStep(ps, p);
        subtotal := subtotal + p.unit * l.qty;
        ps := ps + [p];
      }
    }
    assert lines[..|lines|] == lines;
    LinesArePricedFromTheCatalogue(cat, lines);
  }

  /** What place_order charges (the bundle discount counts skipped lines too). */
  method PriceOrder(cat: Catalog, lines: seq<CartLine>) returns (ps: seq<Priced>, t: Totals)
    ensures ps == PricedLines(cat, lines) && PricedFrom(cat, Kept(cat, lines), ps)
    ensures t == TotalsFor(PricedSubtotal(ps), Quantity(lines))
    ensures Discounted(PricedSubtotal(ps), Quantity(lines), t.discount) && t.total == t.subtotal - t.discount
  {
    var subtotal, qty;
    ps, subtotal, qty := PriceLines(cat, lines);
    t := TotalsFor(subtotal, qty);
    DiscountIsATenth(subtotal, qty);
  }

  // ---------------------------------------------------------------- price shown is price charged

  /** The stored price is the catalogue's price, as reprice leaves it. */
  predicate UpToDate(cat: Catalog, l: CartLine) {
    Resolves(cat, l) ==> l.unitPrice == UnitPrice(cat, cat.variants[l.variant], l.theme)
  }

  /** By how much one line makes the page and the charge differ. */
  function Gap(cat: Catalog, l: CartLine): int {
    l.qty * l.unitPrice
    - if Resolves(cat, l) then UnitPrice(cat, cat.variants[l.variant], l.theme) * l.qty else 0
  }

  function TotalGap(cat: Catalog, lines: seq<CartLine>): int {
    if lines == [] then 0 else TotalGap(cat, lines[..|lines| - 1]) + Gap(cat, lines[|lines| - 1])
  }

  lemma {:induction false} ShownMinusCharged(cat: Catalog, lines: seq<CartLine>)
    ensures Subtotal(lines) == PricedSubtotal(PricedLines(cat, lines)) + TotalGap(cat, lines)
  {
    if lines != [] {
      var front, l := lines[..|lines| - 1], lines[|lines| - 1];
      ShownMinusCharged(cat, front);
      var ps := PricedLines(cat, front);
      if Resolves(cat, l) {
        var p := Priced(cat.variants[l.variant], l, UnitPrice(cat, cat.variants[l.variant], l.theme));
        assert PricedLines(cat, lines) == ps + [p];
        assert (ps + [p])[..|ps|] == ps;
      } else {
        assert PricedLines(cat, lines) == ps;
      }
    }
  }

  /** The page shows the charge exactly when the gaps of the lines cancel out. */
  lemma {:induction false} ShownIsChargedIff(cat: Catalog, lines: seq<CartLine>)
    ensures TotalsFor(Subtotal(lines), Quantity(lines)) == TotalsFor(PricedSubtotal(PricedLines(cat, lines)), Quantity(lines))
            <==> TotalGap(cat, lines) == 0
  {
    ShownMinusCharged(cat, lines);
  }

  /** After reprice, with every variant resolving, subtotal, discount and total all agree. */
  lemma {:induction false} RepricedCartShowsTheCharge(cat: Catalog, lines: seq<CartLine>)
    requires forall l :: l in lines ==> Resolves(cat, l) && UpToDate(cat, l)
    ensures TotalsFor(Subtotal(lines), Quantity(lines)) == TotalsFor(PricedSubtotal(PricedLines(cat, lines)), Quantity(lines))
  {
    NoGap(cat, lines);
    ShownIsChargedIff(cat, lines);
  }

  lemma {:induction false} NoGap(cat: Catalog, lines: seq<CartLine>)
    requires forall l :: l in lines ==> Resolves(cat, l) && UpToDate(cat, l)
    ensures TotalGap(cat, lines) == 0
  {
    if lines != [] {
      assert lines[|lines| - 1] in lines;
      NoGap(cat, lines[..|lines| - 1]);
    }
  }

  /** Without reprice the page can show less than the charge: the catalogue price rose by one cent. */
  lemma {:induction false} StaleCartShowsTooLittle(v: Variant)
    requires v.sale == None && v.price == 101
    ensures var cat, line := Catalog(map[0 := v], map[]), CartLine(0, 0, "", 1, 100);
      TotalsFor(Subtotal([line]), 1).total < TotalsFor(PricedSubtotal(PricedLines(cat, [line])), 1).total
  {
    var cat, line := Catalog(map[0 := v], map[]), CartLine(0, 0, "", 1, 100);
    ShownMinusCharged(cat, [line]);
    assert [line][..0] == [];
    assert TotalGap(cat, [line]) == Gap(cat, line) == -1;
  }

  // ---------------------------------------------------------------- rounding

  /** The rounded quotient is the only nearest integer, and the even one on a tie. */
  lemma {:induction false} RoundIsNearestEven(n: int, x: int)
    ensures x == RoundHalfEven(n) <==>
      -50 <= x * 100 - n <= 50 && (x * 100 - n == 50 || x * 100 - n == -50 ==> x % 2 == 0)
  {
    assert n == 100 * (n / 100) + n % 100;
  }

  lemma {:induction false} DiscountIsATenth(subtotal: int, qty: int)
    ensures Discounted(subtotal, qty, Discount(subtotal, qty))
  {
    RoundIsNearestEven(subtotal * 10, RoundHalfEven(subtotal * 10));
  }

  /** The discount is a tenth of the subtotal, never negative and never more than the subtotal. */
  lemma {:induction false} DiscountBounds(subtotal: int, qty: int)
    requires subtotal >= 0
    ensures 0 <= Discount(subtotal, qty) <= subtotal && Discounted(subtotal, qty, Discount(subtotal, qty))
  {
    DiscountIsATenth(subtotal, qty);
  }

  lemma {:induction false} DiscountStep(subtotal: int)
    ensures var s := RoundHalfEven(subtotal * 10);
            s <= RoundHalfEven((subtotal + 1) * 10) <= s + 1
  {
    RoundIsNearestEven(subtotal * 10, RoundHalfEven(subtotal * 10));
    RoundIsNearestEven((subtotal + 1) * 10, RoundHalfEven((subtotal + 1) * 10));
  }

  /** Within one tier, a dearer cart never costs less. */
  lemma {:induction false} TotalMonotone(low: int, high: int, qty: int)
    requires low <= high
    ensures TotalsFor(low, qty).total <= TotalsFor(high, qty).total
    decreases high - low
  {
    if low < high {
      TotalMonotone(low, high - 1, qty);
      DiscountStep(high - 1);
    }
  }

  /** Across the tier boundary it can: a third poster for one cent lowers the total. */
  lemma {:induction false} ThirdPosterCanLowerTheTotal()
    ensures TotalsFor(1001, 3).total < TotalsFor(1000, 2).total
  {
    assert RoundHalfEven(10010) == 100;
  }
}
