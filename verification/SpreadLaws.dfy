/** What spreading a discount does to each price, and how much of the discount is lost, without reference to
    how the shares are computed. */
module SpreadLaws {
  import opened Results
  import opened Sums
  import opened Catalog
  import opened Pricing

  /** The lowest price of every line in the catalog, in all. */
  function LowestTotal(inv: Inventory, items: seq<QuoteItem>): int
    requires AllStocked(inv, items)
  {
    if items == [] then 0
    else
      assert items[0] in items;
      inv[items[0].sku].minPrice * items[0].qty + LowestTotal(inv, items[1..])
  }

  lemma {:induction false} LowestIsMinimum(inv: Inventory, items: seq<QuoteItem>)
    requires AllStocked(inv, items)
    ensures LowestTotal(inv, items) == MinTotal(inv, items)
  {
    if items != [] {
      assert items[0] in items;
      LowestIsMinimum(inv, items[1..]);
    }
  }

  /** The discount to spread: what was asked, not below zero, and no more than leads to the lowest total. */
  function ToSpread(inv: Inventory, items: seq<QuoteItem>, total: int, asked: int): int
    requires AllStocked(inv, items)
  {
    var room := total - LowestTotal(inv, items);
    if asked <= 0 then (if room < 0 then room else 0) else if asked <= room then asked else room
  }

  lemma SpreadsThat(inv: Inventory, items: seq<QuoteItem>, total: int, asked: int)
    requires AllStocked(inv, items)
    ensures Clamped(inv, items, total, asked) == ToSpread(inv, items, total, asked)
  {
    LowestIsMinimum(inv, items);
  }

  /** A price respects its minimum and takes at most its line's part of the discount. */
  predicate Fits(item: QuoteItem, minPrice: nat, price: int, total: int, discount: int) {
    minPrice <= price && total * item.qty * (item.unitPrice - price) <= discount * (item.unitPrice * item.qty)
  }

  lemma FloorFits(n: int, d: int, x: int)
    requires d > 0
    ensures x <= n / d <==> d * x <= n
  {
    var f := n / d;
    assert d * f <= n < d * f + d;
    if x <= f {
      TimesMonotone(d, x, f);
    } else {
      TimesMonotone(d, f + 1, x);
    }
  }

  lemma TimesMonotone(k: nat, x: int, y: int)
    requires x <= y
    ensures k * x <= k * y
  {
  }

  /** Every line ends at the least price that fits, whatever the prices were and whatever was asked. */
  lemma SpreadIsLeast(inv: Inventory, items: seq<QuoteItem>, total: nat, asked: int, k: nat, price: int)
    requires AllStocked(inv, items) && total > 0 && k < |items|
    ensures var r := SpreadSpec(inv, items, total, asked).value;
            && |r.items| == |items| && items[k].sku in inv
            && r.items[k].sku == items[k].sku && r.items[k].qty == items[k].qty
            && (r.items[k].unitPrice <= price <==>
                  Fits(items[k], inv[items[k].sku].minPrice, price, total, ToSpread(inv, items, total, asked)))
  {
    var discount := ToSpread(inv, items, total, asked);
    SpreadsThat(inv, items, total, asked);
    SpreadItemAt(inv, items, total, discount, k);
    var item := items[k];
    assert total * item.qty > 0;
    FloorFits(discount * (item.unitPrice * item.qty), total * item.qty, item.unitPrice - price);
  }

  /** So a line either ends at its minimum or loses less than one unit of price to rounding. */
  lemma SpreadIsTight(inv: Inventory, items: seq<QuoteItem>, total: nat, asked: int, k: nat)
    requires AllStocked(inv, items) && total > 0 && k < |items|
    ensures var r := SpreadSpec(inv, items, total, asked).value;
            var item, discount := items[k], ToSpread(inv, items, total, asked);
            && |r.items| == |items| && item.sku in inv
            && total * item.qty * (item.unitPrice - r.items[k].unitPrice) <= discount * (item.unitPrice * item.qty)
            && (r.items[k].unitPrice == inv[item.sku].minPrice
                || discount * (item.unitPrice * item.qty) < total * item.qty * (item.unitPrice - r.items[k].unitPrice + 1))
  {
    SpreadIsLeast(inv, items, total, asked, k, 0);
    var price: int := SpreadSpec(inv, items, total, asked).value.items[k].unitPrice;
    SpreadIsLeast(inv, items, total, asked, k, price);
    SpreadIsLeast(inv, items, total, asked, k, price - 1);
  }

  /** Only a total of zero over some lines has no result; otherwise the total and the discount are those of
      the lines, and a spread over nothing gives nothing. */
  lemma SpreadAddsUp(inv: Inventory, items: seq<QuoteItem>, total: nat, asked: int)
    requires AllStocked(inv, items)
    ensures SpreadSpec(inv, items, total, asked).None? <==> total == 0 && |items| > 0
    ensures SpreadSpec(inv, items, total, asked).Some? ==>
              var r := SpreadSpec(inv, items, total, asked).value;
              && |r.items| == |items| && r.total == SumBy(r.items, LineCost()) && r.discount == total - r.total
  {
    if total > 0 && items != [] {
      SpreadItemAt(inv, items, total, Clamped(inv, items, total, asked), 0);
    }
  }

  // ---------------------------------------------------------------- what is not given

  predicate Cut(inv: Inventory, item: QuoteItem, line: QuoteItem) {
    item.sku in inv && line.unitPrice == inv[item.sku].minPrice
  }

  /** Units of the lines that did not end at their minimum. */
  function FreeUnits(inv: Inventory, items: seq<QuoteItem>, after: seq<QuoteItem>): int
    requires |items| == |after|
  {
    if items == [] then 0
    else (if Cut(inv, items[0], after[0]) then 0 else items[0].qty) + FreeUnits(inv, items[1..], after[1..])
  }

  /** What the lines that ended at their minimum could not give of their parts, times the total. */
  function Withheld(inv: Inventory, items: seq<QuoteItem>, after: seq<QuoteItem>, total: int, discount: int): int
    requires |items| == |after|
  {
    if items == [] then 0
    else
      (if Cut(inv, items[0], after[0])
       then discount * (items[0].unitPrice * items[0].qty) - total * items[0].qty * (items[0].unitPrice - after[0].unitPrice)
       else 0) + Withheld(inv, items[1..], after[1..], total, discount)
  }

  ghost predicate Tight(inv: Inventory, items: seq<QuoteItem>, after: seq<QuoteItem>, total: int, discount: int) {
    && |after| == |items|
    && forall k :: 0 <= k < |items| ==>
         && after[k].qty == items[k].qty
         && (Cut(inv, items[k], after[k])
             || discount * (items[k].unitPrice * items[k].qty) < total * items[k].qty * (items[k].unitPrice - after[k].unitPrice + 1))
  }

  lemma LineShortfall(item: QuoteItem, line: QuoteItem, total: int, discount: int)
    requires item.qty == line.qty
    ensures total * item.qty * (item.unitPrice - line.unitPrice) == total * (item.unitPrice * item.qty - line.unitPrice * line.qty)
    ensures total * item.qty * (item.unitPrice - line.unitPrice + 1) == total * item.qty * (item.unitPrice - line.unitPrice) + total * item.qty
  {
    var q, d := item.qty, item.unitPrice - line.unitPrice;
    assert q * d == item.unitPrice * q - line.unitPrice * q;
    assert total * q * d == total * (q * d);
    assert total * q * (d + 1) == total * q * d + total * q;
  }

  lemma {:induction false} ShortfallSums(inv: Inventory, items: seq<QuoteItem>, after: seq<QuoteItem>, total: nat, discount: int)
    requires Tight(inv, items, after, total, discount)
    ensures var missing := discount * BasketTotal(items) - total * (BasketTotal(items) - BasketTotal(after));
            var bound := total * FreeUnits(inv, items, after) + Withheld(inv, items, after, total, discount);
            missing <= bound && FreeUnits(inv, items, after) >= 0 && (FreeUnits(inv, items, after) > 0 ==> missing < bound)
  {
    if items != [] {
      var a, b, rest, more := items[0], after[0], items[1..], after[1..];
      ShortfallSums(inv, rest, more, total, discount);
      LineShortfall(a, b, total, discount);
      var x, y := a.unitPrice * a.qty, b.unitPrice * b.qty;
      assert BasketTotal(items) == x + BasketTotal(rest) && BasketTotal(after) == y + BasketTotal(more);
      SplitMissing(discount, total, x, y, BasketTotal(rest), BasketTotal(more));
      SplitUnits(total, if Cut(inv, a, b) then 0 else a.qty, FreeUnits(inv, rest, more));
    }
  }

  lemma SplitMissing(discount: int, total: int, x: int, y: int, r: int, m: int)
    ensures discount * (x + r) - total * (x + r - (y + m)) == (discount * x - total * (x - y)) + (discount * r - total * (r - m))
  {
    assert discount * (x + r) == discount * x + discount * r;
    assert total * (x + r - (y + m)) == total * (x - y) + total * (r - m);
  }

  lemma SplitUnits(total: int, a: int, b: int)
    ensures total * (a + b) == total * a + total * b
  {
  }

  /** For a total equal to the sum of its lines, the discount falls short of what was to be spread by less
      than the units of the lines above their minimum, plus what the lines at their minimum could not give
      of their parts; it does not fall short by anything else. */
  lemma {:induction false} ShortfallIsExplained(inv: Inventory, items: seq<QuoteItem>, total: nat, asked: int)
    requires AllStocked(inv, items) && total == BasketTotal(items) && total > 0
    ensures var r, discount := SpreadSpec(inv, items, total, asked).value, ToSpread(inv, items, total, asked);
            && |r.items| == |items|
            && var units, withheld := FreeUnits(inv, items, r.items), Withheld(inv, items, r.items, total, discount);
               && total * (discount - r.discount) <= total * units + withheld
               && (units > 0 ==> total * (discount - r.discount) < total * units + withheld)
  {
    var r, discount := SpreadSpec(inv, items, total, asked).value, ToSpread(inv, items, total, asked);
    assert items != [];
    forall k: nat | k < |items|
      ensures |r.items| == |items| && r.items[k].qty == items[k].qty
      ensures Cut(inv, items[k], r.items[k])
              || discount * (items[k].unitPrice * items[k].qty) < total * items[k].qty * (items[k].unitPrice - r.items[k].unitPrice + 1)
    {
      SpreadIsLeast(inv, items, total, asked, k, 0);
      SpreadIsTight(inv, items, total, asked, k);
    }
    SpreadIsLeast(inv, items, total, asked, 0, 0);
    assert Tight(inv, items, r.items, total, discount);
    ShortfallSums(inv, items, r.items, total, discount);
    assert total * (discount - r.discount) == discount * total - total * r.discount;
  }
}
