/** Integer pricing: spreading a discount over lines with floors and per-line minimums.

    All amounts are integer micro-USDC. The two divisions of a share are exact before the final floor.
    A spread over a zero total divides zero by zero; its result is None here. */
module Pricing {
  import opened Results
  import opened Sums
  import opened Catalog

  datatype Stocked = Stocked(price: nat, minPrice: nat, quantity: int)

  type Inventory = map<Sku, Stocked>

  datatype Requested = Requested(sku: Sku, qty: Qty)

  datatype QuoteError = SkuNotStocked(sku: Sku) | InsufficientStock(sku: Sku) | BelowMinPrice

  ghost predicate AllStocked(inv: Inventory, items: seq<QuoteItem>) {
    forall i :: i in items ==> i.sku in inv
  }

  ghost predicate AboveMinimum(inv: Inventory, items: seq<QuoteItem>) {
    forall i :: i in items ==> i.sku in inv && i.unitPrice >= inv[i.sku].minPrice
  }

  // ---------------------------------------------------------------- base price and minimum

  /** Undiscounted lines straight from the inventory, or the first line that cannot be quoted. */
  function BaseItems(inv: Inventory, requested: seq<Requested>): Result<seq<QuoteItem>, QuoteError> {
    if requested == [] then Success([])
    else
      var before :- BaseItems(inv, requested[..|requested| - 1]);
      var r := requested[|requested| - 1];
      :- Need(r.sku in inv, SkuNotStocked(r.sku));
      :- Need(inv[r.sku].quantity >= r.qty, InsufficientStock(r.sku));
      Success(before + [QuoteItem(r.sku, r.qty, inv[r.sku].price)])
  }

  method BuildQuoteItems(inv: Inventory, requested: seq<Requested>) returns (r: Result<seq<QuoteItem>, QuoteError>, total: int)
    ensures r == BaseItems(inv, requested)
    ensures r.Success? ==> total == BasketTotal(r.value)
  {
    var items: seq<QuoteItem> := [];
    total := 0;
    for k := 0 to |requested|
      invariant BaseItems(inv, requested[..k]) == Success(items)
      invariant total == BasketTotal(items)
    {
      assert requested[..k + 1][..k] == requested[..k];
      var req := requested[k];
      if req.sku !in inv || inv[req.sku].quantity < req.qty {
        BaseItemsFails(inv, requested, k + 1);
        return Failure(if req.sku !in inv then SkuNotStocked(req.sku) else InsufficientStock(req.sku)), 0;
      }
      var line := QuoteItem(req.sku, req.qty, inv[req.sku].price);
      SumByAppend(items, line, LineCost());
      items := items + [line];
      total := total + line.unitPrice * line.qty;
    }
    assert requested[..|requested|] == requested;
    r := Success(items);
  }

  lemma {:induction false} BaseItemsFails(inv: Inventory, requested: seq<Requested>, k: nat)
    requires k <= |requested| && BaseItems(inv, requested[..k]).Failure?
    ensures BaseItems(inv, requested) == BaseItems(inv, requested[..k])
    decreases |requested|
  {
    if k < |requested| {
      var init := requested[..|requested| - 1];
      assert init[..k] == requested[..k];
      BaseItemsFails(inv, init, k);
    } else {
      assert requested[..k] == requested;
    }
  }

  function MinCost(inv: Inventory): QuoteItem -> int {
    (i: QuoteItem) => if i.sku in inv then inv[i.sku].minPrice * i.qty else 0
  }

  function MinTotal(inv: Inventory, items: seq<QuoteItem>): int {
    SumBy(items, MinCost(inv))
  }

  method MinTotalFor(inv: Inventory, items: seq<QuoteItem>) returns (r: Result<int, QuoteError>)
    ensures r.Success? <==> AllStocked(inv, items)
    ensures r.Success? ==> r.value == MinTotal(inv, items)
    ensures r.Failure? ==> exists k :: 0 <= k < |items| && items[k].sku !in inv && r.error == SkuNotStocked(items[k].sku)
  {
    var minTotal := 0;
    for k := 0 to |items|
      invariant AllStocked(inv, items[..k])
      invariant minTotal == MinTotal(inv, items[..k])
    {
      assert items[..k + 1] == items[..k] + [items[k]];
      if items[k].sku !in inv {
        assert items[k] in items;
        return Failure(SkuNotStocked(items[k].sku));
      }
      SumByAppend(items[..k], items[k], MinCost(inv));
      minTotal := minTotal + inv[items[k].sku].minPrice * items[k].qty;
    }
    assert items[..|items|] == items;
    r := Success(minTotal);
  }

  // ---------------------------------------------------------------- spreadDiscount

  function Min(a: int, b: int): int {
    if a <= b then a else b
  }

  function Max(a: int, b: int): int {
    if a >= b then a else b
  }

  /** The discount after clamping the target total to the basket's minimum. */
  function Clamped(inv: Inventory, items: seq<QuoteItem>, total: int, asked: int): int {
    total - Max(MinTotal(inv, items), total - Max(0, asked))
  }

  /** The proportional part of a line's unit discount, rounded down. */
  function Proportional(item: QuoteItem, total: int, discount: int): int
    requires total > 0
  {
    (discount * (item.unitPrice * item.qty)) / (total * item.qty)
  }

  /** The unit discount of a line: its proportional part, at most what its minimum leaves. */
  function Share(inv: Inventory, item: QuoteItem, total: int, discount: int): int
    requires total > 0 && item.sku in inv
  {
    Min(Proportional(item, total, discount), item.unitPrice - inv[item.sku].minPrice)
  }

  function Discounted(inv: Inventory, item: QuoteItem, total: int, discount: int): QuoteItem
    requires total > 0 && item.sku in inv
  {
    item.(unitPrice := item.unitPrice - Share(inv, item, total, discount))
  }

  function SpreadItems(inv: Inventory, items: seq<QuoteItem>, total: int, discount: int): seq<QuoteItem>
    requires total > 0 && AllStocked(inv, items)
  {
    if items == [] then []
    else
      assert items[|items| - 1] in items;
      SpreadItems(inv, items[..|items| - 1], total, discount) + [Discounted(inv, items[|items| - 1], total, discount)]
  }

  lemma {:induction false} SpreadItemAt(inv: Inventory, items: seq<QuoteItem>, total: int, discount: int, k: nat)
    requires total > 0 && AllStocked(inv, items) && k < |items|
    ensures |SpreadItems(inv, items, total, discount)| == |items| && items[k].sku in inv
    ensures SpreadItems(inv, items, total, discount)[k] == Discounted(inv, items[k], total, discount)
  {
    assert items[k] in items;
    var init := items[..|items| - 1];
    if init != [] {
      SpreadItemAt(inv, init, total, discount, if k < |init| then k else 0);
    }
  }

  datatype Spread = Spread(items: seq<QuoteItem>, total: int, discount: int)

  function SpreadSpec(inv: Inventory, items: seq<QuoteItem>, total: nat, asked: int): Option<Spread>
    requires AllStocked(inv, items)
  {
    if total == 0 then (if items == [] then Some(Spread([], 0, 0)) else None)
    else
      var newItems := SpreadItems(inv, items, total, Clamped(inv, items, total, asked));
      Some(Spread(newItems, BasketTotal(newItems), total - BasketTotal(newItems)))
  }

  method SpreadDiscount(inv: Inventory, items: seq<QuoteItem>, total: nat, asked: int)
    returns (r: Result<Option<Spread>, QuoteError>)
    ensures r.Success? <==> AllStocked(inv, items)
    ensures r.Success? ==> r.value == SpreadSpec(inv, items, total, asked)
  {
    var minTotal :- MinTotalFor(inv, items);
    if total == 0 {
      return Success(if items == [] then Some(Spread([], 0, 0)) else None);
    }
    var target := Max(minTotal, total - Max(0, asked));
    var discount := total - target;
    var newItems: seq<QuoteItem> := [];
    var newTotal := 0;
    for k := 0 to |items|
      invariant AllStocked(inv, items[..k]) && newItems == SpreadItems(inv, items[..k], total, discount)
      invariant newTotal == BasketTotal(newItems)
    {
      assert items[k] in items;
      assert items[..k + 1][..k] == items[..k];
      var item := items[k];
      var share := Min((discount * (item.unitPrice * item.qty)) / (total * item.qty), item.unitPrice - inv[item.sku].minPrice);
      var line := item.(unitPrice := item.unitPrice - share);
      SumByAppend(newItems, line, LineCost());
      newItems := newItems + [line];
      newTotal := newTotal + line.unitPrice * line.qty;
    }
    assert items[..|items|] == items;
    r := Success(Some(Spread(newItems, newTotal, total - newTotal)));
  }

  // ---------------------------------------------------------------- what a spread guarantees

  lemma {:induction false} MinimumBelowTotal(inv: Inventory, items: seq<QuoteItem>)
    requires AboveMinimum(inv, items)
    ensures MinTotal(inv, items) <= BasketTotal(items)
  {
    if items != [] {
      assert items[0] in items;
      MulMonotone(inv[items[0].sku].minPrice, items[0].unitPrice, items[0].qty);
      MinimumBelowTotal(inv, items[1..]);
    }
  }

  lemma MulMonotone(x: int, y: int, k: nat)
    requires x <= y
    ensures x * k <= y * k
  {
  }

  /** The same articles in the same quantities; only prices may differ. */
  ghost predicate SameLines(a: seq<QuoteItem>, b: seq<QuoteItem>) {
    |a| == |b| && forall k :: 0 <= k < |a| ==> a[k].sku == b[k].sku && a[k].qty == b[k].qty
  }

  lemma {:induction false} MinCostOfSameLines(inv: Inventory, items: seq<QuoteItem>, other: seq<QuoteItem>)
    requires SameLines(items, other)
    ensures MinTotal(inv, items) == MinTotal(inv, other)
  {
    if items != [] {
      MinCostOfSameLines(inv, items[1..], other[1..]);
    }
  }

  /** Whatever the prices and the amount asked, no line ends below its minimum, so the basket stays
      at or above its minimum total: the guard of createQuote cannot fail after a spread. */
  lemma SpreadRespectsMinimum(inv: Inventory, items: seq<QuoteItem>, total: nat, asked: int)
    requires AllStocked(inv, items) && total > 0
    ensures var r := SpreadSpec(inv, items, total, asked).value;
            AboveMinimum(inv, r.items) && r.total >= MinTotal(inv, r.items) && MinTotal(inv, r.items) == MinTotal(inv, items)
  {
    var r := SpreadSpec(inv, items, total, asked).value;
    SpreadLineByLine(inv, items, total, Clamped(inv, items, total, asked));
    MinimumBelowTotal(inv, r.items);
    MinCostOfSameLines(inv, items, r.items);
  }

  lemma {:induction false} SpreadLineByLine(inv: Inventory, items: seq<QuoteItem>, total: nat, discount: int)
    requires AllStocked(inv, items) && total > 0
    ensures var r := SpreadItems(inv, items, total, discount);
            AboveMinimum(inv, r) && SameLines(items, r)
  {
    var r := SpreadItems(inv, items, total, discount);
    if items != [] {
      SpreadItemAt(inv, items, total, discount, 0);
    }
    forall k | 0 <= k < |items|
      ensures r[k].sku in inv && r[k].unitPrice >= inv[r[k].sku].minPrice && items[k].sku == r[k].sku && items[k].qty == r[k].qty
    {
      SpreadItemAt(inv, items, total, discount, k);
    }
  }

  /** Both bounds of the floor: total * qty * share <= discount * line < total * qty * (share + 1). */
  lemma FloorBounds(item: QuoteItem, total: int, discount: int)
    requires total > 0
    ensures var f := Proportional(item, total, discount);
            total * (item.qty * f) <= discount * (item.unitPrice * item.qty) < total * (item.qty * f) + total * item.qty
  {
    var n, d := discount * (item.unitPrice * item.qty), total * item.qty;
    var f := n / d;
    assert d > 0;
    assert d * f <= n < d * f + d;
    assert d * f == total * (item.qty * f);
  }

  lemma MulPositive(a: int, b: int)
    requires a >= 0 && b > 0
    ensures a * b >= 0 && (a > 0 ==> a * b > 0)
  {
  }

  lemma FloorNonNegative(n: int, d: int)
    requires n >= 0 && d > 0
    ensures n / d >= 0
  {
  }

  lemma ProportionalNonNegative(item: QuoteItem, total: int, discount: int)
    requires total > 0 && discount >= 0
    ensures Proportional(item, total, discount) >= 0
  {
    MulPositive(item.unitPrice, item.qty);
    MulPositive(total, item.qty);
    var line := item.unitPrice * item.qty;
    assert discount * line >= 0;
    FloorNonNegative(discount * line, total * item.qty);
  }

  /** What one line gives up in all. */
  function Given(inv: Inventory, total: int, discount: int): QuoteItem -> int
    requires total > 0
  {
    (i: QuoteItem) => if i.sku in inv then i.qty * Share(inv, i, total, discount) else 0
  }

  function Quantity(): QuoteItem -> int {
    (i: QuoteItem) => i.qty
  }

  lemma LineAfterShare(price: int, share: int, qty: int)
    ensures (price - share) * qty == price * qty - qty * share
  {
  }

  lemma {:induction false} SpreadTotal(inv: Inventory, items: seq<QuoteItem>, total: int, discount: int)
    requires total > 0 && AllStocked(inv, items)
    ensures BasketTotal(SpreadItems(inv, items, total, discount)) == BasketTotal(items) - SumBy(items, Given(inv, total, discount))
  {
    if items != [] {
      var init, last := items[..|items| - 1], items[|items| - 1];
      assert last in items;
      SpreadTotal(inv, init, total, discount);
      SnocTotals(init, last, SpreadItems(inv, init, total, discount), Discounted(inv, last, total, discount),
                 Given(inv, total, discount));
      LineAfterShare(last.unitPrice, Share(inv, last, total, discount), last.qty);
      assert items == init + [last];
    }
  }

  lemma {:induction false} SnocTotals(init: seq<QuoteItem>, last: QuoteItem, newInit: seq<QuoteItem>, newLast: QuoteItem, given: QuoteItem -> int)
    ensures BasketTotal(newInit + [newLast]) == BasketTotal(newInit) + newLast.unitPrice * newLast.qty
    ensures BasketTotal(init + [last]) == BasketTotal(init) + last.unitPrice * last.qty
    ensures SumBy(init + [last], given) == SumBy(init, given) + given(last)
  {
    SumByAppend(newInit, newLast, LineCost());
    SumByAppend(init, last, LineCost());
    SumByAppend(init, last, given);
  }

  /** Summed over the lines, rounding and minimums only lower what is given. */
  lemma {:induction false} GivenAtMost(inv: Inventory, items: seq<QuoteItem>, total: int, discount: int)
    requires total > 0 && AllStocked(inv, items)
    ensures total * SumBy(items, Given(inv, total, discount)) <= discount * BasketTotal(items)
  {
    if items != [] {
      var i := items[0];
      assert i in items;
      GivenAtMost(inv, items[1..], total, discount);
      FloorBounds(i, total, discount);
      var given, rest := i.qty * Share(inv, i, total, discount), SumBy(items[1..], Given(inv, total, discount));
      MulMonotone(Share(inv, i, total, discount), Proportional(i, total, discount), i.qty);
      MulMonotone(given, i.qty * Proportional(i, total, discount), total);
      Distribute(total, given, rest);
      Distribute(discount, i.unitPrice * i.qty, BasketTotal(items[1..]));
    }
  }

  lemma Distribute(a: int, x: int, y: int)
    ensures a * (x + y) == a * x + a * y
  {
  }

  /** The line's minimum did not cut into its proportional share. */
  ghost predicate MinimumSlack(inv: Inventory, items: seq<QuoteItem>, total: int, discount: int)
    requires total > 0
  {
    forall i :: i in items && i.sku in inv ==> Proportional(i, total, discount) <= i.unitPrice - inv[i.sku].minPrice
  }

  /** Without minimums in the way, rounding loses less than one unit per unit of quantity. */
  lemma {:induction false} GivenAtLeast(inv: Inventory, items: seq<QuoteItem>, total: int, discount: int)
    requires total > 0 && AllStocked(inv, items) && MinimumSlack(inv, items, total, discount)
    ensures total * (SumBy(items, Given(inv, total, discount)) + SumBy(items, Quantity())) >= discount * BasketTotal(items)
    ensures items != [] ==>
      total * (SumBy(items, Given(inv, total, discount)) + SumBy(items, Quantity())) > discount * BasketTotal(items)
  {
    if items != [] {
      var i := items[0];
      assert i in items;
      GivenAtLeast(inv, items[1..], total, discount);
      FloorBounds(i, total, discount);
      var given, rest := i.qty * Share(inv, i, total, discount), SumBy(items[1..], Given(inv, total, discount));
      var quantity := SumBy(items[1..], Quantity());
      Distribute(total, given + i.qty, rest + quantity);
      Distribute(total, given, i.qty);
      Distribute(discount, i.unitPrice * i.qty, BasketTotal(items[1..]));
      assert SumBy(items, Given(inv, total, discount)) == given + rest;
      assert SumBy(items, Quantity()) == i.qty + quantity;
    }
  }

  lemma CancelFactor(total: int, a: int, b: int)
    requires total > 0
    ensures total * a <= b * total ==> a <= b
    ensures total * a > b * total ==> a > b
  {
    if a > b {
      assert total * a > total * b;
    } else {
      assert total * a <= total * b;
    }
  }

  ghost predicate PricesBetween(inv: Inventory, items: seq<QuoteItem>, newItems: seq<QuoteItem>) {
    && |newItems| == |items|
    && forall k :: 0 <= k < |items| ==>
         && newItems[k].sku == items[k].sku && newItems[k].qty == items[k].qty && items[k].sku in inv
         && inv[items[k].sku].minPrice <= newItems[k].unitPrice <= items[k].unitPrice
  }

  lemma {:induction false} SpreadPricesBetween(inv: Inventory, items: seq<QuoteItem>, total: int, discount: int)
    requires AboveMinimum(inv, items) && total > 0 && discount >= 0
    ensures PricesBetween(inv, items, SpreadItems(inv, items, total, discount))
  {
    var newItems := SpreadItems(inv, items, total, discount);
    if items != [] {
      SpreadItemAt(inv, items, total, discount, 0);
    }
    forall k | 0 <= k < |items|
      ensures items[k].sku in inv && newItems[k].sku == items[k].sku && newItems[k].qty == items[k].qty
      ensures inv[items[k].sku].minPrice <= newItems[k].unitPrice <= items[k].unitPrice
    {
      assert items[k] in items;
      SpreadItemAt(inv, items, total, discount, k);
      ProportionalNonNegative(items[k], total, discount);
    }
  }

  lemma ClampedWithinBounds(inv: Inventory, items: seq<QuoteItem>, total: int, asked: int)
    requires AboveMinimum(inv, items) && total == BasketTotal(items)
    ensures 0 <= Clamped(inv, items, total, asked) <= Max(0, asked)
    ensures Clamped(inv, items, total, asked) <= total - MinTotal(inv, items)
  {
    MinimumBelowTotal(inv, items);
  }

  lemma {:induction false} GivenWithin(inv: Inventory, items: seq<QuoteItem>, total: int, discount: int)
    requires AboveMinimum(inv, items) && total == BasketTotal(items) && total > 0 && discount >= 0
    ensures 0 <= SumBy(items, Given(inv, total, discount)) <= discount
  {
    GivenNonNegative(inv, items, total, discount);
    GivenAtMost(inv, items, total, discount);
    CancelFactor(total, SumBy(items, Given(inv, total, discount)), discount);
  }

  lemma {:induction false} ShortfallWithin(inv: Inventory, items: seq<QuoteItem>, total: int, discount: int)
    requires AllStocked(inv, items) && total == BasketTotal(items) && total > 0
    requires MinimumSlack(inv, items, total, discount)
    ensures discount < SumBy(items, Given(inv, total, discount)) + SumBy(items, Quantity())
  {
    GivenAtLeast(inv, items, total, discount);
    assert items != [];
    CancelFactor(total, SumBy(items, Given(inv, total, discount)) + SumBy(items, Quantity()), discount);
  }

  /** For a basket priced at or above its minimums and a total equal to the sum of its lines: every
      unit price stays between its minimum and its old value, the discount is at most what was
      asked, and if no line hits its minimum it falls short of the clamped discount by strictly less
      than the number of units. */
  lemma {:induction false} SpreadIsFair(inv: Inventory, items: seq<QuoteItem>, total: nat, asked: int)
    requires AboveMinimum(inv, items) && total == BasketTotal(items) && total > 0
    ensures var r := SpreadSpec(inv, items, total, asked).value;
            var clamped := Clamped(inv, items, total, asked);
            && PricesBetween(inv, items, r.items)
            && 0 <= r.discount <= clamped <= Max(0, asked)
            && r.total == total - r.discount == BasketTotal(r.items)
            && (MinimumSlack(inv, items, total, clamped) ==> clamped - r.discount < SumBy(items, Quantity()))
  {
    var clamped := Clamped(inv, items, total, asked);
    ClampedWithinBounds(inv, items, total, asked);
    SpreadPricesBetween(inv, items, total, clamped);
    SpreadTotal(inv, items, total, clamped);
    GivenWithin(inv, items, total, clamped);
    if MinimumSlack(inv, items, total, clamped) {
      ShortfallWithin(inv, items, total, clamped);
    }
  }

  lemma {:induction false} GivenNonNegative(inv: Inventory, items: seq<QuoteItem>, total: int, discount: int)
    requires total > 0 && discount >= 0 && AboveMinimum(inv, items)
    ensures SumBy(items, Given(inv, total, discount)) >= 0
  {
    if items != [] {
      assert items[0] in items;
      ProportionalNonNegative(items[0], total, discount);
      MulMonotone(0, Share(inv, items[0], total, discount), items[0].qty);
      GivenNonNegative(inv, items[1..], total, discount);
    }
  }
}
