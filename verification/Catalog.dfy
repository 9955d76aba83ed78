/** Identifiers, quantities and priced lines shared by quoting, options, stock and orders. */
module Catalog {
  import opened Sums

  // Only equality of identifiers matters.
  type Sku = nat
  type Slug = nat
  type QuoteId = nat

  type Qty = q: int | q > 0 witness 1

  /** A priced line of a quote or an order; prices are in micro-USDC. */
  datatype QuoteItem = QuoteItem(sku: Sku, qty: Qty, unitPrice: nat)

  function LineCost(): QuoteItem -> int {
    (q: QuoteItem) => q.unitPrice * q.qty
  }

  function BasketTotal(items: seq<QuoteItem>): int {
    SumBy(items, LineCost())
  }

  lemma {:induction false} BasketTotalNonNegative(items: seq<QuoteItem>)
    ensures BasketTotal(items) >= 0
  {
    if items != [] {
      BasketTotalNonNegative(items[1..]);
    }
  }

}
