/** The negotiation layer and the quote pipeline: base price, campaigns, the provider's proposal, and
    the minimum guard every quote has to pass. */
module Quoting {
  import opened Results
  import opened Sums
  import opened Catalog
  import opened Pricing
  import opened Campaigns

  datatype Merchant = Merchant(maxDiscountBps: int, negotiates: bool)

  /** What the discount provider answered; rate limiting, timeouts and errors are all a fallback. */
  datatype Answer = Fallback | Proposed(bps: int)

  datatype Bounded = Bounded(basket: Basket, discount: int, appliedBps: int)

  function Cap(m: Merchant, productMax: Option<int>): int {
    Min(m.maxDiscountBps, if productMax.Some? then productMax.value else m.maxDiscountBps)
  }

  /** The bps actually conceded: the request clamped between zero and the cap. */
  function AppliedBps(m: Merchant, bps: int, productMax: Option<int>): int {
    Min(Max(bps, 0), Cap(m, productMax))
  }

  // ---------------------------------------------------------------- applyBoundedDiscount, counterOffer

  method ApplyBoundedDiscount(inv: Inventory, m: Merchant, b: Basket, bps: int, productMax: Option<int>)
    returns (r: Result<Option<Bounded>, QuoteError>)
    ensures r.Success? <==> AllStocked(inv, b.items)
    ensures r.Success? && b.total == 0 && b.items != [] ==> r.value == None
    ensures r.Success? && b.total > 0 ==>
      var applied := AppliedBps(m, bps, productMax);
      var s := SpreadSpec(inv, b.items, b.total, ApplyBps(b.total, applied)).value;
      s.total >= 0 && r.value == Some(Bounded(Basket(s.items, s.total), s.discount, applied))
  {
    var cap := Min(m.maxDiscountBps, if productMax.Some? then productMax.value else m.maxDiscountBps);
    var appliedBps := Min(Max(bps, 0), cap);
    var spread :- SpreadDiscount(inv, b.items, b.total, ApplyBps(b.total, appliedBps));
    if spread.None? { return Success(None); }
    SpreadTotalNonNegative(inv, b, ApplyBps(b.total, appliedBps));
    var s := spread.value;
    r := Success(Some(Bounded(Basket(s.items, s.total), s.discount, appliedBps)));
  }

  /** JavaScript's Math.floor(x / 2); Dafny's division rounds down for a positive divisor as well. */
  function HalvedBps(m: Merchant, requested: int): int {
    Min(requested, m.maxDiscountBps) / 2
  }

  method CounterOffer(inv: Inventory, m: Merchant, b: Basket, requested: int)
    returns (r: Result<Option<Bounded>, QuoteError>)
    ensures r.Success? <==> AllStocked(inv, b.items)
    ensures r.Success? && b.total == 0 && b.items != [] ==> r.value == None
    ensures r.Success? && b.total > 0 ==>
      && r.value.Some?
      && var o := r.value.value;
         var applied := AppliedBps(m, HalvedBps(m, requested), None);
         var s := SpreadSpec(inv, b.items, b.total, ApplyBps(b.total, applied)).value;
         && o.appliedBps == applied && o.basket.items == s.items && o.basket.total == s.total && o.discount == s.discount
         && o.discount == b.total - o.basket.total
         && AboveMinimum(inv, o.basket.items) && o.basket.total == BasketTotal(o.basket.items)
         && (m.maxDiscountBps >= 0 && Sound(inv, b) ==>
               // half of what was asked or of the cap, whichever is lower, and never negative
               && 0 <= 2 * o.appliedBps <= Max(0, Min(requested, m.maxDiscountBps)) <= 2 * o.appliedBps + 1
               && PricesBetween(inv, b.items, o.basket.items)
               && 0 <= o.discount <= ApplyBps(b.total, o.appliedBps)
               && 2 * o.discount <= ApplyBps(b.total, m.maxDiscountBps))
  {
    var halved := Min(requested, m.maxDiscountBps) / 2;
    r := ApplyBoundedDiscount(inv, m, b, halved, None);
    if r.Success? && b.total > 0 {
      var o := r.value.value;
      SpreadRespectsMinimum(inv, b.items, b.total, ApplyBps(b.total, o.appliedBps));
      if m.maxDiscountBps >= 0 && Sound(inv, b) {
        NegotiationTakesAtMost(inv, b, o.appliedBps);
        HalfTheCap(b.total, o.appliedBps, m.maxDiscountBps);
      }
    }
  }

  lemma BpsNonNegative(total: nat, bps: int)
    requires bps >= 0
    ensures ApplyBps(total, bps) >= 0
  {
    assert total * bps >= 0;
  }

  lemma HalfTheCap(total: nat, bps: int, cap: int)
    requires 0 <= 2 * bps <= cap
    ensures 2 * ApplyBps(total, bps) <= ApplyBps(total, cap)
  {
    var x := total * bps;
    assert total * cap >= total * (2 * bps);
    assert total * (2 * bps) == 2 * x;
    assert 2 * (x / 10_000) <= (2 * x) / 10_000;
  }

  /** One negotiation step alone gives at most floor(total * bps / 10000) and keeps every price
      between its minimum and its old value. */
  lemma NegotiationTakesAtMost(inv: Inventory, b: Basket, bps: int)
    requires Sound(inv, b) && b.total > 0 && bps >= 0
    ensures var s := SpreadSpec(inv, b.items, b.total, ApplyBps(b.total, bps)).value;
            && 0 <= s.discount <= ApplyBps(b.total, bps)
            && s.total == b.total - s.discount == BasketTotal(s.items)
            && PricesBetween(inv, b.items, s.items) && AboveMinimum(inv, s.items)
  {
    BpsNonNegative(b.total, bps);
    SpreadIsFair(inv, b.items, b.total, ApplyBps(b.total, bps));
    SpreadRespectsMinimum(inv, b.items, b.total, ApplyBps(b.total, bps));
  }

  // ---------------------------------------------------------------- repeated negotiation

  /** The quote after a number of accepted rounds, each superseding the quote before it. */
  function Rounds(inv: Inventory, m: Merchant, b: Basket, requested: int, n: nat): (r: Basket)
    requires AllStocked(inv, b.items)
    ensures AllStocked(inv, r.items)
    decreases n
  {
    if n == 0 || b.total == 0 then b
    else
      var asked := ApplyBps(b.total, AppliedBps(m, HalvedBps(m, requested), None));
      SpreadLineByLine(inv, b.items, b.total, Clamped(inv, b.items, b.total, asked));
      SpreadTotalNonNegative(inv, b, asked);
      var s := SpreadSpec(inv, b.items, b.total, asked).value;
      Rounds(inv, m, Basket(s.items, s.total), requested, n - 1)
  }

  /** The cap binds a single round only. A merchant with a 10% ceiling and no minimum price has
      given away more than 14% of the list price after three rounds on superseding quotes. */
  lemma {:induction false} CapIsPerRound(inv: Inventory, m: Merchant, b: Basket)
    requires inv == map[0 := Stocked(1_000_000, 0, 1)] && m == Merchant(1_000, true)
    requires b == Basket([QuoteItem(0, 1, 1_000_000)], 1_000_000)
    ensures AllStocked(inv, b.items) && Rounds(inv, m, b, 3_000, 3).total == 857_375
    ensures b.total - Rounds(inv, m, b, 3_000, 3).total > ApplyBps(b.total, m.maxDiscountBps)
  {
    OneRound(inv, m, 1_000_000, 950_000, 3);
    OneRound(inv, m, 950_000, 902_500, 2);
    OneRound(inv, m, 902_500, 857_375, 1);
  }

  lemma {:induction false} OneRound(inv: Inventory, m: Merchant, before: nat, after: nat, n: nat)
    requires inv == map[0 := Stocked(1_000_000, 0, 1)] && m == Merchant(1_000, true)
    requires before > 0 && after == before - (before * 500) / 10_000 && n > 0
    ensures AllStocked(inv, [QuoteItem(0, 1, before)]) && AllStocked(inv, [QuoteItem(0, 1, after)])
    ensures Rounds(inv, m, Basket([QuoteItem(0, 1, before)], before), 3_000, n) ==
            Rounds(inv, m, Basket([QuoteItem(0, 1, after)], after), 3_000, n - 1)
  {
    assert AppliedBps(m, HalvedBps(m, 3_000), None) == 500;
    SpreadOfOne(inv, before, before - after);
  }

  lemma SpreadOfOne(inv: Inventory, before: nat, asked: nat)
    requires 0 in inv && inv[0].minPrice == 0 && 0 < before && asked <= before
    ensures AllStocked(inv, [QuoteItem(0, 1, before)])
    ensures SpreadSpec(inv, [QuoteItem(0, 1, before)], before, asked) ==
            Some(Spread([QuoteItem(0, 1, before - asked)], before - asked, asked))
  {
    var item, newItem := QuoteItem(0, 1, before), QuoteItem(0, 1, before - asked);
    MinimumOfOne(inv, item);
    ExactShare(before, asked);
    assert Discounted(inv, item, before, asked) == newItem;
    SpreadItemsOfOne(inv, item, before, asked);
    TotalOfOne(newItem);
  }

  lemma MinimumOfOne(inv: Inventory, item: QuoteItem)
    requires item.sku in inv && inv[item.sku].minPrice == 0
    ensures MinTotal(inv, [item]) == 0
  {
    SumByAppend([], item, MinCost(inv));
    assert [] + [item] == [item];
  }

  lemma TotalOfOne(item: QuoteItem)
    ensures BasketTotal([item]) == item.unitPrice * item.qty
  {
    SumByAppend([], item, LineCost());
    assert [] + [item] == [item];
  }

  lemma {:induction false} SpreadItemsOfOne(inv: Inventory, item: QuoteItem, total: int, discount: int)
    requires total > 0 && item.sku in inv
    ensures AllStocked(inv, [item])
    ensures SpreadItems(inv, [item], total, discount) == [Discounted(inv, item, total, discount)]
  {
    assert [item][..0] == [];
    assert SpreadItems(inv, [], total, discount) == [];
  }

  lemma ExactShare(before: int, asked: int)
    requires before > 0
    ensures (asked * (before * 1)) / (before * 1) == asked
  {
    ExactQuotient(before, asked, asked * (before * 1));
  }

  lemma ExactQuotient(d: int, q: int, n: int)
    requires d > 0 && n == q * d
    ensures n / d == q
  {
    var f := n / d;
    assert n == d * f + n % d;
    assert d * (q - f) == n % d;
    MultipleBelow(d, q - f);
  }

  lemma MultipleBelow(d: int, k: int)
    requires d > 0
    ensures k >= 1 ==> d * k >= d
    ensures k <= -1 ==> d * k < 0
  {
  }

  // ---------------------------------------------------------------- createQuote

  /** The guard every quote passes. A total that is not a number compares false and passes. */
  method CreateQuote(inv: Inventory, items: seq<QuoteItem>, total: Option<int>) returns (r: Outcome<QuoteError>)
    ensures r.Pass? <==> AllStocked(inv, items) && (total.Some? ==> total.value >= MinTotal(inv, items))
    ensures r.Fail? && AllStocked(inv, items) ==> r.error == BelowMinPrice
  {
    var minTotal := MinTotalFor(inv, items);
    if minTotal.Failure? { return Fail(minTotal.error); }
    if total.Some? && total.value < minTotal.value { return Fail(BelowMinPrice); }
    r := Pass;
  }

  // ---------------------------------------------------------------- the pipeline

  /** The lines and total handed to createQuote; None when spreading over a zero total. */
  function Negotiated(inv: Inventory, m: Merchant, b: Basket, answer: Answer): Option<Basket>
    requires AllStocked(inv, b.items)
  {
    if !m.negotiates || answer.Fallback? || b.items == [] then Some(b)
    else if b.total == 0 then None
    else
      var asked := ApplyBps(b.total, AppliedBps(m, answer.bps, None));
      SpreadTotalNonNegative(inv, b, asked);
      var s := SpreadSpec(inv, b.items, b.total, asked).value;
      Some(Basket(s.items, s.total))
  }

  /** The body of the quote handler from the base price on. */
  method Quote(inv: Inventory, m: Merchant, requested: seq<Requested>, campaigns: seq<Campaign>, answer: Answer)
    returns (r: Result<Option<Basket>, QuoteError>)
    ensures BaseItems(inv, requested).Failure? ==> r == Failure(BaseItems(inv, requested).error)
    ensures BaseItems(inv, requested).Success? ==>
      var items := BaseItems(inv, requested).value;
      && AllStocked(inv, items) && BasketTotal(items) >= 0
      && var after := ApplyAll(inv, Basket(items, BasketTotal(items)), campaigns).basket;
         && AllStocked(inv, after.items)
         && (r.Success? ==> r.value == Negotiated(inv, m, after, answer))
         && (r.Failure? ==> r.error == BelowMinPrice)
         && (r.Failure? <==> BelowMinimumBase(inv, items) && !Lifts(m, answer, items))
  {
    var items, total := BuildQuoteItems(inv, requested);
    if items.Failure? { return Failure(items.error); }
    BaseIsStocked(inv, requested);
    BasketTotalNonNegative(items.value);
    var b := Basket(items.value, total);
    AllStaysStocked(inv, b, campaigns);
    var after, discount, ids := ApplyCampaignRules(inv, b, campaigns);
    var cur := Some(after);
    if m.negotiates && answer.Proposed? {
      var applied := ApplyBoundedDiscount(inv, m, after, answer.bps, None);
      cur := if after.items == [] then Some(after)
             else if applied.value.Some? then Some(applied.value.value.basket) else None;
    }
    PipelineGuard(inv, m, b, campaigns, answer);
    var guard := CreateQuote(inv, if cur.Some? then cur.value.items else after.items,
                             if cur.Some? then Some(cur.value.total) else None);
    r := if guard.Pass? then Success(cur) else Failure(guard.error);
  }

  lemma {:induction false} BaseIsStocked(inv: Inventory, requested: seq<Requested>)
    requires BaseItems(inv, requested).Success?
    ensures AllStocked(inv, BaseItems(inv, requested).value)
  {
    if requested != [] {
      BaseIsStocked(inv, requested[..|requested| - 1]);
    }
  }

  ghost predicate BelowMinimumBase(inv: Inventory, items: seq<QuoteItem>) {
    BasketTotal(items) < MinTotal(inv, items)
  }

  /** A proposal is spread over the basket and so lifts it to its minimum. */
  predicate Lifts(m: Merchant, answer: Answer, items: seq<QuoteItem>) {
    m.negotiates && answer.Proposed? && items != []
  }

  /** The guard fails exactly when the undiscounted basket was already below its minimum and no
      proposal came to lift it: discounts never cause it. */
  lemma {:induction false} PipelineGuard(inv: Inventory, m: Merchant, b: Basket, campaigns: seq<Campaign>, answer: Answer)
    requires AllStocked(inv, b.items) && b.total == BasketTotal(b.items)
    ensures var after := ApplyAll(inv, b, campaigns).basket;
            && AllStocked(inv, after.items)
            && var n := Negotiated(inv, m, after, answer);
               && (n.Some? ==> AllStocked(inv, n.value.items))
               && ((n.Some? && n.value.total < MinTotal(inv, n.value.items)) <==>
                     BelowMinimumBase(inv, b.items) && !Lifts(m, answer, b.items))
  {
    var after := ApplyAll(inv, b, campaigns).basket;
    AllStaysStocked(inv, b, campaigns);
    CampaignsChangeOrStay(inv, b, campaigns);
    GuardAfterCampaigns(inv, b, after);
    if Lifts(m, answer, after.items) && after.total > 0 {
      SpreadRespectsMinimum(inv, after.items, after.total, ApplyBps(after.total, AppliedBps(m, answer.bps, None)));
    }
  }

  lemma GuardAfterCampaigns(inv: Inventory, b: Basket, after: Basket)
    requires AllStocked(inv, b.items) && b.total == BasketTotal(b.items)
    requires after == b || (Sound(inv, after) && after.total < b.total && SameLines(b.items, after.items))
    ensures after.total < MinTotal(inv, after.items) <==> BelowMinimumBase(inv, b.items)
    ensures after.items == [] <==> b.items == []
  {
    if after != b {
      MinimumBelowTotal(inv, after.items);
      MinCostOfSameLines(inv, b.items, after.items);
    }
  }

  /** With catalog prices at or above their minimums the whole pipeline only ever lowers prices, never
      below a minimum, whatever the campaigns and the provider say; and the discounts of its steps add
      up to base minus final total. */
  lemma {:induction false} PipelineKeepsPrices(inv: Inventory, m: Merchant, b: Basket, campaigns: seq<Campaign>, answer: Answer)
    requires Sound(inv, b) && m.maxDiscountBps >= 0
    ensures var after := ApplyAll(inv, b, campaigns).basket;
            && Sound(inv, after) && after.total <= b.total
            && var n := Negotiated(inv, m, after, answer);
               && (n == None <==> Lifts(m, answer, b.items) && after.total == 0)
               && (n.Some? ==>
                     && PricesBetween(inv, b.items, n.value.items) && Sound(inv, n.value)
                     && n.value.total <= after.total
                     && after.total - n.value.total <= ApplyBps(after.total, m.maxDiscountBps))
  {
    var after := ApplyAll(inv, b, campaigns).basket;
    CampaignsKeepPrices(inv, b, campaigns);
    BpsNonNegative(after.total, m.maxDiscountBps);
    if Lifts(m, answer, after.items) && after.total > 0 {
      var bps := AppliedBps(m, answer.bps, None);
      NegotiationTakesAtMost(inv, after, bps);
      MulMonotone(bps, m.maxDiscountBps, after.total);
    }
  }

  /** A catalog whose prices respect its minimums makes every base basket sound. */
  lemma {:induction false} BaseIsSound(inv: Inventory, requested: seq<Requested>)
    requires BaseItems(inv, requested).Success?
    requires forall sku :: sku in inv ==> inv[sku].price >= inv[sku].minPrice
    ensures AboveMinimum(inv, BaseItems(inv, requested).value)
  {
    if requested != [] {
      BaseIsSound(inv, requested[..|requested| - 1]);
    }
  }

  // ---------------------------------------------------------------- negotiate

  datatype NegotiateReply = Refused | BelowFee(discount: int) | Accepted(basket: Option<Basket>)

  /** The negotiate handler from a usable quote on; `fee` is what the request cost the buyer. A zero
      total again has no numeric counter-offer, and is accepted. */
  method Negotiate(inv: Inventory, m: Merchant, b: Basket, requested: int, fee: nat)
    returns (r: Result<NegotiateReply, QuoteError>)
    requires b.items != []
    ensures r.Failure? <==> m.negotiates && !AllStocked(inv, b.items)
    ensures r.Success? ==> (r.value.Refused? <==> !m.negotiates)
    ensures r.Success? && r.value.Accepted? ==> (r.value.basket.Some? <==> b.total > 0)
    // an accepted counter-offer saves at least its fee and respects every minimum
    ensures r.Success? && r.value.Accepted? && b.total > 0 ==>
      var offer := r.value.basket.value;
      offer.total + fee <= b.total && Sound(inv, offer)
    ensures r.Success? && r.value.BelowFee? ==> r.value.discount < fee
    // and every one that saves its fee is accepted
    ensures r.Success? && m.negotiates && b.total > 0 ==>
      var counter := SpreadSpec(inv, b.items, b.total, ApplyBps(b.total, AppliedBps(m, HalvedBps(m, requested), None))).value;
      if fee <= counter.discount
      then r.value.Accepted? && r.value.basket.Some? && r.value.basket.value.items == counter.items && r.value.basket.value.total == counter.total
      else r.value == BelowFee(counter.discount)
  {
    if !m.negotiates { return Success(Refused); }
    var counter :- CounterOffer(inv, m, b, requested);
    if counter.None? { return Success(Accepted(None)); }
    var offer := counter.value;
    if offer.discount < fee { return Success(BelowFee(offer.discount)); }
    MinimumBelowTotal(inv, offer.basket.items);
    var guard := CreateQuote(inv, offer.basket.items, Some(offer.basket.total));
    assert guard.Pass?;
    r := Success(Accepted(Some(offer.basket)));
  }
}
