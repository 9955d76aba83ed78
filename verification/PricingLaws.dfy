/** Base prices, campaign rules, caps and counter-offers as inequalities that the numbers satisfy. */
module PricingLaws {
  import opened Results
  import opened Sums
  import opened Catalog
  import opened Pricing
  import opened Campaigns
  import opened Quoting

  // ---------------------------------------------------------------- base price

  ghost predicate Quotable(inv: Inventory, r: Requested) {
    r.sku in inv && r.qty <= inv[r.sku].quantity
  }

  ghost predicate RefusedFor(inv: Inventory, r: Requested, e: QuoteError) {
    if r.sku !in inv then e == SkuNotStocked(r.sku) else inv[r.sku].quantity < r.qty && e == InsufficientStock(r.sku)
  }

  ghost predicate AtListPrice(inv: Inventory, r: Requested, line: QuoteItem) {
    Quotable(inv, r) && line == QuoteItem(r.sku, r.qty, inv[r.sku].price)
  }

  lemma {:induction false} QuotedAtListPrice(inv: Inventory, requested: seq<Requested>, k: nat)
    requires BaseItems(inv, requested).Success? && k < |requested|
    ensures |BaseItems(inv, requested).value| == |requested|
    ensures AtListPrice(inv, requested[k], BaseItems(inv, requested).value[k])
  {
    var init := requested[..|requested| - 1];
    if init != [] {
      QuotedAtListPrice(inv, init, if k < |init| then k else 0);
    }
  }

  ghost predicate FirstRefused(inv: Inventory, requested: seq<Requested>, k: nat, e: QuoteError) {
    && k < |requested| && RefusedFor(inv, requested[k], e)
    && forall j :: 0 <= j < k ==> Quotable(inv, requested[j])
  }

  lemma {:induction false} RefusedForTheFirst(inv: Inventory, requested: seq<Requested>) returns (k: nat)
    requires BaseItems(inv, requested).Failure?
    ensures FirstRefused(inv, requested, k, BaseItems(inv, requested).error)
  {
    var init := requested[..|requested| - 1];
    if BaseItems(inv, init).Failure? {
      k := RefusedForTheFirst(inv, init);
      assert forall j :: 0 <= j <= k ==> requested[j] == init[j];
    } else {
      k := |init|;
      forall j | 0 <= j < k ensures Quotable(inv, requested[j]) {
        QuotedAtListPrice(inv, init, j);
        assert AtListPrice(inv, init[j], BaseItems(inv, init).value[j]);
      }
    }
  }

  /** Undiscounted lines carry the list price; a request is refused for its first line that is not stocked or
      asks for more than is there. */
  lemma {:induction false} BaseItemsExactly(inv: Inventory, requested: seq<Requested>)
    ensures BaseItems(inv, requested).Success? <==> forall k :: 0 <= k < |requested| ==> Quotable(inv, requested[k])
    ensures match BaseItems(inv, requested)
            case Success(items) => |items| == |requested| && forall k :: 0 <= k < |requested| ==> AtListPrice(inv, requested[k], items[k])
            case Failure(e) => exists k: nat :: FirstRefused(inv, requested, k, e)
  {
    if BaseItems(inv, requested).Success? {
      if requested != [] {
        QuotedAtListPrice(inv, requested, 0);
      }
      forall k | 0 <= k < |requested| ensures AtListPrice(inv, requested[k], BaseItems(inv, requested).value[k]) {
        QuotedAtListPrice(inv, requested, k);
      }
    } else {
      var k := RefusedForTheFirst(inv, requested);
    }
  }

  // ---------------------------------------------------------------- shares in basis points

  lemma BpsAtMost(total: nat, bps: int, x: int)
    ensures x <= ApplyBps(total, bps) <==> 10_000 * x <= total * bps
  {
    var n := total * bps;
    assert 10_000 * (n / 10_000) <= n < 10_000 * (n / 10_000) + 10_000;
  }

  /** Neither the percentage or amount of a rule nor its maximum forbids this discount. */
  predicate Allows(rule: Rule, total: nat, x: int) {
    && (if rule.isPercent then 10_000 * x <= total * rule.value else x <= rule.value)
    && (rule.maximum.Some? ==> x <= rule.maximum.value)
  }

  /** What a rule asks for: the most that neither its percentage or amount nor its maximum forbids. */
  lemma RuleAsksMost(rule: Rule, total: nat, x: int)
    ensures x <= RuleDiscount(rule, total) <==> Allows(rule, total, x)
  {
    BpsAtMost(total, rule.value, x);
  }

  /** A rule that can be evaluated and asks for something spreads exactly that; if the spread takes nothing, and
      for every other rule, the basket stays. */
  lemma RuleSpreads(inv: Inventory, b: Basket, rule: Rule, asked: int)
    requires AllStocked(inv, b.items) && b.total > 0
    requires Allows(rule, b.total, asked) && !Allows(rule, b.total, asked + 1)
    ensures var s := SpreadSpec(inv, b.items, b.total, asked).value;
            if rule.kind != Unevaluated && asked >= 1 && s.total < b.total && s.total >= 0
            then ApplyRule(inv, b, rule) == Basket(s.items, s.total)
            else ApplyRule(inv, b, rule) == b
  {
    RuleAsksMost(rule, b.total, asked);
    RuleAsksMost(rule, b.total, asked + 1);
    assert RuleDiscount(rule, b.total) == asked;
  }

  /** The bps conceded are the most that request and ceilings allow, but not below zero unless a ceiling is. */
  lemma AppliedIsMost(m: Merchant, bps: int, productMax: Option<int>, x: int)
    ensures x <= AppliedBps(m, bps, productMax) <==>
              x <= m.maxDiscountBps && (productMax.Some? ==> x <= productMax.value) && (x <= 0 || x <= bps)
  {
  }

  /** A counter-offer concedes half of the request or of the ceiling, rounded down. */
  lemma HalfIsMost(m: Merchant, requested: int, x: int)
    ensures x <= HalvedBps(m, requested) <==> 2 * x <= requested && 2 * x <= m.maxDiscountBps
  {
  }
}
