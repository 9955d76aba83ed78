/** Campaign discounts: each evaluable rule of each campaign, in priority order, spread on top of the
    running basket. */
module Campaigns {
  import opened Results
  import opened Sums
  import opened Catalog
  import opened Pricing

  datatype RuleType = PercentOff | FixedOff | Unevaluated

  datatype Rule = Rule(kind: RuleType, isPercent: bool, value: int, maximum: Option<int>)

  type CampaignId = nat

  datatype Campaign = Campaign(id: CampaignId, exclusive: bool, rules: seq<Rule>)

  datatype Basket = Basket(items: seq<QuoteItem>, total: nat)

  datatype Priced = Priced(basket: Basket, ids: seq<CampaignId>, closed: bool)

  function ApplyBps(micro: nat, bps: int): int {
    (micro * bps) / 10_000
  }

  function RuleDiscount(rule: Rule, total: nat): int {
    var discount := if rule.isPercent then ApplyBps(total, rule.value) else rule.value;
    if rule.maximum.Some? then Min(discount, rule.maximum.value) else discount
  }

  // ---------------------------------------------------------------- specification

  /** A rule takes effect only if its spread really lowers the total. */
  function ApplyRule(inv: Inventory, b: Basket, rule: Rule): Basket
    requires AllStocked(inv, b.items)
  {
    var discount := RuleDiscount(rule, b.total);
    if rule.kind == Unevaluated || discount <= 0 then b
    else
      match SpreadSpec(inv, b.items, b.total, discount)
      case Some(s) => if s.discount > 0 && s.total >= 0 then Basket(s.items, s.total) else b
      case None => b
  }

  lemma RuleKeepsStocked(inv: Inventory, b: Basket, rule: Rule)
    requires AllStocked(inv, b.items)
    ensures var after := ApplyRule(inv, b, rule);
            && AllStocked(inv, after.items) && after.total <= b.total && SameLines(b.items, after.items)
            && (after == b || (after.total < b.total && AboveMinimum(inv, after.items) && after.total == BasketTotal(after.items)))
  {
    var discount := RuleDiscount(rule, b.total);
    if b.total > 0 {
      SpreadLineByLine(inv, b.items, b.total, Clamped(inv, b.items, b.total, discount));
    }
  }

  function ApplyRules(inv: Inventory, b: Basket, rules: seq<Rule>): (after: Basket)
    requires AllStocked(inv, b.items)
    ensures AllStocked(inv, after.items)
    decreases |rules|
  {
    if rules == [] then b
    else
      RuleKeepsStocked(inv, b, rules[0]);
      ApplyRules(inv, ApplyRule(inv, b, rules[0]), rules[1..])
  }

  /** The campaigns applied to a basket. A campaign counts as applied exactly when its rules lowered
      the total; an applied exclusive campaign closes the list. */
  function ApplyAll(inv: Inventory, b: Basket, campaigns: seq<Campaign>): Priced
    requires AllStocked(inv, b.items)
    decreases |campaigns|
  {
    if campaigns == [] then Priced(b, [], false)
    else
      var c := campaigns[0];
      var after := ApplyRules(inv, b, c.rules);
      if after.total < b.total && c.exclusive then Priced(after, [c.id], true)
      else
        var rest := ApplyAll(inv, after, campaigns[1..]);
        Priced(rest.basket, (if after.total < b.total then [c.id] else []) + rest.ids, rest.closed)
  }

  // ---------------------------------------------------------------- applyCampaignRules

  method EvaluableRules(rules: seq<Rule>) returns (r: seq<Rule>)
    ensures r == Evaluable(rules)
    ensures forall x :: multiset(r)[x] == if x.kind == Unevaluated then 0 else multiset(rules)[x]
  {
    EvaluableExactly(rules);
    r := [];
    for k := 0 to |rules|
      invariant r == Evaluable(rules[..k])
    {
      assert rules[..k + 1][..k] == rules[..k];
      if rules[k].kind != Unevaluated {
        r := r + [rules[k]];
      }
    }
    assert rules[..|rules|] == rules;
  }

  function Evaluable(rules: seq<Rule>): seq<Rule> {
    if rules == [] then []
    else
      Evaluable(rules[..|rules| - 1]) + if rules[|rules| - 1].kind != Unevaluated then [rules[|rules| - 1]] else []
  }

  /** Every evaluable rule as often as before, and no other. */
  lemma {:induction false} EvaluableExactly(rules: seq<Rule>)
    ensures forall x :: multiset(Evaluable(rules))[x] == if x.kind == Unevaluated then 0 else multiset(rules)[x]
  {
    if rules != [] {
      EvaluableExactly(rules[..|rules| - 1]);
      assert rules == rules[..|rules| - 1] + [rules[|rules| - 1]];
    }
  }

  lemma {:induction false} RulesSnoc(inv: Inventory, b: Basket, rules: seq<Rule>, rule: Rule)
    requires AllStocked(inv, b.items)
    ensures ApplyRules(inv, b, rules + [rule]) == ApplyRule(inv, ApplyRules(inv, b, rules), rule)
    decreases |rules|
  {
    RuleKeepsStocked(inv, b, (rules + [rule])[0]);
    if rules == [] {
      assert rules + [rule] == [rule];
      assert ApplyRules(inv, b, [rule]) == ApplyRules(inv, ApplyRule(inv, b, rule), [rule][1..]);
    } else {
      assert (rules + [rule])[1..] == rules[1..] + [rule];
      RulesSnoc(inv, ApplyRule(inv, b, rules[0]), rules[1..], rule);
    }
  }

  lemma {:induction false} UnevaluatedRulesDoNothing(inv: Inventory, b: Basket, rules: seq<Rule>)
    requires AllStocked(inv, b.items)
    ensures ApplyRules(inv, b, Evaluable(rules)) == ApplyRules(inv, b, rules)
    decreases |rules|
  {
    if rules != [] {
      var init, last := rules[..|rules| - 1], rules[|rules| - 1];
      assert rules == init + [last];
      UnevaluatedRulesDoNothing(inv, b, init);
      RulesSnoc(inv, b, init, last);
      RulesSnoc(inv, b, Evaluable(init), last);
      assert Evaluable(init) + [] == Evaluable(init);
    }
  }

  lemma {:induction false} RulesLowerTotal(inv: Inventory, b: Basket, rules: seq<Rule>)
    requires AllStocked(inv, b.items)
    ensures ApplyRules(inv, b, rules).total <= b.total
    ensures ApplyRules(inv, b, rules).total == b.total ==> ApplyRules(inv, b, rules) == b
    decreases |rules|
  {
    if rules != [] {
      RuleKeepsStocked(inv, b, rules[0]);
      RulesLowerTotal(inv, ApplyRule(inv, b, rules[0]), rules[1..]);
    }
  }

  /** The inner loop: the evaluable rules of one campaign. */
  method ApplyOneCampaign(inv: Inventory, b: Basket, rules: seq<Rule>) returns (cur: Basket, discounted: int, applied: bool)
    requires AllStocked(inv, b.items)
    ensures cur == ApplyRules(inv, b, rules)
    ensures discounted == b.total - cur.total
    ensures applied <==> cur.total < b.total
  {
    cur, discounted, applied := b, 0, false;
    for k := 0 to |rules|
      invariant AllStocked(inv, cur.items) && cur == ApplyRules(inv, b, rules[..k])
      invariant discounted == b.total - cur.total >= 0
      invariant applied <==> discounted > 0
    {
      assert rules[..k + 1] == rules[..k] + [rules[k]];
      RulesSnoc(inv, b, rules[..k], rules[k]);
      RuleKeepsStocked(inv, cur, rules[k]);
      var rule := rules[k];
      var discount := if rule.isPercent then ApplyBps(cur.total, rule.value) else rule.value;
      if rule.maximum.Some? {
        discount := Min(discount, rule.maximum.value);
      }
      if discount <= 0 || rule.kind == Unevaluated { continue; }
      var spread := SpreadDiscount(inv, cur.items, cur.total, discount);
      if spread.value.Some? && spread.value.value.discount > 0 {
        var s := spread.value.value;
        SpreadTotalNonNegative(inv, cur, discount);
        cur := Basket(s.items, s.total);
        discounted := discounted + s.discount;
        applied := true;
      }
    }
    assert rules[..|rules|] == rules;
  }

  lemma SpreadTotalNonNegative(inv: Inventory, b: Basket, discount: int)
    requires AllStocked(inv, b.items)
    ensures SpreadSpec(inv, b.items, b.total, discount).Some? ==> SpreadSpec(inv, b.items, b.total, discount).value.total >= 0
  {
    if b.total > 0 {
      BasketTotalNonNegative(SpreadSpec(inv, b.items, b.total, discount).value.items);
    }
  }

  function Prefixed(ids: seq<CampaignId>, p: Priced): Priced {
    p.(ids := ids + p.ids)
  }

  lemma {:induction false} ApplyAllStep(inv: Inventory, ids: seq<CampaignId>, cur: Basket, campaigns: seq<Campaign>, k: nat)
    requires AllStocked(inv, cur.items) && k < |campaigns|
    ensures var c := campaigns[k];
            var after := ApplyRules(inv, cur, c.rules);
            Prefixed(ids, ApplyAll(inv, cur, campaigns[k..])) ==
              if after.total < cur.total && c.exclusive then Priced(after, ids + [c.id], true)
              else Prefixed(if after.total < cur.total then ids + [c.id] else ids, ApplyAll(inv, after, campaigns[k + 1..]))
  {
    var c := campaigns[k];
    var after := ApplyRules(inv, cur, c.rules);
    assert campaigns[k..][1..] == campaigns[k + 1..];
    var rest := ApplyAll(inv, after, campaigns[k + 1..]);
    assert ids + ([c.id] + rest.ids) == (ids + [c.id]) + rest.ids;
    assert ids + ([] + rest.ids) == ids + rest.ids;
  }

  /** The discounts of the single steps telescope to initial minus final total. */
  method ApplyCampaignRules(inv: Inventory, b: Basket, campaigns: seq<Campaign>)
    returns (cur: Basket, totalDiscount: int, appliedIds: seq<CampaignId>)
    requires AllStocked(inv, b.items)
    ensures cur == ApplyAll(inv, b, campaigns).basket && appliedIds == ApplyAll(inv, b, campaigns).ids
    ensures totalDiscount == b.total - cur.total >= 0
  {
    cur, totalDiscount, appliedIds := b, 0, [];
    var k := 0;
    while k < |campaigns|
      invariant 0 <= k <= |campaigns|
      invariant AllStocked(inv, cur.items)
      invariant ApplyAll(inv, b, campaigns) == Prefixed(appliedIds, ApplyAll(inv, cur, campaigns[k..]))
      invariant totalDiscount == b.total - cur.total >= 0
    {
      var campaign := campaigns[k];
      ApplyAllStep(inv, appliedIds, cur, campaigns, k);
      k := k + 1;
      var rules := EvaluableRules(campaign.rules);
      UnevaluatedRulesDoNothing(inv, cur, campaign.rules);
      if |rules| == 0 { continue; }
      RulesLowerTotal(inv, cur, rules);
      var discounted, applied;
      cur, discounted, applied := ApplyOneCampaign(inv, cur, rules);
      totalDiscount := totalDiscount + discounted;
      if applied {
        appliedIds := appliedIds + [campaign.id];
        if campaign.exclusive { return; }
      }
    }
  }

  // ---------------------------------------------------------------- stacking and exclusivity

  function Then(p: Priced, q: Priced): Priced {
    if p.closed then p else Priced(q.basket, p.ids + q.ids, q.closed)
  }

  lemma ThenPrefix(ids: seq<CampaignId>, p: Priced, q: Priced)
    ensures Then(p.(ids := ids + p.ids), q) == Then(p, q).(ids := ids + Then(p, q).ids)
  {
    assert (ids + p.ids) + q.ids == ids + (p.ids + q.ids);
  }

  lemma {:induction false} AllStaysStocked(inv: Inventory, b: Basket, campaigns: seq<Campaign>)
    requires AllStocked(inv, b.items)
    ensures AllStocked(inv, ApplyAll(inv, b, campaigns).basket.items)
    decreases |campaigns|
  {
    if campaigns != [] {
      AllStaysStocked(inv, ApplyRules(inv, b, campaigns[0].rules), campaigns[1..]);
    }
  }

  /** Applying two lists in a row is applying their concatenation, unless the first one was closed by
      an exclusive campaign: then the second list has no effect at all. */
  lemma {:induction false} ApplyAllConcat(inv: Inventory, b: Basket, first: seq<Campaign>, second: seq<Campaign>)
    requires AllStocked(inv, b.items) && AllStocked(inv, ApplyAll(inv, b, first).basket.items)
    ensures var p := ApplyAll(inv, b, first);
            ApplyAll(inv, b, first + second) == Then(p, ApplyAll(inv, p.basket, second))
    decreases |first|
  {
    if first == [] {
      assert first + second == second;
    } else {
      var after := ApplyRules(inv, b, first[0].rules);
      assert (first + second)[1..] == first[1..] + second && (first + second)[0] == first[0];
      if !(after.total < b.total && first[0].exclusive) {
        AllStaysStocked(inv, after, first[1..]);
        ApplyAllConcat(inv, after, first[1..], second);
        var p := ApplyAll(inv, after, first[1..]);
        ThenPrefix(if after.total < b.total then [first[0].id] else [], p, ApplyAll(inv, p.basket, second));
      }
    }
  }

  /** Nothing applies after an exclusive campaign that lowered the total, whatever comes behind it. */
  lemma {:induction false} NothingAfterExclusive(inv: Inventory, b: Basket, before: seq<Campaign>, c: Campaign, rest: seq<Campaign>)
    requires AllStocked(inv, b.items) && c.exclusive
    requires ApplyAll(inv, b, before + [c]).basket.total < ApplyAll(inv, b, before).basket.total
    ensures ApplyAll(inv, b, before + [c] + rest) == ApplyAll(inv, b, before + [c])
    ensures ApplyAll(inv, b, before + [c]).ids == ApplyAll(inv, b, before).ids + [c.id]
  {
    AllStaysStocked(inv, b, before);
    ApplyAllConcat(inv, b, before, [c]);
    AllStaysStocked(inv, b, before + [c]);
    ApplyAllConcat(inv, b, before + [c], rest);
    var p := ApplyAll(inv, b, before);
    assert [c][1..] == [];
    RulesLowerTotal(inv, p.basket, c.rules);
  }

  // ---------------------------------------------------------------- prices

  /** Every price at or above its minimum, and the total the sum of the lines. */
  ghost predicate Sound(inv: Inventory, b: Basket) {
    AboveMinimum(inv, b.items) && b.total == BasketTotal(b.items)
  }

  lemma RuleKeepsPrices(inv: Inventory, b: Basket, rule: Rule)
    requires Sound(inv, b)
    ensures Sound(inv, ApplyRule(inv, b, rule)) && PricesBetween(inv, b.items, ApplyRule(inv, b, rule).items)
  {
    RuleKeepsStocked(inv, b, rule);
    if b.total > 0 {
      SpreadIsFair(inv, b.items, b.total, RuleDiscount(rule, b.total));
    }
  }

  lemma {:induction false} RulesKeepPrices(inv: Inventory, b: Basket, rules: seq<Rule>)
    requires Sound(inv, b)
    ensures Sound(inv, ApplyRules(inv, b, rules)) && PricesBetween(inv, b.items, ApplyRules(inv, b, rules).items)
    decreases |rules|
  {
    if rules == [] {
    } else {
      var next := ApplyRule(inv, b, rules[0]);
      RuleKeepsPrices(inv, b, rules[0]);
      RulesKeepPrices(inv, next, rules[1..]);
    }
  }

  /** From a basket at or above its minimums, any list of campaigns keeps every unit price between
      its minimum and its base value, and the total equal to the sum of the lines. */
  lemma {:induction false} CampaignsKeepPrices(inv: Inventory, b: Basket, campaigns: seq<Campaign>)
    requires Sound(inv, b)
    ensures var after := ApplyAll(inv, b, campaigns).basket;
            Sound(inv, after) && PricesBetween(inv, b.items, after.items) && after.total <= b.total
    decreases |campaigns|
  {
    if campaigns == [] {
    } else {
      var after := ApplyRules(inv, b, campaigns[0].rules);
      RulesKeepPrices(inv, b, campaigns[0].rules);
      RulesLowerTotal(inv, b, campaigns[0].rules);
      CampaignsKeepPrices(inv, after, campaigns[1..]);
    }
  }

  /** Without any assumption on the prices: either no campaign changed the basket, or the basket it
      left is at or above every minimum. */
  lemma {:induction false} CampaignsChangeOrStay(inv: Inventory, b: Basket, campaigns: seq<Campaign>)
    requires AllStocked(inv, b.items)
    ensures var after := ApplyAll(inv, b, campaigns).basket;
            after == b || (Sound(inv, after) && after.total < b.total && SameLines(b.items, after.items))
    decreases |campaigns|
  {
    if campaigns != [] {
      var after := ApplyRules(inv, b, campaigns[0].rules);
      RulesChangeOrStay(inv, b, campaigns[0].rules);
      CampaignsChangeOrStay(inv, after, campaigns[1..]);
    }
  }

  lemma {:induction false} RulesChangeOrStay(inv: Inventory, b: Basket, rules: seq<Rule>)
    requires AllStocked(inv, b.items)
    ensures var after := ApplyRules(inv, b, rules);
            after == b || (Sound(inv, after) && after.total < b.total && SameLines(b.items, after.items))
    decreases |rules|
  {
    if rules != [] {
      RuleKeepsStocked(inv, b, rules[0]);
      RulesChangeOrStay(inv, ApplyRule(inv, b, rules[0]), rules[1..]);
    }
  }
}
