/** buildOptions as a whole: the two or three options shown to the user. */
module BuildOptions {
  import opened Results
  import opened Sums
  import opened Catalog
  import opened ShoppingOptions
  import opened GreedyRoute
  import G = GreedyGap

  datatype Kind = Cheapest | BestQuality | PickupOptimized

  datatype ShoppingOption = ShoppingOption(kind: Kind, shops: seq<Shop>, total: int, totalWalk: int, stops: nat)

  function DistanceOf(): Shop -> int {
    (s: Shop) => s.distance
  }

  function ToOption(kind: Kind, shops: seq<Shop>): ShoppingOption {
    ShoppingOption(kind, shops, SumBy(shops, Subtotal()), SumBy(shops, DistanceOf()), |shops|)
  }

  function Fulfillable(items: seq<PlanItem>, quotes: seq<CandidateQuote>): seq<PlanItem> {
    if items == [] then []
    else
      var i := items[|items| - 1];
      Fulfillable(items[..|items| - 1], quotes) + if OffersFor(i, quotes) != [] then [i] else []
  }

  function Unfulfillable(items: seq<PlanItem>, quotes: seq<CandidateQuote>): seq<Sku> {
    if items == [] then []
    else
      var i := items[|items| - 1];
      Unfulfillable(items[..|items| - 1], quotes) + if OffersFor(i, quotes) != [] then [] else [i.sku]
  }

  lemma {:induction false} FulfillableIsFilter(items: seq<PlanItem>, quotes: seq<CandidateQuote>)
    ensures forall i :: i in Fulfillable(items, quotes) <==> i in items && OffersFor(i, quotes) != []
    ensures DistinctSkus(items) ==> DistinctSkus(Fulfillable(items, quotes))
  {
    if items != [] {
      var init, last := items[..|items| - 1], items[|items| - 1];
      FulfillableIsFilter(init, quotes);
      assert items == init + [last];
      if DistinctSkus(items) {
        forall i | i in Fulfillable(init, quotes) ensures i.sku != last.sku {
          assert i in init;
        }
      }
    }
  }

  /** The merchants of an option. Each has one shop, so this is what the sorted, joined route
      string stands for. */
  function SlugsIn(shops: seq<Shop>): set<Slug> {
    set s | s in shops :: s.slug
  }

  predicate SameRoute(a: ShoppingOption, b: ShoppingOption) {
    SlugsIn(a.shops) == SlugsIn(b.shops)
  }

  /** The three plans for the fulfillable items. */
  function PlanFor(kind: Kind, items: seq<PlanItem>, quotes: seq<CandidateQuote>): seq<Assignment>
    requires forall i :: i in items ==> OffersFor(i, quotes) != []
  {
    match kind
    case Cheapest => Choose(items, quotes, CheaperOffer)
    case BestQuality => Choose(items, quotes, FinerOffer)
    case PickupOptimized => RouteFrom(items, SkusOf(items), quotes).plan
  }

  function OptionFor(kind: Kind, items: seq<PlanItem>, quotes: seq<CandidateQuote>): ShoppingOption
    requires forall i :: i in items ==> OffersFor(i, quotes) != []
  {
    ToOption(kind, ShopsOf(PlanFor(kind, items, quotes)))
  }

  /** The cheapest option always; the others only when they are to be kept. */
  function Keep(cheapest: ShoppingOption, quality: ShoppingOption, pickup: ShoppingOption, keepQuality: bool, keepPickup: bool)
    : seq<ShoppingOption>
  {
    [cheapest] + (if keepQuality then [quality] else []) + (if keepPickup then [pickup] else [])
  }

  /** Best quality is shown when its route or its total differs from the cheapest one's. */
  predicate ShowQuality(cheapest: ShoppingOption, quality: ShoppingOption) {
    !SameRoute(quality, cheapest) || quality.total != cheapest.total
  }

  /** The pickup route is shown when it differs from both others. */
  predicate ShowPickup(cheapest: ShoppingOption, quality: ShoppingOption, pickup: ShoppingOption) {
    !SameRoute(pickup, cheapest) && !SameRoute(pickup, quality)
  }

  function OptionsFor(items: seq<PlanItem>, quotes: seq<CandidateQuote>): seq<ShoppingOption>
    requires forall i :: i in items ==> OffersFor(i, quotes) != []
  {
    if items == [] then []
    else
      var cheapest := OptionFor(Cheapest, items, quotes);
      var quality := OptionFor(BestQuality, items, quotes);
      var pickup := OptionFor(PickupOptimized, items, quotes);
      Keep(cheapest, quality, pickup, ShowQuality(cheapest, quality), ShowPickup(cheapest, quality, pickup))
  }

  /** The opening loop of buildOptions. */
  method SplitItems(planItems: seq<PlanItem>, quotes: seq<CandidateQuote>) returns (fulfillable: seq<PlanItem>, unfulfillable: seq<Sku>)
    ensures fulfillable == Fulfillable(planItems, quotes) && unfulfillable == Unfulfillable(planItems, quotes)
  {
    fulfillable, unfulfillable := [], [];
    for k := 0 to |planItems|
      invariant fulfillable == Fulfillable(planItems[..k], quotes)
      invariant unfulfillable == Unfulfillable(planItems[..k], quotes)
    {
      assert planItems[..k + 1][..k] == planItems[..k];
      var candidates := CandidatesFor(planItems[k], quotes);
      if |candidates| > 0 {
        fulfillable := fulfillable + [planItems[k]];
      } else {
        unfulfillable := unfulfillable + [planItems[k].sku];
      }
    }
    assert planItems[..|planItems|] == planItems;
  }

  method MakeOption(kind: Kind, items: seq<PlanItem>, quotes: seq<CandidateQuote>) returns (o: ShoppingOption)
    requires forall i :: i in items ==> OffersFor(i, quotes) != []
    ensures o == OptionFor(kind, items, quotes)
  {
    var plan: seq<Assignment>;
    match kind {
      case Cheapest => plan := Choose(items, quotes, CheaperOffer);
      case BestQuality => plan := Choose(items, quotes, FinerOffer);
      case PickupOptimized =>
        var _, route := PlanRoute(items, quotes);
        plan := route;
    }
    var shops := BuildShops(plan);
    o := ToOption(kind, shops);
  }

  method KeepDifferent(cheapest: ShoppingOption, quality: ShoppingOption, pickup: ShoppingOption) returns (options: seq<ShoppingOption>)
    ensures options == Keep(cheapest, quality, pickup, ShowQuality(cheapest, quality), ShowPickup(cheapest, quality, pickup))
  {
    options := [cheapest];
    if ShowQuality(cheapest, quality) {
      options := options + [quality];
    }
    if ShowPickup(cheapest, quality, pickup) {
      options := options + [pickup];
    }
  }

  method BuildOptions(planItems: seq<PlanItem>, quotes: seq<CandidateQuote>)
    returns (options: seq<ShoppingOption>, unfulfillable: seq<Sku>)
    ensures unfulfillable == Unfulfillable(planItems, quotes)
    ensures (forall i :: i in Fulfillable(planItems, quotes) ==> OffersFor(i, quotes) != [])
            && options == OptionsFor(Fulfillable(planItems, quotes), quotes)
  {
    var fulfillable;
    fulfillable, unfulfillable := SplitItems(planItems, quotes);
    FulfillableIsFilter(planItems, quotes);
    if fulfillable == [] {
      return [], unfulfillable;
    }
    var cheapest := MakeOption(Cheapest, fulfillable, quotes);
    var quality := MakeOption(BestQuality, fulfillable, quotes);
    var pickup := MakeOption(PickupOptimized, fulfillable, quotes);
    options := KeepDifferent(cheapest, quality, pickup);
  }

  // ---------------------------------------------------------------- what every option promises

  lemma {:induction false} ChooseSupplies(items: seq<PlanItem>, quotes: seq<CandidateQuote>, before: (Offer, Offer) -> bool)
    requires forall i :: i in items ==> OffersFor(i, quotes) != []
    ensures Supplies(Choose(items, quotes, before), items, quotes)
  {
    var plan := Choose(items, quotes, before);
    assert ItemsOf(plan) == items;
  }

  lemma {:induction false} PlansSupply(kind: Kind, items: seq<PlanItem>, quotes: seq<CandidateQuote>)
    requires DistinctSkus(items) && forall i :: i in items ==> OffersFor(i, quotes) != []
    ensures Supplies(PlanFor(kind, items, quotes), items, quotes)
  {
    match kind {
      case Cheapest => ChooseSupplies(items, quotes, CheaperOffer);
      case BestQuality => ChooseSupplies(items, quotes, FinerOffer);
      case PickupOptimized =>
        forall i | i in items ensures Suppliable(i, quotes) {
          SuppliableHasOffers(i, quotes);
        }
        RouteSupplies(items, quotes);
    }
  }

  /** SKU and quantity, the part of an item line that the plan asked for. */
  datatype Need = Need(sku: Sku, qty: Qty)

  function NeedOfItem(): PlanItem -> seq<Need> {
    (i: PlanItem) => [Need(i.sku, i.qty)]
  }

  function NeedOfLine(): QuoteItem -> seq<Need> {
    (q: QuoteItem) => [Need(q.sku, q.qty)]
  }

  lemma {:induction false} NeedsOfPlan(plan: seq<Assignment>)
    ensures FlatMap(Lines(plan), NeedOfLine()) == FlatMap(ItemsOf(plan), NeedOfItem())
  {
    if plan != [] {
      NeedsOfPlan(plan[1..]);
      assert ItemsOf(plan)[1..] == ItemsOf(plan[1..]);
      assert Lines(plan) == [LineOf(plan[0])] + Lines(plan[1..]);
      FlatMapConcat([LineOf(plan[0])], Lines(plan[1..]), NeedOfLine());
      assert FlatMap([LineOf(plan[0])], NeedOfLine()) == [Need(plan[0].item.sku, plan[0].item.qty)];
    }
  }

  /** Every option's shops carry exactly the fulfillable items with their planned quantities, its
      total is the cost of a plan that supplies them, and no plan that supplies them is cheaper than
      the cheapest option. */
  lemma {:induction false} OptionIsComplete(kind: Kind, items: seq<PlanItem>, quotes: seq<CandidateQuote>, other: seq<Assignment>)
    requires DistinctSkus(items) && forall i :: i in items ==> OffersFor(i, quotes) != []
    requires Supplies(other, items, quotes)
    ensures var o := OptionFor(kind, items, quotes);
            && multiset(FlatMap(AllLines(o.shops), NeedOfLine())) == multiset(FlatMap(items, NeedOfItem()))
            && o.total == Total(PlanFor(kind, items, quotes))
            && ShopsSorted(o.shops)
    ensures OptionFor(Cheapest, items, quotes).total <= Total(other)
  {
    var plan := PlanFor(kind, items, quotes);
    PlansSupply(kind, items, quotes);
    GroupingPreserves(plan);
    FlatMapPermutation(AllLines(ShopsOf(plan)), Lines(plan), NeedOfLine());
    NeedsOfPlan(plan);
    FlatMapPermutation(ItemsOf(plan), items, NeedOfItem());
    GroupingPreserves(PlanFor(Cheapest, items, quotes));
    CheapestIsMinimal(items, quotes, other);
  }

  lemma KeptOptions(cheapest: ShoppingOption, quality: ShoppingOption, pickup: ShoppingOption, keepQuality: bool, keepPickup: bool, k: nat)
    requires k < |Keep(cheapest, quality, pickup, keepQuality, keepPickup)|
    ensures var options := Keep(cheapest, quality, pickup, keepQuality, keepPickup);
            options[0] == cheapest && (options[k] == cheapest || options[k] == quality || options[k] == pickup)
  {
  }

  lemma {:induction false} CheapestAmongKinds(kind: Kind, items: seq<PlanItem>, quotes: seq<CandidateQuote>)
    requires DistinctSkus(items) && forall i :: i in items ==> OffersFor(i, quotes) != []
    ensures OptionFor(Cheapest, items, quotes).total <= OptionFor(kind, items, quotes).total
  {
    PlansSupply(kind, items, quotes);
    OptionIsComplete(kind, items, quotes, PlanFor(kind, items, quotes));
  }

  /** The first option shown is at most as expensive as every option shown. */
  lemma {:induction false} FirstOptionIsCheapest(items: seq<PlanItem>, quotes: seq<CandidateQuote>, k: nat)
    requires DistinctSkus(items) && forall i :: i in items ==> OffersFor(i, quotes) != []
    requires k < |OptionsFor(items, quotes)|
    ensures OptionsFor(items, quotes)[0].total <= OptionsFor(items, quotes)[k].total
  {
    var cheapest, quality, pickup :=
      OptionFor(Cheapest, items, quotes), OptionFor(BestQuality, items, quotes), OptionFor(PickupOptimized, items, quotes);
    CheapestAmongKinds(BestQuality, items, quotes);
    CheapestAmongKinds(PickupOptimized, items, quotes);
    KeptOptions(cheapest, quality, pickup, ShowQuality(cheapest, quality), ShowPickup(cheapest, quality, pickup), k);
  }

  ghost predicate AllDiffer(shown: seq<ShoppingOption>) {
    forall i, j :: 0 <= i < j < |shown| ==> !(SameRoute(shown[j], shown[i]) && shown[j].total == shown[i].total)
  }

  ghost predicate RouteShown(o: ShoppingOption, shown: seq<ShoppingOption>) {
    exists k :: 0 <= k < |shown| && SameRoute(o, shown[k])
  }

  lemma KeptDiffer(cheapest: ShoppingOption, quality: ShoppingOption, pickup: ShoppingOption, shown: seq<ShoppingOption>)
    requires shown == Keep(cheapest, quality, pickup, ShowQuality(cheapest, quality), ShowPickup(cheapest, quality, pickup))
    ensures AllDiffer(shown)
    ensures RouteShown(cheapest, shown) && RouteShown(quality, shown) && RouteShown(pickup, shown)
    ensures quality !in shown ==> quality.total == cheapest.total
  {
    assert SameRoute(cheapest, shown[0]);
    if ShowQuality(cheapest, quality) {
      assert SameRoute(quality, shown[1]);
    } else {
      assert SameRoute(quality, shown[0]);
    }
    var last := shown[|shown| - 1];
    if ShowPickup(cheapest, quality, pickup) {
      assert last == pickup && SameRoute(pickup, last);
    } else if SameRoute(pickup, cheapest) {
      assert SameRoute(pickup, shown[0]);
    }
  }

  /** The user is shown no two options alike in route and total; every option left out has the route of
      one that is shown, and best quality is left out only at the cheapest total. */
  lemma {:induction false} ShownOptionsDiffer(items: seq<PlanItem>, quotes: seq<CandidateQuote>, kind: Kind)
    requires items != [] && forall i :: i in items ==> OffersFor(i, quotes) != []
    ensures AllDiffer(OptionsFor(items, quotes))
    ensures RouteShown(OptionFor(kind, items, quotes), OptionsFor(items, quotes))
    ensures OptionFor(BestQuality, items, quotes) !in OptionsFor(items, quotes) ==>
              OptionFor(BestQuality, items, quotes).total == OptionFor(Cheapest, items, quotes).total
  {
    KeptDiffer(OptionFor(Cheapest, items, quotes), OptionFor(BestQuality, items, quotes), OptionFor(PickupOptimized, items, quotes),
               OptionsFor(items, quotes));
  }

  // ---------------------------------------------------------------- stops of the pickup option

  function StopSlugs(stops: seq<CandidateQuote>): set<Slug> {
    set c | c in stops :: c.merchant.slug
  }

  lemma {:induction false} PlanUsesStops(items: seq<PlanItem>, remaining: set<Sku>, quotes: seq<CandidateQuote>)
    ensures var r := RouteFrom(items, remaining, quotes);
            forall a :: a in r.plan ==> a.candidate in r.stops
    decreases |remaining|
  {
    if BestStop(items, remaining, quotes).Some? {
      var c := BestStop(items, remaining, quotes).value;
      var covers := CoversOf(items, remaining, c);
      RouteRound(items, remaining, quotes, c);
      AssignAllAssigns(covers, c);
      PlanUsesStops(items, remaining - SkusOf(covers), quotes);
    }
  }

  lemma {:induction false} DistinctWithin(slugs: seq<Slug>, all: set<Slug>)
    requires Distinct(slugs) && forall s :: s in slugs ==> s in all
    ensures |slugs| <= |all|
  {
    if slugs != [] {
      var init, last := slugs[..|slugs| - 1], slugs[|slugs| - 1];
      forall s | s in init ensures s in all - {last} {
        assert s in slugs;
      }
      assert last in slugs;
      DistinctWithin(init, all - {last});
    }
  }

  lemma {:induction false} StopSlugsCount(stops: seq<CandidateQuote>)
    ensures |StopSlugs(stops)| <= |stops|
  {
    if stops != [] {
      var init, last := stops[..|stops| - 1], stops[|stops| - 1];
      StopSlugsCount(init);
      assert stops == init + [last];
      assert StopSlugs(stops) == StopSlugs(init) + {last.merchant.slug};
    }
  }

  lemma MerchantsWithinStops(r: Route)
    requires forall a :: a in r.plan ==> a.candidate in r.stops
    ensures |Slugs(r.plan)| <= |r.stops|
  {
    SlugsAreTheMerchants(r.plan);
    forall s | s in Slugs(r.plan) ensures s in StopSlugs(r.stops) {
      SlugHasAssignment(r.plan, s);
    }
    DistinctWithin(Slugs(r.plan), StopSlugs(r.stops));
    StopSlugsCount(r.stops);
  }

  /** The shops of the pickup option are no more than the stops of its route. */
  lemma {:induction false} ShownStops(items: seq<PlanItem>, quotes: seq<CandidateQuote>)
    requires forall i :: i in items ==> OffersFor(i, quotes) != []
    ensures var r := RouteFrom(items, SkusOf(items), quotes);
            OptionFor(PickupOptimized, items, quotes).stops == |Slugs(r.plan)| <= |r.stops|
  {
    var r := RouteFrom(items, SkusOf(items), quotes);
    PlanUsesStops(items, SkusOf(items), quotes);
    MerchantsWithinStops(r);
    GroupingPreserves(r.plan);
  }

  /** The stops of the pickup option are at most H(n) times those of any set of quotes covering
      its n items. */
  lemma {:induction false} PickupStopsWithinHarmonic(items: seq<PlanItem>, quotes: seq<CandidateQuote>, stops: set<CandidateQuote>)
    requires Comparable(items, SkusOf(items), quotes, stops) && forall i :: i in items ==> OffersFor(i, quotes) != []
    ensures Within(OptionFor(PickupOptimized, items, quotes).stops, |stops|, |items|)
  {
    GreedyWithinHarmonic(items, quotes, stops);
    ShownStops(items, quotes);
    WithinFewer(OptionFor(PickupOptimized, items, quotes).stops, |RouteFrom(items, SkusOf(items), quotes).stops|, |stops|, |items|);
  }

  /** No set of quotes that covers the plan has fewer stops than the pickup option shows. */
  ghost predicate PickupIsFewest(items: seq<PlanItem>, quotes: seq<CandidateQuote>) {
    (forall i :: i in items ==> OffersFor(i, quotes) != []) ==>
      forall stops :: Comparable(items, SkusOf(items), quotes, stops) ==> OptionFor(PickupOptimized, items, quotes).stops <= |stops|
  }

  /** The pickup option lives up to "fewest stops" for every market if and only if at most three items
      are to be fulfilled. */
  lemma PickupIsFewestExactly(n: nat)
    ensures (forall items, quotes :: |items| == n ==> PickupIsFewest(items, quotes)) <==> n <= 3
  {
    if n <= 3 {
      forall items: seq<PlanItem>, quotes | |items| == n ensures PickupIsFewest(items, quotes) {
        ThreeItemsPickupIsFewest(items, quotes);
      }
    } else {
      PickupIsNotFewest(n);
      G.PlanItems(n);
    }
  }

  lemma ThreeItemsPickupIsFewest(items: seq<PlanItem>, quotes: seq<CandidateQuote>)
    requires |items| <= 3
    ensures PickupIsFewest(items, quotes)
  {
    if forall i :: i in items ==> OffersFor(i, quotes) != [] {
      ShownStops(items, quotes);
      forall stops | Comparable(items, SkusOf(items), quotes, stops)
        ensures OptionFor(PickupOptimized, items, quotes).stops <= |stops|
      {
        G.ThreeItemsAreFewest(items, quotes, stops);
      }
    }
  }

  lemma {:induction false} PickupIsNotFewest(n: nat)
    requires n >= 4
    ensures !PickupIsFewest(G.Plan(n), G.Quotes(n))
  {
    PickupMissesFewest(n);
    NotFewest(G.Plan(n), G.Quotes(n), {G.Quotes(n)[1], G.Quotes(n)[2]});
  }

  lemma {:induction false} NotFewest(items: seq<PlanItem>, quotes: seq<CandidateQuote>, stops: set<CandidateQuote>)
    requires (forall i :: i in items ==> OffersFor(i, quotes) != []) && Comparable(items, SkusOf(items), quotes, stops)
    requires |stops| < OptionFor(PickupOptimized, items, quotes).stops
    ensures !PickupIsFewest(items, quotes)
  {
  }

  lemma {:induction false} PickupMissesFewest(n: nat)
    requires n >= 4
    ensures var items, quotes := G.Plan(n), G.Quotes(n);
            && |items| == n && Comparable(items, SkusOf(items), quotes, {quotes[1], quotes[2]})
            && (forall i :: i in items ==> OffersFor(i, quotes) != [])
            && OptionFor(PickupOptimized, items, quotes).stops == 3
  {
    var items, quotes := G.Plan(n), G.Quotes(n);
    G.GreedyMissesFewestStops(n);
    var stops := {quotes[1], quotes[2]};
    forall i | i in items ensures OffersFor(i, quotes) != [] {
      var c :| c in stops && CanSupply(c, i);
      SuppliableHasOffers(i, quotes);
    }
    var r := RouteFrom(items, SkusOf(items), quotes);
    ShownStops(items, quotes);
    StopsAreUsed(items, SkusOf(items), quotes);
    forall k | 0 <= k < 3 ensures quotes[k].merchant.slug in Slugs(r.plan) {
      assert quotes[k] in r.stops;
      SlugsAreTheMerchants(r.plan);
    }
    ThreeAtLeast(Slugs(r.plan), quotes[0].merchant.slug, quotes[1].merchant.slug, quotes[2].merchant.slug);
  }

  lemma ThreeAtLeast(slugs: seq<Slug>, a: Slug, b: Slug, c: Slug)
    requires a in slugs && b in slugs && c in slugs && a != b && b != c && a != c
    ensures |slugs| >= 3
  {
    var i, j, k :| 0 <= i < |slugs| && 0 <= j < |slugs| && 0 <= k < |slugs| && slugs[i] == a && slugs[j] == b && slugs[k] == c;
  }

  /** Every stop of the route is there for some item. */
  lemma {:induction false} StopsAreUsed(items: seq<PlanItem>, remaining: set<Sku>, quotes: seq<CandidateQuote>)
    ensures var r := RouteFrom(items, remaining, quotes);
            forall c :: c in r.stops ==> exists a :: a in r.plan && a.candidate == c
    decreases |remaining|
  {
    if BestStop(items, remaining, quotes).Some? {
      var c := BestStop(items, remaining, quotes).value;
      var covers := CoversOf(items, remaining, c);
      RouteRound(items, remaining, quotes, c);
      BestStopIsUseful(items, remaining, quotes);
      AssignAllAssigns(covers, c);
      StopsAreUsed(items, remaining - SkusOf(covers), quotes);
      var r, rest := RouteFrom(items, remaining, quotes), RouteFrom(items, remaining - SkusOf(covers), quotes);
      assert |AssignAll(covers, c)| == |covers|;
      var first := AssignAll(covers, c)[0];
      assert first in AssignAll(covers, c) && first in r.plan;
      forall d | d in r.stops ensures exists a :: a in r.plan && a.candidate == d {
        if d in rest.stops {
          var a :| a in rest.plan && a.candidate == d;
          assert a in r.plan;
        } else {
          assert first.candidate == d;
        }
      }
    }
  }

  lemma WithinFewer(fewer: nat, n: nat, k: nat, r: nat)
    requires fewer <= n && Within(n, k, r)
    ensures Within(fewer, k, r)
  {
  }

  lemma {:induction false} SlugHasAssignment(plan: seq<Assignment>, slug: Slug)
    requires slug in Slugs(plan)
    ensures exists a :: a in plan && a.candidate.merchant.slug == slug
  {
    var init, last := plan[..|plan| - 1], plan[|plan| - 1];
    assert plan == init + [last];
    if slug in Slugs(init) {
      SlugHasAssignment(init, slug);
      var a :| a in init && a.candidate.merchant.slug == slug;
      assert a in plan;
    } else {
      assert last in plan;
    }
  }
}
