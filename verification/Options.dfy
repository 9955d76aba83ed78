/** The options builder: who can supply what, the cheapest and best-quality choices, grouping by shop. */
module ShoppingOptions {
  import opened Results
  import opened Sums
  import opened Catalog

  datatype PlanItem = PlanItem(sku: Sku, qty: Qty, essential: bool)

  datatype Merchant = Merchant(id: nat, slug: Slug, quality: real, distance: nat)

  datatype CandidateQuote = CandidateQuote(merchant: Merchant, quoteId: QuoteId, items: seq<QuoteItem>)

  datatype Offer = Offer(candidate: CandidateQuote, unitPrice: nat)

  datatype Assignment = Assignment(item: PlanItem, candidate: CandidateQuote, unitPrice: nat)

  datatype Shop = Shop(merchantId: nat, slug: Slug, quoteId: QuoteId, items: seq<QuoteItem>, subtotal: int, distance: nat, essential: bool)

  // ---------------------------------------------------------------- candidates

  /** The first line of a quote for `sku`. */
  function FindQuoteItem(items: seq<QuoteItem>, sku: Sku): Option<QuoteItem> {
    if items == [] then None
    else if items[0].sku == sku then Some(items[0])
    else FindQuoteItem(items[1..], sku)
  }

  predicate CanSupply(c: CandidateQuote, item: PlanItem) {
    var line := FindQuoteItem(c.items, item.sku);
    line.Some? && line.value.qty >= item.qty
  }

  function PriceAt(c: CandidateQuote, item: PlanItem): nat
    requires CanSupply(c, item)
  {
    FindQuoteItem(c.items, item.sku).value.unitPrice
  }

  /** The offers for an item, in the order of the quotes. */
  function OffersFor(item: PlanItem, quotes: seq<CandidateQuote>): seq<Offer> {
    if quotes == [] then []
    else
      var c := quotes[|quotes| - 1];
      OffersFor(item, quotes[..|quotes| - 1]) + if CanSupply(c, item) then [Offer(c, PriceAt(c, item))] else []
  }

  lemma {:induction false} OffersAreTheSuppliers(item: PlanItem, quotes: seq<CandidateQuote>)
    ensures forall o :: o in OffersFor(item, quotes) <==>
              o.candidate in quotes && CanSupply(o.candidate, item) && o.unitPrice == PriceAt(o.candidate, item)
  {
    if quotes != [] {
      var init, c := quotes[..|quotes| - 1], quotes[|quotes| - 1];
      OffersAreTheSuppliers(item, init);
      assert quotes == init + [c];
    }
  }

  method CandidatesFor(item: PlanItem, quotes: seq<CandidateQuote>) returns (out: seq<Offer>)
    ensures out == OffersFor(item, quotes)
  {
    out := [];
    for k := 0 to |quotes|
      invariant out == OffersFor(item, quotes[..k])
    {
      assert quotes[..k + 1][..k] == quotes[..k];
      var line := FindQuoteItem(quotes[k].items, item.sku);
      if line.Some? && line.value.qty >= item.qty {
        out := out + [Offer(quotes[k], line.value.unitPrice)];
      }
    }
    assert quotes[..|quotes|] == quotes;
  }

  ghost predicate Suppliable(item: PlanItem, quotes: seq<CandidateQuote>) {
    exists c :: c in quotes && CanSupply(c, item)
  }

  // ---------------------------------------------------------------- choosing an offer

  /** Cheaper first; at equal price the nearer merchant. */
  predicate CheaperOffer(a: Offer, b: Offer) {
    a.unitPrice < b.unitPrice || (a.unitPrice == b.unitPrice && a.candidate.merchant.distance < b.candidate.merchant.distance)
  }

  /** Higher quality first; at equal quality the cheaper offer. */
  predicate FinerOffer(a: Offer, b: Offer) {
    a.candidate.merchant.quality > b.candidate.merchant.quality
    || (a.candidate.merchant.quality == b.candidate.merchant.quality && a.unitPrice < b.unitPrice)
  }

  /** The head of a stable sort by `before`: the leftmost offer that none comes before. */
  function FirstBy(offers: seq<Offer>, before: (Offer, Offer) -> bool): (r: Offer)
    requires |offers| > 0
    ensures r in offers
  {
    if |offers| == 1 then offers[0]
    else
      var rest := FirstBy(offers[1..], before);
      if before(rest, offers[0]) then rest else offers[0]
  }

  lemma {:induction false} CheapestOfferIsCheapest(offers: seq<Offer>)
    requires |offers| > 0
    ensures forall o :: o in offers ==> !CheaperOffer(o, FirstBy(offers, CheaperOffer))
  {
    if |offers| > 1 {
      CheapestOfferIsCheapest(offers[1..]);
      assert offers == [offers[0]] + offers[1..];
    }
  }

  lemma {:induction false} FinestOfferIsFinest(offers: seq<Offer>)
    requires |offers| > 0
    ensures forall o :: o in offers ==> !FinerOffer(o, FirstBy(offers, FinerOffer))
  {
    if |offers| > 1 {
      FinestOfferIsFinest(offers[1..]);
      assert offers == [offers[0]] + offers[1..];
    }
  }

  ghost predicate AllSuppliable(items: seq<PlanItem>, quotes: seq<CandidateQuote>) {
    forall i :: i in items ==> Suppliable(i, quotes)
  }

  lemma {:induction false} SuppliableHasOffers(item: PlanItem, quotes: seq<CandidateQuote>)
    ensures Suppliable(item, quotes) <==> OffersFor(item, quotes) != []
  {
    OffersAreTheSuppliers(item, quotes);
    if Suppliable(item, quotes) {
      var c :| c in quotes && CanSupply(c, item);
      assert Offer(c, PriceAt(c, item)) in OffersFor(item, quotes);
    }
    if OffersFor(item, quotes) != [] {
      var o := OffersFor(item, quotes)[0];
      assert o in OffersFor(item, quotes);
    }
  }

  /** One offer for every item that has any, chosen by `before`. */
  function Choose(items: seq<PlanItem>, quotes: seq<CandidateQuote>, before: (Offer, Offer) -> bool): (r: seq<Assignment>)
    requires forall i :: i in items ==> OffersFor(i, quotes) != []
    ensures |r| == |items|
    ensures forall k :: 0 <= k < |r| ==> r[k].item == items[k] && ValidAssignment(r[k], quotes)
  {
    if items == [] then []
    else
      var o := FirstBy(OffersFor(items[0], quotes), before);
      OffersAreTheSuppliers(items[0], quotes);
      [Assignment(items[0], o.candidate, o.unitPrice)] + Choose(items[1..], quotes, before)
  }

  // ---------------------------------------------------------------- cost

  predicate ValidAssignment(a: Assignment, quotes: seq<CandidateQuote>) {
    a.candidate in quotes && CanSupply(a.candidate, a.item) && a.unitPrice == PriceAt(a.candidate, a.item)
  }

  /** `plan` supplies exactly `items`, each from a quote that covers it at that quote's price. */
  ghost predicate Supplies(plan: seq<Assignment>, items: seq<PlanItem>, quotes: seq<CandidateQuote>) {
    && multiset(ItemsOf(plan)) == multiset(items)
    && forall a :: a in plan ==> ValidAssignment(a, quotes)
  }

  function ItemsOf(plan: seq<Assignment>): (r: seq<PlanItem>)
    ensures |r| == |plan| && forall k :: 0 <= k < |r| ==> r[k] == plan[k].item
  {
    if plan == [] then [] else [plan[0].item] + ItemsOf(plan[1..])
  }

  function Cost(): Assignment -> int {
    (a: Assignment) => a.unitPrice * a.item.qty
  }

  function Total(plan: seq<Assignment>): int {
    SumBy(plan, Cost())
  }

  /** The least an item can cost. */
  ghost function LeastCost(quotes: seq<CandidateQuote>): PlanItem -> int {
    (i: PlanItem) =>
      if OffersFor(i, quotes) == [] then 0 else FirstBy(OffersFor(i, quotes), CheaperOffer).unitPrice * i.qty
  }

  lemma {:induction false} CostAtLeast(a: Assignment, quotes: seq<CandidateQuote>)
    requires ValidAssignment(a, quotes)
    ensures OffersFor(a.item, quotes) != []
    ensures LeastCost(quotes)(a.item) <= Cost()(a)
  {
    OffersAreTheSuppliers(a.item, quotes);
    var offers := OffersFor(a.item, quotes);
    assert Offer(a.candidate, a.unitPrice) in offers;
    CheapestOfferIsCheapest(offers);
    MulMonotone(FirstBy(offers, CheaperOffer).unitPrice, a.unitPrice, a.item.qty);
  }

  lemma MulMonotone(x: int, y: int, k: nat)
    requires x <= y
    ensures x * k <= y * k
  {
  }

  lemma {:induction false} TotalAtLeast(plan: seq<Assignment>, quotes: seq<CandidateQuote>)
    requires forall a :: a in plan ==> ValidAssignment(a, quotes)
    ensures SumBy(ItemsOf(plan), LeastCost(quotes)) <= Total(plan)
  {
    if plan != [] {
      TotalAtLeast(plan[1..], quotes);
      CostAtLeast(plan[0], quotes);
      assert ItemsOf(plan)[1..] == ItemsOf(plan[1..]);
    }
  }

  lemma {:induction false} CheapestTotal(items: seq<PlanItem>, quotes: seq<CandidateQuote>)
    requires forall i :: i in items ==> OffersFor(i, quotes) != []
    ensures Total(Choose(items, quotes, CheaperOffer)) == SumBy(items, LeastCost(quotes))
  {
    if items != [] {
      CheapestTotal(items[1..], quotes);
      var plan := Choose(items, quotes, CheaperOffer);
      assert plan[1..] == Choose(items[1..], quotes, CheaperOffer);
    }
  }

  /** No plan that supplies the same items from these quotes costs less than the cheapest choice. */
  lemma {:induction false} CheapestIsMinimal(items: seq<PlanItem>, quotes: seq<CandidateQuote>, other: seq<Assignment>)
    requires forall i :: i in items ==> OffersFor(i, quotes) != []
    requires Supplies(other, items, quotes)
    ensures Total(Choose(items, quotes, CheaperOffer)) <= Total(other)
  {
    CheapestTotal(items, quotes);
    TotalAtLeast(other, quotes);
    SumByPermutation(ItemsOf(other), items, LeastCost(quotes));
  }

  // ---------------------------------------------------------------- grouping by shop

  function Group(plan: seq<Assignment>, slug: Slug): seq<Assignment> {
    if plan == [] then []
    else
      var a := plan[|plan| - 1];
      Group(plan[..|plan| - 1], slug) + if a.candidate.merchant.slug == slug then [a] else []
  }

  /** The slugs of a plan, each once, in order of first appearance: the key order of the Map. */
  function Slugs(plan: seq<Assignment>): seq<Slug> {
    if plan == [] then []
    else
      var slug := plan[|plan| - 1].candidate.merchant.slug;
      var before := Slugs(plan[..|plan| - 1]);
      if slug in before then before else before + [slug]
  }

  ghost predicate Distinct(slugs: seq<Slug>) {
    forall i, j :: 0 <= i < j < |slugs| ==> slugs[i] != slugs[j]
  }

  lemma {:induction false} SlugsAreTheMerchants(plan: seq<Assignment>)
    ensures Distinct(Slugs(plan))
    ensures forall a :: a in plan ==> a.candidate.merchant.slug in Slugs(plan)
    ensures forall slug :: slug in Slugs(plan) <==> Group(plan, slug) != []
  {
    if plan != [] {
      var init, a := plan[..|plan| - 1], plan[|plan| - 1];
      SlugsAreTheMerchants(init);
      assert plan == init + [a];
    }
  }

  function LineOf(a: Assignment): QuoteItem {
    QuoteItem(a.item.sku, a.item.qty, a.unitPrice)
  }

  function AsLine(): Assignment -> seq<QuoteItem> {
    (a: Assignment) => [LineOf(a)]
  }

  function Lines(group: seq<Assignment>): seq<QuoteItem> {
    FlatMap(group, AsLine())
  }

  predicate AnyEssential(group: seq<Assignment>) {
    exists k :: 0 <= k < |group| && group[k].item.essential
  }

  function ShopFor(group: seq<Assignment>): Shop
    requires group != []
  {
    var m := group[0].candidate.merchant;
    Shop(m.id, m.slug, group[0].candidate.quoteId, Lines(group), BasketTotal(Lines(group)), m.distance, AnyEssential(group))
  }

  /** Essential shops first, then the nearer ones. */
  predicate ShopBefore(a: Shop, b: Shop) {
    (a.essential && !b.essential) || (a.essential == b.essential && a.distance < b.distance)
  }

  function InsertShop(x: Shop, sorted: seq<Shop>): (r: seq<Shop>)
    ensures multiset(r) == multiset(sorted) + multiset{x}
  {
    if sorted == [] || !ShopBefore(sorted[0], x) then [x] + sorted
    else
      assert sorted == [sorted[0]] + sorted[1..];
      [sorted[0]] + InsertShop(x, sorted[1..])
  }

  /** A stable sort. */
  function SortShops(shops: seq<Shop>): (r: seq<Shop>)
    ensures multiset(r) == multiset(shops)
  {
    if shops == [] then []
    else
      assert shops == [shops[0]] + shops[1..];
      InsertShop(shops[0], SortShops(shops[1..]))
  }

  ghost predicate ShopsSorted(shops: seq<Shop>) {
    forall i, j :: 0 <= i < j < |shops| ==> !ShopBefore(shops[j], shops[i])
  }

  lemma {:induction false} InsertKeepsSorted(x: Shop, sorted: seq<Shop>)
    requires ShopsSorted(sorted)
    ensures ShopsSorted(InsertShop(x, sorted))
  {
    if sorted != [] && ShopBefore(sorted[0], x) {
      var rest := InsertShop(x, sorted[1..]);
      InsertKeepsSorted(x, sorted[1..]);
      forall j | 0 <= j < |rest| ensures !ShopBefore(rest[j], sorted[0]) {
        assert rest[j] in multiset(rest);
        assert rest[j] == x || rest[j] in sorted[1..];
      }
    }
  }

  lemma {:induction false} SortShopsSorts(shops: seq<Shop>)
    ensures ShopsSorted(SortShops(shops))
  {
    if shops != [] {
      SortShopsSorts(shops[1..]);
      InsertKeepsSorted(shops[0], SortShops(shops[1..]));
    }
  }

  /** One shop for each of `slugs`, holding its group of the plan. */
  function ShopsInOrder(plan: seq<Assignment>, slugs: seq<Slug>): (r: seq<Shop>)
    requires forall slug :: slug in slugs ==> Group(plan, slug) != []
    ensures |r| == |slugs|
  {
    if slugs == [] then []
    else
      var init := slugs[..|slugs| - 1];
      ShopsInOrder(plan, init) + [ShopFor(Group(plan, slugs[|slugs| - 1]))]
  }

  lemma {:induction false} ShopsInOrderSnoc(plan: seq<Assignment>, slugs: seq<Slug>, j: nat)
    requires j < |slugs| && forall slug :: slug in slugs ==> Group(plan, slug) != []
    ensures ShopsInOrder(plan, slugs[..j + 1]) == ShopsInOrder(plan, slugs[..j]) + [ShopFor(Group(plan, slugs[j]))]
  {
    assert slugs[..j + 1][..j] == slugs[..j];
  }

  function ShopsOf(plan: seq<Assignment>): seq<Shop> {
    SlugsAreTheMerchants(plan);
    SortShops(ShopsInOrder(plan, Slugs(plan)))
  }

  /** The map that buildShops fills. */
  function GroupMap(plan: seq<Assignment>): map<Slug, seq<Assignment>> {
    map k | k in Slugs(plan) :: Group(plan, k)
  }

  lemma GroupMapSnoc(plan: seq<Assignment>, a: Assignment)
    ensures var key := a.candidate.merchant.slug; var m := GroupMap(plan);
            && GroupMap(plan + [a]) == m[key := (if key in m then m[key] else []) + [a]]
            && Slugs(plan + [a]) == if key in m then Slugs(plan) else Slugs(plan) + [key]
  {
    var key := a.candidate.merchant.slug;
    SlugsAreTheMerchants(plan);
    var m, after := GroupMap(plan), GroupMap(plan + [a]);
    var updated := m[key := (if key in m then m[key] else []) + [a]];
    assert after.Keys == updated.Keys;
    forall k | k in after ensures after[k] == updated[k] {
    }
  }

  /** The first pass of buildShops: the assignments of each merchant, keyed by slug. */
  method GroupByMerchant(plan: seq<Assignment>) returns (keys: seq<Slug>, byMerchant: map<Slug, seq<Assignment>>)
    ensures keys == Slugs(plan) && byMerchant == GroupMap(plan)
  {
    byMerchant, keys := map[], [];
    for i := 0 to |plan|
      invariant keys == Slugs(plan[..i])
      invariant byMerchant == GroupMap(plan[..i])
    {
      var key := plan[i].candidate.merchant.slug;
      GroupMapSnoc(plan[..i], plan[i]);
      assert plan[..i + 1] == plan[..i] + [plan[i]];
      if key !in byMerchant {
        keys := keys + [key];
      }
      byMerchant := byMerchant[key := (if key in byMerchant then byMerchant[key] else []) + [plan[i]]];
    }
    assert plan[..|plan|] == plan;
  }

  /** buildShops: one shop per key of the map, in insertion order, then sorted. */
  method BuildShops(plan: seq<Assignment>) returns (shops: seq<Shop>)
    ensures shops == ShopsOf(plan)
  {
    var keys, byMerchant := GroupByMerchant(plan);
    SlugsAreTheMerchants(plan);
    shops := [];
    for j := 0 to |keys|
      invariant shops == ShopsInOrder(plan, keys[..j])
    {
      ShopsInOrderSnoc(plan, keys, j);
      shops := shops + [ShopFor(byMerchant[keys[j]])];
    }
    assert keys[..|keys|] == keys;
    shops := SortShops(shops);
  }

  // ---------------------------------------------------------------- grouping loses nothing

  function Without(plan: seq<Assignment>, slug: Slug): seq<Assignment> {
    if plan == [] then []
    else
      var a := plan[|plan| - 1];
      Without(plan[..|plan| - 1], slug) + if a.candidate.merchant.slug != slug then [a] else []
  }

  lemma {:induction false} GroupAndRest(plan: seq<Assignment>, slug: Slug)
    ensures multiset(plan) == multiset(Group(plan, slug)) + multiset(Without(plan, slug))
    ensures forall a :: a in Without(plan, slug) ==> a in plan && a.candidate.merchant.slug != slug
  {
    if plan != [] {
      var init, a := plan[..|plan| - 1], plan[|plan| - 1];
      GroupAndRest(init, slug);
      assert plan == init + [a];
    }
  }

  lemma {:induction false} GroupOfRest(plan: seq<Assignment>, slug: Slug, other: Slug)
    requires other != slug
    ensures Group(Without(plan, slug), other) == Group(plan, other)
  {
    if plan != [] {
      var init, a := plan[..|plan| - 1], plan[|plan| - 1];
      assert plan == init + [a];
      GroupOfRest(init, slug, other);
      if a.candidate.merchant.slug != slug {
      } else {
        assert Without(plan, slug) == Without(init, slug);
      }
    }
  }

  function Groups(plan: seq<Assignment>, slugs: seq<Slug>): seq<Assignment> {
    if slugs == [] then [] else Groups(plan, slugs[..|slugs| - 1]) + Group(plan, slugs[|slugs| - 1])
  }

  lemma {:induction false} GroupsAgree(plan: seq<Assignment>, slug: Slug, slugs: seq<Slug>)
    requires slug !in slugs
    ensures Groups(Without(plan, slug), slugs) == Groups(plan, slugs)
  {
    if slugs != [] {
      GroupsAgree(plan, slug, slugs[..|slugs| - 1]);
      GroupOfRest(plan, slug, slugs[|slugs| - 1]);
    }
  }

  /** Concatenating the groups gives back the plan, up to order. */
  lemma {:induction false} GroupsPartition(plan: seq<Assignment>, slugs: seq<Slug>)
    requires Distinct(slugs) && forall a :: a in plan ==> a.candidate.merchant.slug in slugs
    ensures multiset(Groups(plan, slugs)) == multiset(plan)
    decreases |slugs|
  {
    if plan != [] {
      assert plan[0] in plan;
    }
    if slugs != [] {
      var init, last := slugs[..|slugs| - 1], slugs[|slugs| - 1];
      var rest := Without(plan, last);
      GroupAndRest(plan, last);
      forall a | a in rest ensures a.candidate.merchant.slug in init {
        assert a.candidate.merchant.slug in slugs;
      }
      GroupsPartition(rest, init);
      GroupsAgree(plan, last, init);
    }
  }

  function ItemsIn(): Shop -> seq<QuoteItem> {
    (s: Shop) => s.items
  }

  /** Every item line of a list of shops. */
  function AllLines(shops: seq<Shop>): seq<QuoteItem> {
    FlatMap(shops, ItemsIn())
  }

  function Subtotal(): Shop -> int {
    (s: Shop) => s.subtotal
  }

  lemma {:induction false} GroupSubtotal(group: seq<Assignment>)
    ensures BasketTotal(Lines(group)) == Total(group)
  {
    if group != [] {
      GroupSubtotal(group[1..]);
      assert Lines(group)[1..] == Lines(group[1..]);
    }
  }

  lemma {:induction false} SubtotalsOfGroups(plan: seq<Assignment>, slugs: seq<Slug>)
    requires forall slug :: slug in slugs ==> Group(plan, slug) != []
    ensures SumBy(ShopsInOrder(plan, slugs), Subtotal()) == Total(Groups(plan, slugs))
    ensures multiset(AllLines(ShopsInOrder(plan, slugs))) == multiset(Lines(Groups(plan, slugs)))
  {
    if slugs != [] {
      var init, last := slugs[..|slugs| - 1], slugs[|slugs| - 1];
      SubtotalsOfGroups(plan, init);
      GroupSubtotal(Group(plan, last));
      var shop := ShopFor(Group(plan, last));
      SumByAppend(ShopsInOrder(plan, init), shop, Subtotal());
      SumByConcat(Groups(plan, init), Group(plan, last), Cost());
      FlatMapConcat(Groups(plan, init), Group(plan, last), AsLine());
      FlatMapAppend(ShopsInOrder(plan, init), shop, ItemsIn());
    }
  }

  /** Grouping by shop keeps the total and the multiset of item lines, sorts the shops, and makes
      exactly one shop for each merchant of the plan. */
  lemma {:induction false} GroupingPreserves(plan: seq<Assignment>)
    ensures SumBy(ShopsOf(plan), Subtotal()) == Total(plan)
    ensures multiset(AllLines(ShopsOf(plan))) == multiset(Lines(plan))
    ensures ShopsSorted(ShopsOf(plan))
    ensures |ShopsOf(plan)| == |Slugs(plan)|
  {
    var slugs := Slugs(plan);
    SlugsAreTheMerchants(plan);
    var unsorted := ShopsInOrder(plan, slugs);
    SubtotalsOfGroups(plan, slugs);
    GroupsPartition(plan, slugs);
    SumByPermutation(Groups(plan, slugs), plan, Cost());
    FlatMapPermutation(Groups(plan, slugs), plan, AsLine());
    SumByPermutation(ShopsOf(plan), unsorted, Subtotal());
    FlatMapPermutation(ShopsOf(plan), unsorted, ItemsIn());
    SortShopsSorts(unsorted);
    assert |multiset(ShopsOf(plan))| == |multiset(unsorted)|;
  }
}
