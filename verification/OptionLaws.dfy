/** Which merchant supplies each item of the cheapest and the best-quality option, how shops are ordered, and
    where the pickup route goes first, with every tie spelled out. */
module OptionLaws {
  import opened Results
  import opened Sums
  import opened Catalog
  import opened ShoppingOptions
  import opened GreedyRoute
  import B = BuildOptions

  /** A quote whose first line for the article has enough of it, and its price. */
  ghost predicate Offers(c: CandidateQuote, item: PlanItem, price: nat) {
    exists k :: 0 <= k < |c.items| && c.items[k].sku == item.sku && item.qty <= c.items[k].qty && c.items[k].unitPrice == price
                && forall j :: 0 <= j < k ==> c.items[j].sku != item.sku
  }

  lemma {:induction false} FindsFirst(items: seq<QuoteItem>, sku: Sku, k: nat)
    requires k < |items| && items[k].sku == sku && forall j :: 0 <= j < k ==> items[j].sku != sku
    ensures FindQuoteItem(items, sku) == Some(items[k])
  {
    if k > 0 {
      assert items[0].sku != sku;
      FindsFirst(items[1..], sku, k - 1);
    }
  }

  lemma {:induction false} FoundIsFirst(items: seq<QuoteItem>, sku: Sku) returns (k: nat)
    requires FindQuoteItem(items, sku).Some?
    ensures k < |items| && items[k].sku == sku && items[k] == FindQuoteItem(items, sku).value
    ensures forall j :: 0 <= j < k ==> items[j].sku != sku
  {
    if items[0].sku == sku {
      k := 0;
    } else {
      var i := FoundIsFirst(items[1..], sku);
      k := i + 1;
      forall j | 0 <= j < k ensures items[j].sku != sku {
        if j > 0 {
          assert items[1..][j - 1].sku != sku;
        }
      }
    }
  }

  lemma OffersExactly(c: CandidateQuote, item: PlanItem, price: nat)
    ensures Offers(c, item, price) <==> CanSupply(c, item) && PriceAt(c, item) == price
  {
    if Offers(c, item, price) {
      var k :| 0 <= k < |c.items| && c.items[k].sku == item.sku && item.qty <= c.items[k].qty && c.items[k].unitPrice == price
               && forall j :: 0 <= j < k ==> c.items[j].sku != item.sku;
      FindsFirst(c.items, item.sku, k);
    }
    if CanSupply(c, item) && PriceAt(c, item) == price {
      var k := FoundIsFirst(c.items, item.sku);
    }
  }

  ghost predicate Supplied(item: PlanItem, quotes: seq<CandidateQuote>) {
    exists c, price :: c in quotes && Offers(c, item, price)
  }

  lemma {:induction false} SuppliedExactly(item: PlanItem, quotes: seq<CandidateQuote>)
    ensures OffersFor(item, quotes) != [] <==> Supplied(item, quotes)
  {
    OffersAreTheSuppliers(item, quotes);
    var offers := OffersFor(item, quotes);
    if offers != [] {
      assert offers[0] in offers;
      OffersExactly(offers[0].candidate, item, offers[0].unitPrice);
    }
    if Supplied(item, quotes) {
      var c, price :| c in quotes && Offers(c, item, price);
      OffersExactly(c, item, price);
      assert Offer(c, price) in offers;
    }
  }

  /** Each item of a plan is either bought or reported as unavailable, the latter exactly if no quote has enough
      of it on its first line for the article. */
  lemma {:induction false} SplitExactly(items: seq<PlanItem>, quotes: seq<CandidateQuote>)
    ensures |B.Fulfillable(items, quotes)| + |B.Unfulfillable(items, quotes)| == |items|
    ensures forall i :: i in B.Fulfillable(items, quotes) <==> i in items && Supplied(i, quotes)
    ensures forall sku :: sku in B.Unfulfillable(items, quotes) <==> exists i :: i in items && i.sku == sku && !Supplied(i, quotes)
  {
    if items != [] {
      var init, last := items[..|items| - 1], items[|items| - 1];
      SplitExactly(init, quotes);
      SuppliedExactly(last, quotes);
      assert items == init + [last];
      assert forall i :: i in items <==> i in init || i == last;
    }
  }

  // ---------------------------------------------------------------- the chosen offers

  /** The head of a stable sort: nothing comes before it, and what is level with it stands behind it. */
  ghost predicate IsHead(offers: seq<Offer>, before: (Offer, Offer) -> bool, k: nat) {
    && k < |offers| && (forall j :: 0 <= j < |offers| ==> !before(offers[j], offers[k]))
    && forall j :: 0 <= j < k ==> before(offers[k], offers[j])
  }

  /** Both orders rank offers by a key. */
  ghost predicate Ranks(before: (Offer, Offer) -> bool) {
    && (forall a, b, c :: before(a, b) && !before(c, b) ==> before(a, c))
    && (forall a, b :: before(a, b) ==> !before(b, a))
  }

  lemma {:induction false} FirstByIsHead(offers: seq<Offer>, before: (Offer, Offer) -> bool) returns (k: nat)
    requires |offers| > 0 && Ranks(before)
    ensures IsHead(offers, before, k) && offers[k] == FirstBy(offers, before)
  {
    k := 0;
    if |offers| > 1 {
      var i := FirstByIsHead(offers[1..], before);
      var rest := offers[1..];
      if before(rest[i], offers[0]) {
        k := i + 1;
        forall j | 0 <= j < |offers| ensures !before(offers[j], offers[k]) && (j < k ==> before(offers[k], offers[j])) {
          if j > 0 {
            assert offers[j] == rest[j - 1];
          }
        }
      } else {
        forall j | 0 <= j < |offers| ensures !before(offers[j], offers[0]) {
          if j > 0 {
            assert offers[j] == rest[j - 1];
          }
        }
      }
    }
  }

  lemma OrdersRank()
    ensures Ranks(CheaperOffer) && Ranks(FinerOffer)
  {
  }

  /** Every item of the cheapest choice goes to an offer that no supplier undercuts, the nearest at that price,
      and the first in quote order among those. */
  lemma {:induction false} CheapestChoice(items: seq<PlanItem>, quotes: seq<CandidateQuote>, k: nat, c: CandidateQuote, price: nat)
    requires (forall i :: i in items ==> OffersFor(i, quotes) != []) && k < |items| && c in quotes && Offers(c, items[k], price)
    ensures var a := Choose(items, quotes, CheaperOffer)[k];
            && a.item == items[k] && a.candidate in quotes && Offers(a.candidate, items[k], a.unitPrice)
            && a.unitPrice <= price
            && (a.unitPrice == price ==> a.candidate.merchant.distance <= c.merchant.distance)
  {
    ChoiceAt(items, quotes, CheaperOffer, k, c, price);
  }

  /** Every item of the best-quality choice goes to an offer of the highest quality there is, the cheapest at
      that quality. */
  lemma {:induction false} FinestChoice(items: seq<PlanItem>, quotes: seq<CandidateQuote>, k: nat, c: CandidateQuote, price: nat)
    requires (forall i :: i in items ==> OffersFor(i, quotes) != []) && k < |items| && c in quotes && Offers(c, items[k], price)
    ensures var a := Choose(items, quotes, FinerOffer)[k];
            && a.item == items[k] && a.candidate in quotes && Offers(a.candidate, items[k], a.unitPrice)
            && c.merchant.quality <= a.candidate.merchant.quality
            && (c.merchant.quality == a.candidate.merchant.quality ==> a.unitPrice <= price)
  {
    ChoiceAt(items, quotes, FinerOffer, k, c, price);
  }

  lemma {:induction false} ChoiceIsFirst(items: seq<PlanItem>, quotes: seq<CandidateQuote>, before: (Offer, Offer) -> bool, k: nat)
    requires (forall i :: i in items ==> OffersFor(i, quotes) != []) && k < |items|
    ensures OffersFor(items[k], quotes) != []
    ensures var o := FirstBy(OffersFor(items[k], quotes), before);
            Choose(items, quotes, before)[k] == Assignment(items[k], o.candidate, o.unitPrice)
  {
    assert items[k] in items;
    if k > 0 {
      ChoiceIsFirst(items[1..], quotes, before, k - 1);
    }
  }

  lemma {:induction false} ChoiceAt(items: seq<PlanItem>, quotes: seq<CandidateQuote>, before: (Offer, Offer) -> bool, k: nat, c: CandidateQuote, price: nat)
    requires (forall i :: i in items ==> OffersFor(i, quotes) != []) && k < |items| && c in quotes && Offers(c, items[k], price)
    requires before == CheaperOffer || before == FinerOffer
    ensures var a := Choose(items, quotes, before)[k];
            && a.item == items[k] && a.candidate in quotes && Offers(a.candidate, items[k], a.unitPrice)
            && !before(Offer(c, price), Offer(a.candidate, a.unitPrice))
  {
    var offers := OffersFor(items[k], quotes);
    ChoiceIsFirst(items, quotes, before, k);
    OffersAreTheSuppliers(items[k], quotes);
    OffersExactly(c, items[k], price);
    OrdersRank();
    var h := FirstByIsHead(offers, before);
    var o := offers[h];
    assert o in offers;
    OffersExactly(o.candidate, items[k], o.unitPrice);
    assert Offer(c, price) in offers;
    var j :| 0 <= j < |offers| && offers[j] == Offer(c, price);
  }

  /** Ties are broken by the order of the quotes: an offer level with the chosen one is not in front of it. */
  lemma TiesGoToTheFirst(items: seq<PlanItem>, quotes: seq<CandidateQuote>, before: (Offer, Offer) -> bool, k: nat) returns (h: nat)
    requires (forall i :: i in items ==> OffersFor(i, quotes) != []) && k < |items|
    requires before == CheaperOffer || before == FinerOffer
    ensures IsHead(OffersFor(items[k], quotes), before, h)
    ensures var a, o := Choose(items, quotes, before)[k], OffersFor(items[k], quotes)[h]; a == Assignment(items[k], o.candidate, o.unitPrice)
  {
    ChoiceIsFirst(items, quotes, before, k);
    OrdersRank();
    h := FirstByIsHead(OffersFor(items[k], quotes), before);
  }

  // ---------------------------------------------------------------- shops

  /** A shop is essential if and only if one of its items is; essential shops come first, and within each kind
      the nearer ones. */
  lemma ShopOrder(plan: seq<Assignment>, i: nat, j: nat)
    requires i < j < |ShopsOf(plan)|
    ensures ShopsOf(plan)[j].essential ==> ShopsOf(plan)[i].essential
    ensures ShopsOf(plan)[i].essential == ShopsOf(plan)[j].essential ==> ShopsOf(plan)[i].distance <= ShopsOf(plan)[j].distance
  {
    GroupingPreserves(plan);
    assert !ShopBefore(ShopsOf(plan)[j], ShopsOf(plan)[i]);
  }

  lemma ShopOfGroup(group: seq<Assignment>)
    requires group != []
    ensures var s, m := ShopFor(group), group[0].candidate.merchant;
            && s.merchantId == m.id && s.slug == m.slug && s.distance == m.distance && s.quoteId == group[0].candidate.quoteId
            && (s.essential <==> exists a :: a in group && a.item.essential)
            && |s.items| == |group|
            && forall k :: 0 <= k < |group| ==> s.items[k] == QuoteItem(group[k].item.sku, group[k].item.qty, group[k].unitPrice)
  {
    LinesAt(group);
    if a :| a in group && a.item.essential {
      var k :| 0 <= k < |group| && group[k] == a;
      assert group[k].item.essential;
    }
  }

  lemma {:induction false} LinesAt(group: seq<Assignment>)
    ensures |Lines(group)| == |group|
    ensures forall k :: 0 <= k < |group| ==> Lines(group)[k] == QuoteItem(group[k].item.sku, group[k].item.qty, group[k].unitPrice)
  {
    if group != [] {
      LinesAt(group[1..]);
      assert Lines(group) == [LineOf(group[0])] + Lines(group[1..]);
    }
  }

  // ---------------------------------------------------------------- the next stop of the route

  /** How many open items a stop covers. */
  function Covered(items: seq<PlanItem>, remaining: set<Sku>, c: CandidateQuote): nat {
    |CoversOf(items, remaining, c)|
  }

  /** It covers as many open items as any and is the nearest of those, in front of every other such. */
  ghost predicate IsNextStop(items: seq<PlanItem>, remaining: set<Sku>, quotes: seq<CandidateQuote>, k: nat) {
    && k < |quotes|
    && forall j :: 0 <= j < |quotes| ==>
         var n, m := Covered(items, remaining, quotes[j]), Covered(items, remaining, quotes[k]);
         var d, e := quotes[j].merchant.distance, quotes[k].merchant.distance;
         n < m || (n == m && (if j < k then e < d else e <= d))
  }

  lemma {:induction false} NextStop(items: seq<PlanItem>, remaining: set<Sku>, quotes: seq<CandidateQuote>) returns (k: nat)
    requires BestStop(items, remaining, quotes).Some?
    ensures IsNextStop(items, remaining, quotes, k) && quotes[k] == BestStop(items, remaining, quotes).value
  {
    var init, last := quotes[..|quotes| - 1], quotes[|quotes| - 1];
    assert quotes == init + [last];
    BestStopIsUseful(items, remaining, quotes);
    BestStopIsUseful(items, remaining, init);
    k := |init|;
    if BestStop(items, remaining, init).Some? {
      var i := NextStop(items, remaining, init);
      if CoversOf(items, remaining, last) == [] || !BetterStop(items, remaining, last, init[i]) {
        k := i;
      }
    } else {
      assert forall j :: 0 <= j < |init| ==> init[j] in init && CoversOf(items, remaining, init[j]) == [];
    }
  }
}
