/** When the route labelled "fewest stops" has the fewest. */
module GreedyGap {
  import opened Results
  import opened Catalog
  import opened ShoppingOptions
  import opened GreedyRoute

  /** No set of quotes that covers the plan has fewer stops than the greedy route. */
  ghost predicate FewestStops(items: seq<PlanItem>, quotes: seq<CandidateQuote>) {
    forall stops :: Comparable(items, SkusOf(items), quotes, stops) ==> |RouteFrom(items, SkusOf(items), quotes).stops| <= |stops|
  }

  // ---------------------------------------------------------------- up to three items

  lemma {:induction false} StopsAtMostOpen(items: seq<PlanItem>, remaining: set<Sku>, quotes: seq<CandidateQuote>)
    ensures |RouteFrom(items, remaining, quotes).stops| <= |remaining|
    decreases |remaining|
  {
    if BestStop(items, remaining, quotes).Some? {
      var c := BestStop(items, remaining, quotes).value;
      RouteRound(items, remaining, quotes, c);
      StopsAtMostOpen(items, remaining - SkusOf(CoversOf(items, remaining, c)), quotes);
    }
  }

  lemma {:induction false} ThreeItemsAreFewest(items: seq<PlanItem>, quotes: seq<CandidateQuote>, stops: set<CandidateQuote>)
    requires |items| <= 3 && Comparable(items, SkusOf(items), quotes, stops)
    ensures |RouteFrom(items, SkusOf(items), quotes).stops| <= |stops|
  {
    var all := SkusOf(items);
    DistinctSkusCount(items);
    StopsAtMostOpen(items, all, quotes);
    if BestStop(items, all, quotes).Some? {
      var c := BestStop(items, all, quotes).value;
      RoundCoversShare(items, all, quotes, stops, c);
      RouteRound(items, all, quotes, c);
      StopsAtMostOpen(items, all - SkusOf(CoversOf(items, all, c)), quotes);
      ShareOfThree(|items|, |CoversOf(items, all, c)|, |stops|);
    }
  }

  lemma ShareOfThree(n: nat, m: nat, k: nat)
    requires 1 <= m <= n <= 3 && n <= k * m
    ensures 1 + n - m <= k || n <= k
  {
    if k == 1 {
      assert k * m == m;
    }
  }

  // ---------------------------------------------------------------- from four items on

  function Item(sku: Sku): PlanItem {
    PlanItem(sku, 1, false)
  }

  function Plan(n: nat): seq<PlanItem> {
    if n == 0 then [] else Plan(n - 1) + [Item(n - 1)]
  }

  /** A merchant that sells these articles, all at the same price. */
  function Seller(slug: Slug, skus: seq<Sku>): CandidateQuote {
    CandidateQuote(Merchant(slug, slug, 0.0, slug), slug, Lines(skus))
  }

  function Lines(skus: seq<Sku>): seq<QuoteItem> {
    if skus == [] then [] else [QuoteItem(skus[0], 1, 1)] + Lines(skus[1..])
  }

  function Range(lo: nat, hi: nat): (r: seq<Sku>)
    ensures forall s :: s in r <==> lo <= s < hi
    decreases hi - lo
  {
    if lo >= hi then [] else [lo] + Range(lo + 1, hi)
  }

  /** The nearest merchant sells all articles but the last two; the second the first and the last but one;
      the third all that the second does not. */
  function Quotes(n: nat): seq<CandidateQuote>
    requires n >= 4
  {
    [Seller(1, Range(0, n - 2)), Seller(2, [0, n - 2]), Seller(3, Range(1, n - 2) + [n - 1])]
  }

  lemma {:induction false} SellsExactly(skus: seq<Sku>, sku: Sku)
    ensures FindQuoteItem(Lines(skus), sku) == if sku in skus then Some(QuoteItem(sku, 1, 1)) else None
  {
    if skus != [] {
      SellsExactly(skus[1..], sku);
      assert Lines(skus)[1..] == Lines(skus[1..]);
    }
  }

  lemma {:induction false} PlanItems(n: nat)
    ensures |Plan(n)| == n && DistinctSkus(Plan(n))
    ensures forall i :: i in Plan(n) <==> i.sku < n && i == Item(i.sku)
  {
    if n > 0 {
      PlanItems(n - 1);
    }
  }

  lemma {:induction false} SkusOfPlan(n: nat)
    ensures forall s: Sku :: s in SkusOf(Plan(n)) <==> s < n
    ensures |SkusOf(Plan(n))| == n
  {
    PlanItems(n);
    DistinctSkusCount(Plan(n));
    forall s: Sku | s < n ensures s in SkusOf(Plan(n)) {
      assert Item(s) in Plan(n);
    }
  }

  /** What a merchant covers of the open articles. */
  lemma {:induction false} Covered(n: nat, remaining: set<Sku>, slug: Slug, skus: seq<Sku>)
    ensures forall s :: s in SkusOf(CoversOf(Plan(n), remaining, Seller(slug, skus))) <==> s < n && s in remaining && s in skus
    ensures |CoversOf(Plan(n), remaining, Seller(slug, skus))| == |SkusOf(CoversOf(Plan(n), remaining, Seller(slug, skus)))|
  {
    var c := Seller(slug, skus);
    var covers := CoversOf(Plan(n), remaining, c);
    PlanItems(n);
    CoversOfIsFilter(Plan(n), remaining, c);
    DistinctSkusCount(covers);
    forall s | s < n && s in remaining && s in skus ensures s in SkusOf(covers) {
      SellsExactly(skus, s);
      assert Item(s) in covers;
    }
    forall s | s in SkusOf(covers) ensures s < n && s in remaining && s in skus {
      SellsExactly(skus, s);
    }
  }

  function Better(items: seq<PlanItem>, remaining: set<Sku>, best: Option<CandidateQuote>, c: CandidateQuote): Option<CandidateQuote> {
    if CoversOf(items, remaining, c) != [] && (best.None? || BetterStop(items, remaining, c, best.value)) then Some(c) else best
  }

  lemma {:induction false} BestOfThree(items: seq<PlanItem>, remaining: set<Sku>, p: CandidateQuote, q: CandidateQuote, r: CandidateQuote)
    ensures BestStop(items, remaining, [p, q, r]) ==
            Better(items, remaining, Better(items, remaining, Better(items, remaining, None, p), q), r)
  {
    var all := [p, q, r];
    assert all[..2] == [p, q] && all[..2][..1] == [p] && all[..2][..1][..0] == [];
    assert BestStop(items, remaining, []) == None;
    assert BestStop(items, remaining, [p]) == Better(items, remaining, None, p);
  }

  lemma {:induction false} Round(n: nat, remaining: set<Sku>, next: set<Sku>, k: nat)
    requires n >= 4 && k < 3 && BestStop(Plan(n), remaining, Quotes(n)) == Some(Quotes(n)[k])
    requires next == remaining - SkusOf(CoversOf(Plan(n), remaining, Quotes(n)[k]))
    ensures RouteFrom(Plan(n), remaining, Quotes(n)).stops == [Quotes(n)[k]] + RouteFrom(Plan(n), next, Quotes(n)).stops
  {
    RouteRound(Plan(n), remaining, Quotes(n), Quotes(n)[k]);
  }

  lemma SizeWithout(all: set<Sku>, a: Sku, b: Sku, rest: set<Sku>)
    requires a in all && b in all && a != b && rest <= all - {a, b}
    ensures |rest| <= |all| - 2
    ensures rest == all - {a, b} ==> |rest| == |all| - 2
  {
    assert all == (all - {a, b}) + {a, b};
    SubsetSize(rest, all - {a, b});
  }

  /** What each merchant covers, as sets of articles. */
  ghost predicate EachCovers(n: nat, open: set<Sku>)
    requires n >= 4
  {
    && SkusOf(CoversOf(Plan(n), open, Quotes(n)[0])) == open - {n - 2, n - 1}
    && SkusOf(CoversOf(Plan(n), open, Quotes(n)[1])) == open * {0, n - 2}
    && SkusOf(CoversOf(Plan(n), open, Quotes(n)[2])) == open - {0, n - 2}
    && |CoversOf(Plan(n), open, Quotes(n)[0])| == |open - {n - 2, n - 1}|
    && |CoversOf(Plan(n), open, Quotes(n)[1])| == |open * {0, n - 2}|
    && |CoversOf(Plan(n), open, Quotes(n)[2])| == |open - {0, n - 2}|
  }

  lemma {:induction false} CoveredIs(n: nat, open: set<Sku>, slug: Slug, skus: seq<Sku>, covered: set<Sku>)
    requires forall s :: s in covered <==> s < n && s in open && s in skus
    ensures SkusOf(CoversOf(Plan(n), open, Seller(slug, skus))) == covered
    ensures |CoversOf(Plan(n), open, Seller(slug, skus))| == |covered|
  {
    Covered(n, open, slug, skus);
  }

  lemma {:induction false} FirstCovers(n: nat, open: set<Sku>)
    requires n >= 4 && forall s: Sku :: s in open ==> s < n
    ensures SkusOf(CoversOf(Plan(n), open, Quotes(n)[0])) == open - {n - 2, n - 1}
    ensures |CoversOf(Plan(n), open, Quotes(n)[0])| == |open - {n - 2, n - 1}|
  {
    CoveredIs(n, open, 1, Range(0, n - 2), open - {n - 2, n - 1});
  }

  lemma {:induction false} SecondCovers(n: nat, open: set<Sku>)
    requires n >= 4 && forall s: Sku :: s in open ==> s < n
    ensures SkusOf(CoversOf(Plan(n), open, Quotes(n)[1])) == open * {0, n - 2}
    ensures |CoversOf(Plan(n), open, Quotes(n)[1])| == |open * {0, n - 2}|
  {
    CoveredIs(n, open, 2, [0, n - 2], open * {0, n - 2});
  }

  lemma {:induction false} ThirdCovers(n: nat, open: set<Sku>)
    requires n >= 4 && forall s: Sku :: s in open ==> s < n
    ensures SkusOf(CoversOf(Plan(n), open, Quotes(n)[2])) == open - {0, n - 2}
    ensures |CoversOf(Plan(n), open, Quotes(n)[2])| == |open - {0, n - 2}|
  {
    CoveredIs(n, open, 3, Range(1, n - 2) + [n - 1], open - {0, n - 2});
  }

  lemma {:induction false} AllCover(n: nat, open: set<Sku>)
    requires n >= 4 && forall s: Sku :: s in open ==> s < n
    ensures EachCovers(n, open)
    ensures BestStop(Plan(n), open, Quotes(n)) ==
            Better(Plan(n), open, Better(Plan(n), open, Better(Plan(n), open, None, Quotes(n)[0]), Quotes(n)[1]), Quotes(n)[2])
  {
    FirstCovers(n, open);
    SecondCovers(n, open);
    ThirdCovers(n, open);
    BestOfThree(Plan(n), open, Quotes(n)[0], Quotes(n)[1], Quotes(n)[2]);
    assert Quotes(n) == [Quotes(n)[0], Quotes(n)[1], Quotes(n)[2]];
  }

  lemma {:induction false} NearestOfThree(n: nat, open: set<Sku>)
    requires n >= 4 && CoversOf(Plan(n), open, Quotes(n)[0]) != []
    requires |CoversOf(Plan(n), open, Quotes(n)[1])| <= |CoversOf(Plan(n), open, Quotes(n)[0])|
    requires |CoversOf(Plan(n), open, Quotes(n)[2])| <= |CoversOf(Plan(n), open, Quotes(n)[0])|
    ensures BestStop(Plan(n), open, Quotes(n)) == Some(Quotes(n)[0])
  {
    BestOfThree(Plan(n), open, Quotes(n)[0], Quotes(n)[1], Quotes(n)[2]);
    assert Quotes(n) == [Quotes(n)[0], Quotes(n)[1], Quotes(n)[2]];
  }

  lemma Sizes(n: nat, all: set<Sku>)
    requires n >= 4 && |all| == n && forall s: Sku :: s in all <==> s < n
    ensures |all - {n - 2, n - 1}| == n - 2 && |all * {0, n - 2}| <= n - 2 && |all - {0, n - 2}| <= n - 2
  {
    SizeWithout(all, n - 2, n - 1, all - {n - 2, n - 1});
    SizeWithout(all, 1, n - 1, all * {0, n - 2});
    SizeWithout(all, 0, n - 2, all - {0, n - 2});
  }

  /** All but two articles are covered by the nearest merchant, and no other covers more. */
  lemma {:induction false} FirstBest(n: nat, all: set<Sku>)
    requires n >= 4 && |all| == n && forall s: Sku :: s in all <==> s < n
    ensures BestStop(Plan(n), all, Quotes(n)) == Some(Quotes(n)[0])
  {
    FirstCovers(n, all);
    SecondCovers(n, all);
    ThirdCovers(n, all);
    Sizes(n, all);
    NearestOfThree(n, all);
  }

  lemma {:induction false} FirstRound(n: nat)
    requires n >= 4
    ensures RouteFrom(Plan(n), SkusOf(Plan(n)), Quotes(n)).stops == [Quotes(n)[0]] + RouteFrom(Plan(n), {n - 2, n - 1}, Quotes(n)).stops
  {
    var all := SkusOf(Plan(n));
    SkusOfPlan(n);
    FirstBest(n, all);
    FirstCovers(n, all);
    assert {n - 2, n - 1} == all - (all - {n - 2, n - 1});
    Round(n, all, {n - 2, n - 1}, 0);
  }

  lemma {:induction false} SecondBest(n: nat, open: set<Sku>)
    requires n >= 4 && open == {n - 2, n - 1}
    ensures BestStop(Plan(n), open, Quotes(n)) == Some(Quotes(n)[1])
    ensures open - SkusOf(CoversOf(Plan(n), open, Quotes(n)[1])) == {n - 1}
  {
    AllCover(n, open);
    assert open - {n - 2, n - 1} == {} && open * {0, n - 2} == {n - 2} && open - {0, n - 2} == {n - 1};
  }

  lemma {:induction false} SecondRound(n: nat)
    requires n >= 4
    ensures RouteFrom(Plan(n), {n - 2, n - 1}, Quotes(n)).stops == [Quotes(n)[1]] + RouteFrom(Plan(n), {n - 1}, Quotes(n)).stops
  {
    SecondBest(n, {n - 2, n - 1});
    Round(n, {n - 2, n - 1}, {n - 1}, 1);
  }

  lemma {:induction false} ThirdBest(n: nat, open: set<Sku>)
    requires n >= 4 && open == {n - 1}
    ensures BestStop(Plan(n), open, Quotes(n)) == Some(Quotes(n)[2])
    ensures open - SkusOf(CoversOf(Plan(n), open, Quotes(n)[2])) == {}
  {
    AllCover(n, open);
    assert open - {n - 2, n - 1} == {} && open * {0, n - 2} == {} && open - {0, n - 2} == {n - 1};
  }

  lemma {:induction false} ThirdRound(n: nat)
    requires n >= 4
    ensures RouteFrom(Plan(n), {n - 1}, Quotes(n)).stops == [Quotes(n)[2]]
  {
    ThirdBest(n, {n - 1});
    Round(n, {n - 1}, {}, 2);
    NothingLeft(Plan(n), Quotes(n));
  }

  lemma {:induction false} TwoStopsSuffice(n: nat)
    requires n >= 4
    ensures Comparable(Plan(n), SkusOf(Plan(n)), Quotes(n), {Quotes(n)[1], Quotes(n)[2]})
  {
    PlanItems(n);
    var stops := {Quotes(n)[1], Quotes(n)[2]};
    forall i | i in Plan(n) ensures exists c :: c in stops && CanSupply(c, i) {
      SellsExactly([0, n - 2], i.sku);
      SellsExactly(Range(1, n - 2) + [n - 1], i.sku);
      assert CanSupply(Quotes(n)[1], i) || CanSupply(Quotes(n)[2], i);
    }
  }

  /** With four or more items the nearest merchant can be taken first for as many items as any other
      covers, and still leave both others to visit, although these two alone cover the whole plan. */
  lemma {:induction false} GreedyMissesFewestStops(n: nat)
    requires n >= 4
    ensures Comparable(Plan(n), SkusOf(Plan(n)), Quotes(n), {Quotes(n)[1], Quotes(n)[2]}) && |Plan(n)| == n
    ensures RouteFrom(Plan(n), SkusOf(Plan(n)), Quotes(n)).stops == Quotes(n)
  {
    PlanItems(n);
    TwoStopsSuffice(n);
    FirstRound(n);
    SecondRound(n);
    ThirdRound(n);
  }

  // ---------------------------------------------------------------- the exact condition

  /** The route has the fewest stops, whatever the merchants sell and wherever they are, if and only if
      the plan has at most three items to fulfil. */
  lemma FewestStopsExactly(n: nat)
    ensures (forall items, quotes :: |items| == n ==> FewestStops(items, quotes)) <==> n <= 3
  {
    if n <= 3 {
      forall items: seq<PlanItem>, quotes | |items| == n ensures FewestStops(items, quotes) {
        forall stops | Comparable(items, SkusOf(items), quotes, stops)
          ensures |RouteFrom(items, SkusOf(items), quotes).stops| <= |stops|
        {
          ThreeItemsAreFewest(items, quotes, stops);
        }
      }
    } else {
      GreedyMissesFewestStops(n);
      var stops := {Quotes(n)[1], Quotes(n)[2]};
      assert |stops| <= 2;
      assert !FewestStops(Plan(n), Quotes(n));
    }
  }
}
