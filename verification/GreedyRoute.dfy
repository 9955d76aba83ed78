/** The pickup-optimised option: greedy set cover over the quotes, and how far it can be from optimal. */
module GreedyRoute {
  import opened Results
  import opened Catalog
  import opened ShoppingOptions

  // ---------------------------------------------------------------- one round

  /** The fulfillable items still open that one quote would cover. */
  function CoversOf(items: seq<PlanItem>, remaining: set<Sku>, c: CandidateQuote): seq<PlanItem> {
    if items == [] then []
    else
      var i := items[|items| - 1];
      CoversOf(items[..|items| - 1], remaining, c) + if i.sku in remaining && CanSupply(c, i) then [i] else []
  }

  /** Strictly more items, or as many and strictly nearer. */
  predicate BetterStop(items: seq<PlanItem>, remaining: set<Sku>, c: CandidateQuote, best: CandidateQuote) {
    var n, m := |CoversOf(items, remaining, c)|, |CoversOf(items, remaining, best)|;
    n > m || (n == m && c.merchant.distance < best.merchant.distance)
  }

  /** The stop one round picks, scanning the quotes in order. */
  function BestStop(items: seq<PlanItem>, remaining: set<Sku>, quotes: seq<CandidateQuote>): Option<CandidateQuote> {
    if quotes == [] then None
    else
      var c := quotes[|quotes| - 1];
      var best := BestStop(items, remaining, quotes[..|quotes| - 1]);
      if CoversOf(items, remaining, c) != [] && (best.None? || BetterStop(items, remaining, c, best.value)) then Some(c) else best
  }

  function SkusOf(items: seq<PlanItem>): set<Sku> {
    set i | i in items :: i.sku
  }

  function AssignAll(items: seq<PlanItem>, c: CandidateQuote): (r: seq<Assignment>)
    requires forall i :: i in items ==> CanSupply(c, i)
  {
    if items == [] then []
    else
      AssignAll(items[..|items| - 1], c) + [Assignment(items[|items| - 1], c, PriceAt(c, items[|items| - 1]))]
  }

  // ---------------------------------------------------------------- the whole route

  datatype Route = Route(stops: seq<CandidateQuote>, plan: seq<Assignment>)

  ghost predicate DistinctSkus(items: seq<PlanItem>) {
    forall i, j :: 0 <= i < j < |items| ==> items[i].sku != items[j].sku
  }

  lemma {:induction false} CoversOfIsFilter(items: seq<PlanItem>, remaining: set<Sku>, c: CandidateQuote)
    ensures forall i :: i in CoversOf(items, remaining, c) <==> i in items && i.sku in remaining && CanSupply(c, i)
    ensures DistinctSkus(items) ==> DistinctSkus(CoversOf(items, remaining, c))
  {
    if items != [] {
      var init, last := items[..|items| - 1], items[|items| - 1];
      CoversOfIsFilter(init, remaining, c);
      assert items == init + [last];
      if DistinctSkus(items) {
        forall i | i in CoversOf(init, remaining, c) ensures i.sku != last.sku {
          assert i in init;
        }
      }
    }
  }

  /** What the while loop still adds once `remaining` items are open. */
  function RouteFrom(items: seq<PlanItem>, remaining: set<Sku>, quotes: seq<CandidateQuote>): Route
    decreases |remaining|
  {
    match BestStop(items, remaining, quotes)
    case None => Route([], [])
    case Some(c) =>
      var covers := CoversOf(items, remaining, c);
      CoversOfIsFilter(items, remaining, c);
      BestStopIsUseful(items, remaining, quotes);
      ShrinksStrictly(items, remaining, c);
      var rest := RouteFrom(items, remaining - SkusOf(covers), quotes);
      Route([c] + rest.stops, AssignAll(covers, c) + rest.plan)
  }

  lemma {:induction false} ShrinksStrictly(items: seq<PlanItem>, remaining: set<Sku>, c: CandidateQuote)
    requires CoversOf(items, remaining, c) != []
    ensures |remaining - SkusOf(CoversOf(items, remaining, c))| < |remaining|
  {
    CoversOfIsFilter(items, remaining, c);
    var i := CoversOf(items, remaining, c)[0];
    assert i in CoversOf(items, remaining, c);
    assert i.sku in remaining && i.sku in SkusOf(CoversOf(items, remaining, c));
    SubsetSize(remaining - SkusOf(CoversOf(items, remaining, c)), remaining - {i.sku});
  }

  lemma SubsetSize<T>(a: set<T>, b: set<T>)
    requires a <= b
    ensures |a| <= |b|
  {
    assert b == a + (b - a);
  }

  ghost predicate NoneCovers(items: seq<PlanItem>, remaining: set<Sku>, quotes: seq<CandidateQuote>) {
    forall c :: c in quotes ==> CoversOf(items, remaining, c) == []
  }

  ghost predicate CoversMost(items: seq<PlanItem>, remaining: set<Sku>, quotes: seq<CandidateQuote>, best: CandidateQuote) {
    && best in quotes && CoversOf(items, remaining, best) != []
    && forall c :: c in quotes ==> |CoversOf(items, remaining, c)| <= |CoversOf(items, remaining, best)|
  }

  /** The picked stop covers something, is one of the quotes, and no quote covers more. */
  lemma {:induction false} BestStopIsUseful(items: seq<PlanItem>, remaining: set<Sku>, quotes: seq<CandidateQuote>)
    ensures BestStop(items, remaining, quotes).None? ==> NoneCovers(items, remaining, quotes)
    ensures BestStop(items, remaining, quotes).Some? ==> CoversMost(items, remaining, quotes, BestStop(items, remaining, quotes).value)
  {
    if quotes != [] {
      var init, last := quotes[..|quotes| - 1], quotes[|quotes| - 1];
      BestStopIsUseful(items, remaining, init);
      assert quotes == init + [last];
      forall c | c in quotes ensures c in init || c == last {
      }
    }
  }

  lemma {:induction false} RouteRound(items: seq<PlanItem>, remaining: set<Sku>, quotes: seq<CandidateQuote>, c: CandidateQuote)
    requires BestStop(items, remaining, quotes) == Some(c)
    ensures var covers := CoversOf(items, remaining, c);
            && |remaining - SkusOf(covers)| < |remaining|
            && (forall i :: i in covers ==> CanSupply(c, i))
            && var rest := RouteFrom(items, remaining - SkusOf(covers), quotes);
               && RouteFrom(items, remaining, quotes) == Route([c] + rest.stops, AssignAll(covers, c) + rest.plan)
               && |RouteFrom(items, remaining, quotes).stops| == |rest.stops| + 1
  {
    CoversOfIsFilter(items, remaining, c);
    BestStopIsUseful(items, remaining, quotes);
    ShrinksStrictly(items, remaining, c);
  }

  /** The scan for the best stop of one round. */
  method PickStop(items: seq<PlanItem>, remaining: set<Sku>, quotes: seq<CandidateQuote>) returns (best: Option<CandidateQuote>)
    ensures best == BestStop(items, remaining, quotes)
  {
    best := None;
    for k := 0 to |quotes|
      invariant best == BestStop(items, remaining, quotes[..k])
    {
      assert quotes[..k + 1][..k] == quotes[..k];
      var covers := CoversOf(items, remaining, quotes[k]);
      if |covers| > 0 && (best.None? || BetterStop(items, remaining, quotes[k], best.value)) {
        best := Some(quotes[k]);
      }
    }
    assert quotes[..|quotes|] == quotes;
  }

  function Append(a: Route, b: Route): Route {
    Route(a.stops + b.stops, a.plan + b.plan)
  }

  /** The greedy block of buildOptions. */
  method PlanRoute(items: seq<PlanItem>, quotes: seq<CandidateQuote>) returns (chosen: seq<CandidateQuote>, plan: seq<Assignment>)
    ensures Route(chosen, plan) == RouteFrom(items, SkusOf(items), quotes)
  {
    var remaining := SkusOf(items);
    chosen, plan := [], [];
    ghost var whole := RouteFrom(items, SkusOf(items), quotes);
    while remaining != {}
      invariant Append(Route(chosen, plan), RouteFrom(items, remaining, quotes)) == whole
      decreases |remaining|
    {
      var best := PickStop(items, remaining, quotes);
      if best.None? {
        break;
      }
      RouteRound(items, remaining, quotes, best.value);
      var covers := CoversOf(items, remaining, best.value);
      ghost var round := Route([best.value], AssignAll(covers, best.value));
      AppendAssociates(Route(chosen, plan), round, RouteFrom(items, remaining - SkusOf(covers), quotes));
      chosen := chosen + [best.value];
      remaining := remaining - SkusOf(covers);
      plan := plan + AssignAll(covers, best.value);
    }
    if remaining == {} {
      NothingLeft(items, quotes);
    }
    assert RouteFrom(items, remaining, quotes) == Route([], []);
  }

  lemma AppendAssociates(a: Route, b: Route, c: Route)
    ensures Append(a, Append(b, c)) == Append(Append(a, b), c)
  {
  }

  lemma {:induction false} NothingLeft(items: seq<PlanItem>, quotes: seq<CandidateQuote>)
    ensures BestStop(items, {}, quotes).None?
  {
    BestStopIsUseful(items, {}, quotes);
    if BestStop(items, {}, quotes).Some? {
      CoversNothing(items, BestStop(items, {}, quotes).value);
    }
  }

  lemma {:induction false} CoversNothing(items: seq<PlanItem>, c: CandidateQuote)
    ensures CoversOf(items, {}, c) == []
  {
    if items != [] {
      CoversNothing(items[..|items| - 1], c);
    }
  }

  // ---------------------------------------------------------------- every item exactly once

  function Open(items: seq<PlanItem>, remaining: set<Sku>): seq<PlanItem> {
    if items == [] then []
    else
      var i := items[|items| - 1];
      Open(items[..|items| - 1], remaining) + if i.sku in remaining then [i] else []
  }

  lemma {:induction false} AssignAllAssigns(items: seq<PlanItem>, c: CandidateQuote)
    requires forall i :: i in items ==> CanSupply(c, i)
    ensures ItemsOf(AssignAll(items, c)) == items
    ensures forall a :: a in AssignAll(items, c) ==> a.candidate == c && CanSupply(c, a.item) && a.unitPrice == PriceAt(c, a.item)
  {
    if items != [] {
      var init, last := items[..|items| - 1], items[|items| - 1];
      AssignAllAssigns(init, c);
      assert items == init + [last];
    }
  }

  /** A round splits the open items into those it covers and those left open. */
  lemma {:induction false} RoundSplits(items: seq<PlanItem>, remaining: set<Sku>, c: CandidateQuote, covered: set<Sku>)
    requires DistinctSkus(items)
    requires forall i :: i in items && i.sku in remaining ==> (i.sku in covered <==> CanSupply(c, i))
    ensures multiset(Open(items, remaining)) == multiset(CoversOf(items, remaining, c)) + multiset(Open(items, remaining - covered))
  {
    if items != [] {
      var init, last := items[..|items| - 1], items[|items| - 1];
      assert items == init + [last];
      RoundSplits(init, remaining, c, covered);
    }
  }

  lemma {:induction false} CoveredSkus(items: seq<PlanItem>, remaining: set<Sku>, c: CandidateQuote)
    requires DistinctSkus(items)
    ensures forall i :: i in items && i.sku in remaining ==> (i.sku in SkusOf(CoversOf(items, remaining, c)) <==> CanSupply(c, i))
    ensures |SkusOf(CoversOf(items, remaining, c))| == |CoversOf(items, remaining, c)|
  {
    CoversOfIsFilter(items, remaining, c);
    var covers := CoversOf(items, remaining, c);
    DistinctSkusCount(covers);
    forall i | i in items && i.sku in remaining && i.sku in SkusOf(covers) ensures CanSupply(c, i) {
      var j :| j in covers && j.sku == i.sku;
      assert j in items;
      var x, y :| 0 <= x < |items| && 0 <= y < |items| && items[x] == i && items[y] == j;
      assert x == y;
    }
  }

  lemma {:induction false} DistinctSkusCount(items: seq<PlanItem>)
    requires DistinctSkus(items)
    ensures |SkusOf(items)| == |items|
  {
    if items != [] {
      var init, last := items[..|items| - 1], items[|items| - 1];
      DistinctSkusCount(init);
      assert items == init + [last];
      assert SkusOf(items) == SkusOf(init) + {last.sku};
      assert last.sku !in SkusOf(init);
    }
  }

  lemma {:induction false} OpenNone(items: seq<PlanItem>, remaining: set<Sku>)
    requires forall i :: i in items ==> i.sku !in remaining
    ensures Open(items, remaining) == []
  {
    if items != [] {
      OpenNone(items[..|items| - 1], remaining);
    }
  }

  lemma {:induction false} OpenAll(items: seq<PlanItem>, remaining: set<Sku>)
    requires forall i :: i in items ==> i.sku in remaining
    ensures Open(items, remaining) == items
  {
    if items != [] {
      var init, last := items[..|items| - 1], items[|items| - 1];
      assert items == init + [last];
      OpenAll(init, remaining);
    }
  }

  lemma {:induction false} ItemsOfConcat(a: seq<Assignment>, b: seq<Assignment>)
    ensures ItemsOf(a + b) == ItemsOf(a) + ItemsOf(b)
  {
  }

  /** The route assigns every open item exactly once, to a quote that covers it. */
  lemma {:induction false} RouteAssignsOpenItems(items: seq<PlanItem>, remaining: set<Sku>, quotes: seq<CandidateQuote>)
    requires DistinctSkus(items) && AllSuppliable(items, quotes)
    ensures multiset(ItemsOf(RouteFrom(items, remaining, quotes).plan)) == multiset(Open(items, remaining))
    ensures forall a :: a in RouteFrom(items, remaining, quotes).plan ==> ValidAssignment(a, quotes)
    decreases |remaining|
  {
    BestStopIsUseful(items, remaining, quotes);
    match BestStop(items, remaining, quotes) {
      case None =>
        forall i | i in items ensures i.sku !in remaining {
          assert Suppliable(i, quotes);
          var c :| c in quotes && CanSupply(c, i);
          CoversOfIsFilter(items, remaining, c);
        }
        OpenNone(items, remaining);
      case Some(c) =>
        var covers := CoversOf(items, remaining, c);
        CoversOfIsFilter(items, remaining, c);
        ShrinksStrictly(items, remaining, c);
        CoveredSkus(items, remaining, c);
        RoundSplits(items, remaining, c, SkusOf(covers));
        AssignAllAssigns(covers, c);
        RouteAssignsOpenItems(items, remaining - SkusOf(covers), quotes);
        ItemsOfConcat(AssignAll(covers, c), RouteFrom(items, remaining - SkusOf(covers), quotes).plan);
    }
  }

  lemma {:induction false} RouteSupplies(items: seq<PlanItem>, quotes: seq<CandidateQuote>)
    requires DistinctSkus(items) && AllSuppliable(items, quotes)
    ensures Supplies(RouteFrom(items, SkusOf(items), quotes).plan, items, quotes)
  {
    RouteAssignsOpenItems(items, SkusOf(items), quotes);
    OpenAll(items, SkusOf(items));
  }

  // ---------------------------------------------------------------- the harmonic bound

  /** The n-th harmonic number. */
  ghost function H(n: nat): real {
    if n == 0 then 0.0 else H(n - 1) + 1.0 / (n as real)
  }

  /** Removing m of r open items lowers H by at least m / r. */
  lemma {:induction false} HarmonicDrop(r: nat, m: nat)
    requires 1 <= m <= r
    ensures H(r) - H(r - m) >= (m as real) / (r as real)
  {
    if m == 1 {
    } else {
      HarmonicDrop(r, m - 1);
      var j := r - m + 1;
      assert H(r - m + 1) == H(r - m) + 1.0 / (j as real);
      assert 1.0 / (j as real) >= 1.0 / (r as real);
      assert ((m - 1) as real) / (r as real) + 1.0 / (r as real) == (m as real) / (r as real);
    }
  }

  /** `stops` jointly cover all of `items`. */
  ghost predicate IsCover(items: seq<PlanItem>, stops: set<CandidateQuote>) {
    forall i :: i in items ==> exists c :: c in stops && CanSupply(c, i)
  }

  ghost function CoveredBy(items: seq<PlanItem>, remaining: set<Sku>, stops: set<CandidateQuote>): set<Sku> {
    set i, c | i in items && c in stops && i.sku in remaining && CanSupply(c, i) :: i.sku
  }

  lemma {:induction false} OneMoreStop(items: seq<PlanItem>, remaining: set<Sku>, stops: set<CandidateQuote>, c: CandidateQuote)
    requires DistinctSkus(items) && c in stops
    ensures |CoveredBy(items, remaining, stops)| <= |CoveredBy(items, remaining, stops - {c})| + |CoversOf(items, remaining, c)|
  {
    CoversOfIsFilter(items, remaining, c);
    var covers := CoversOf(items, remaining, c);
    DistinctSkusCount(covers);
    var one, others := SkusOf(covers), CoveredBy(items, remaining, stops - {c});
    forall sku | sku in CoveredBy(items, remaining, stops) ensures sku in others + one {
      var i, d :| i in items && d in stops && i.sku in remaining && CanSupply(d, i) && i.sku == sku;
      if d == c {
        assert i in covers;
      }
    }
    SubsetSize(CoveredBy(items, remaining, stops), others + one);
  }

  /** If no single stop covers more than m open items, k stops cover at most k * m. */
  lemma {:induction false} UnionBound(items: seq<PlanItem>, remaining: set<Sku>, stops: set<CandidateQuote>, m: nat)
    requires DistinctSkus(items)
    requires forall c :: c in stops ==> |CoversOf(items, remaining, c)| <= m
    ensures |CoveredBy(items, remaining, stops)| <= |stops| * m
  {
    if stops == {} {
      assert CoveredBy(items, remaining, stops) == {};
    } else {
      var c :| c in stops;
      UnionBound(items, remaining, stops - {c}, m);
      OneMoreStop(items, remaining, stops, c);
      assert |stops| == |stops - {c}| + 1;
      OneMoreTerm(|stops - {c}|, m);
    }
  }

  lemma OneMoreTerm(k: nat, m: nat)
    ensures (k + 1) * m == k * m + m
  {
  }

  /** `n` stops are at most H(r) times `k` stops. */
  ghost predicate Within(n: nat, k: nat, r: nat) {
    n as real <= (k as real) * H(r)
  }

  /** One more stop is paid for by the m >= r / k items it covers. */
  lemma PotentialDrop(n: nat, r: nat, m: nat, k: nat)
    requires 1 <= m <= r <= k * m && Within(n, k, r - m)
    ensures Within(n + 1, k, r)
  {
    HarmonicDrop(r, m);
    var share := (m as real) / (r as real);
    assert (k as real) * share >= 1.0 by {
      assert (k as real) * (m as real) >= r as real;
      assert (k as real) * share == ((k as real) * (m as real)) / (r as real);
    }
    assert (k as real) * (H(r) - H(r - m)) >= (k as real) * share;
  }

  /** `stops` are quotes that cover every item, some of which are still open. */
  ghost predicate Comparable(items: seq<PlanItem>, remaining: set<Sku>, quotes: seq<CandidateQuote>, stops: set<CandidateQuote>) {
    && DistinctSkus(items) && remaining <= SkusOf(items)
    && (forall c :: c in stops ==> c in quotes) && IsCover(items, stops)
  }

  /** A round of the loop covers at least one k-th of the open items. */
  lemma {:induction false} RoundCoversShare(items: seq<PlanItem>, remaining: set<Sku>, quotes: seq<CandidateQuote>, stops: set<CandidateQuote>, c: CandidateQuote)
    requires Comparable(items, remaining, quotes, stops)
    requires BestStop(items, remaining, quotes) == Some(c)
    ensures var m := |CoversOf(items, remaining, c)|;
            1 <= m <= |remaining| <= |stops| * m && |remaining - SkusOf(CoversOf(items, remaining, c))| == |remaining| - m
  {
    BestStopIsUseful(items, remaining, quotes);
    var covers := CoversOf(items, remaining, c);
    CoversOfIsFilter(items, remaining, c);
    DistinctSkusCount(covers);
    assert SkusOf(covers) <= remaining;
    SubsetSize(SkusOf(covers), remaining);
    assert remaining == (remaining - SkusOf(covers)) + SkusOf(covers);
    UnionBound(items, remaining, stops, |covers|);
    forall sku | sku in remaining ensures sku in CoveredBy(items, remaining, stops) {
      var i :| i in items && i.sku == sku;
      var d :| d in stops && CanSupply(d, i);
    }
    SubsetSize(remaining, CoveredBy(items, remaining, stops));
  }

  /** From any point of the loop: the stops still to come are at most k * H(open items), for every
      cover of k quotes. */
  lemma {:induction false} StopsBound(items: seq<PlanItem>, remaining: set<Sku>, quotes: seq<CandidateQuote>, stops: set<CandidateQuote>)
    requires Comparable(items, remaining, quotes, stops)
    ensures Within(|RouteFrom(items, remaining, quotes).stops|, |stops|, |remaining|)
    decreases |remaining|
  {
    if BestStop(items, remaining, quotes).None? {
      HarmonicNonNegative(|remaining|);
    } else {
      RoundBound(items, remaining, quotes, stops);
    }
  }

  lemma {:induction false} RoundBound(items: seq<PlanItem>, remaining: set<Sku>, quotes: seq<CandidateQuote>, stops: set<CandidateQuote>)
    requires Comparable(items, remaining, quotes, stops) && BestStop(items, remaining, quotes).Some?
    ensures Within(|RouteFrom(items, remaining, quotes).stops|, |stops|, |remaining|)
    decreases |remaining|, 0
  {
    var c := BestStop(items, remaining, quotes).value;
    var covers := CoversOf(items, remaining, c);
    var left := remaining - SkusOf(covers);
    RoundCoversShare(items, remaining, quotes, stops, c);
    RouteRound(items, remaining, quotes, c);
    assert Comparable(items, left, quotes, stops);
    StopsBound(items, left, quotes, stops);
    PotentialDrop(|RouteFrom(items, left, quotes).stops|, |remaining|, |covers|, |stops|);
  }

  lemma {:induction false} HarmonicNonNegative(n: nat)
    ensures H(n) >= 0.0
  {
    if n > 0 {
      HarmonicNonNegative(n - 1);
    }
  }

  /** Greedy uses at most H(n) times the stops of any set of quotes that covers all n items. */
  lemma {:induction false} GreedyWithinHarmonic(items: seq<PlanItem>, quotes: seq<CandidateQuote>, stops: set<CandidateQuote>)
    requires Comparable(items, SkusOf(items), quotes, stops)
    ensures Within(|RouteFrom(items, SkusOf(items), quotes).stops|, |stops|, |items|)
  {
    DistinctSkusCount(items);
    StopsBound(items, SkusOf(items), quotes, stops);
  }

  /** Greedy finds a single stop exactly when one exists. */
  lemma {:induction false} OneStopExactly(items: seq<PlanItem>, quotes: seq<CandidateQuote>)
    requires DistinctSkus(items) && AllSuppliable(items, quotes) && items != []
    ensures |RouteFrom(items, SkusOf(items), quotes).stops| == 1 <==> exists c :: c in quotes && forall i :: i in items ==> CanSupply(c, i)
  {
    if d :| d in quotes && forall i :: i in items ==> CanSupply(d, i) {
      FullStopIsEnough(items, quotes, d);
    }
    if |RouteFrom(items, SkusOf(items), quotes).stops| == 1 {
      SingleStopCoversAll(items, quotes);
    }
  }

  lemma {:induction false} FullStopIsEnough(items: seq<PlanItem>, quotes: seq<CandidateQuote>, d: CandidateQuote)
    requires DistinctSkus(items) && items != []
    requires d in quotes && forall i :: i in items ==> CanSupply(d, i)
    ensures |RouteFrom(items, SkusOf(items), quotes).stops| == 1
  {
    var all := SkusOf(items);
    assert items[0] in items && items[0].sku in all;
    BestStopIsUseful(items, all, quotes);
    CoversOfIsFilter(items, all, d);
    assert items[0] in CoversOf(items, all, d);
    var c := BestStop(items, all, quotes).value;
    DistinctSkusCount(items);
    DistinctSkusCount(CoversOf(items, all, d));
    assert SkusOf(CoversOf(items, all, d)) == all;
    RoundCoversShare(items, all, quotes, {d}, c);
    assert all - SkusOf(CoversOf(items, all, c)) == {};
    NothingLeft(items, quotes);
  }

  lemma {:induction false} SingleStopCoversAll(items: seq<PlanItem>, quotes: seq<CandidateQuote>)
    requires DistinctSkus(items) && AllSuppliable(items, quotes)
    requires |RouteFrom(items, SkusOf(items), quotes).stops| == 1
    ensures exists c :: c in quotes && forall i :: i in items ==> CanSupply(c, i)
  {
    var all := SkusOf(items);
    BestStopIsUseful(items, all, quotes);
    var c := BestStop(items, all, quotes).value;
    var rest := all - SkusOf(CoversOf(items, all, c));
    CoveredSkus(items, all, c);
    BestStopIsUseful(items, rest, quotes);
    assert BestStop(items, rest, quotes).None?;
    forall i | i in items ensures CanSupply(c, i) {
      assert Suppliable(i, quotes);
      var e :| e in quotes && CanSupply(e, i);
      CoversOfIsFilter(items, rest, e);
      assert i !in CoversOf(items, rest, e);
      assert i.sku !in rest;
    }
  }
}
