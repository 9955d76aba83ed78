/** What the saga charges, and how one lost webhook buys an item twice. */
module SagaCharges {
  import opened Results
  import opened Sums
  import opened Catalog
  import opened ShoppingOptions
  import opened FundingSaga
  import A = SagaAccounting
  import B = BuildOptions
  import G = GreedyRoute
  import P = EscrowProgram
  import C = MockChain
  import O = Orders

  // ---------------------------------------------------------------- the price shown is the price charged

  /** Every line carries the price of the first quoted line for its article. */
  ghost predicate PricedBy(quoted: seq<QuoteItem>, items: seq<QuoteItem>) {
    forall i :: i in items ==> FindQuoteItem(quoted, i.sku).Some? ==> FindQuoteItem(quoted, i.sku).value.unitPrice == i.unitPrice
  }

  /** A shop whose lines are priced by the quote it names. */
  ghost predicate Priced(ctx: Context, shop: Shop) {
    FindQuote(ctx.quotes, shop.quoteId).Some? ==> PricedBy(FindQuote(ctx.quotes, shop.quoteId).value.items, shop.items)
  }

  /** Whatever the merchant accepts of such lines it accepts unchanged. */
  lemma {:induction false} OrderItemsUnchanged(quoted: seq<QuoteItem>, items: seq<QuoteItem>)
    requires PricedBy(quoted, items) && OrderItems(quoted, items).Some?
    ensures OrderItems(quoted, items).value == items
  {
    if items != [] {
      var init, last := items[..|items| - 1], items[|items| - 1];
      assert forall i :: i in init ==> i in items;
      OrderItemsUnchanged(quoted, init);
      assert last in items && items == init + [last];
    }
  }

  ghost predicate Charged(orders: seq<TaskOrder>) {
    forall o :: o in orders ==> o.total == BasketTotal(o.items)
  }

  lemma FundOrderCharged(ctx: Context, t: Task, shop: Shop, quote: SeenQuote, total: nat, a: Answers)
    requires a.reply.Accepted? && FindPeer(ctx.peers, shop.slug).Some? && Charged(t.orders) && total == BasketTotal(shop.items)
    ensures Charged(FundOrder(ctx, t, shop, quote, total, a).0.orders)
  {
    var params := FundParamsOf(ctx, FindPeer(ctx.peers, shop.slug).value, quote, total, a);
    var funded := C.MockStep(t.chain, ctx.failSlugs, a.fundedAt, C.Fund(params));
    if funded.Success? {
      var row := TaskOrder(a.reply.orderId, shop.slug, shop.quoteId, shop.items, total, O.PaidInEscrow, shop.essential,
                           |funded.value.escrows|, a.announced);
      var t1 := t.(chain := funded.value, orders := t.orders + [row]);
      A.HappenAllContinues(ctx.failSlugs, t1, a.after);
    }
  }

  lemma FundShopCharged(ctx: Context, t: Task, shop: Shop, a: Answers)
    requires Priced(ctx, shop) && Charged(t.orders)
    ensures Charged(FundShop(ctx, t, shop, a).0.orders)
  {
    var quote := Usable(ctx, shop, a);
    if quote.Some? {
      var t1 := HappenAll(ctx.failSlugs, t, a.before);
      A.HappenAllContinues(ctx.failSlugs, t, a.before);
      var items := OrderItems(quote.value.items, shop.items);
      if a.reply.Accepted? && shop.items != [] && items.Some? {
        OrderItemsUnchanged(quote.value.items, shop.items);
        FundOrderCharged(ctx, t1, shop, quote.value, OrderTotal(items.value), a);
      }
    }
  }

  ghost predicate UniqueQuotes(quotes: seq<SeenQuote>) {
    forall i, j :: 0 <= i < j < |quotes| ==> quotes[i].quoteId != quotes[j].quoteId
  }

  lemma {:induction false} FindsItself(quotes: seq<SeenQuote>, k: nat)
    requires UniqueQuotes(quotes) && k < |quotes|
    ensures FindQuote(quotes, quotes[k].quoteId) == Some(quotes[k])
  {
    if k > 0 {
      assert quotes[0].quoteId != quotes[k].quoteId;
      FindsItself(quotes[1..], k - 1);
    }
  }

  lemma {:induction false} RepricedIsPriced(quoted: seq<QuoteItem>, items: seq<QuoteItem>)
    ensures PricedBy(quoted, Repriced(quoted, items))
  {
    if items != [] {
      RepricedIsPriced(quoted, items[..|items| - 1]);
    }
  }

  lemma {:induction false} AlternativeIsPriced(ctx: Context, failed: Shop, now: int, k: nat)
    requires UniqueQuotes(ctx.quotes) && k <= |ctx.quotes|
    ensures var alternative := FindAlternative(ctx, failed, now, ctx.quotes[k..]);
            alternative.Some? ==> Priced(ctx, alternative.value)
    decreases |ctx.quotes| - k
  {
    if k < |ctx.quotes| {
      var q := ctx.quotes[k];
      assert ctx.quotes[k..][0] == q && ctx.quotes[k..][1..] == ctx.quotes[k + 1..];
      if IsAlternative(ctx, failed, now, q) {
        FindsItself(ctx.quotes, k);
        RepricedIsPriced(q.items, failed.items);
      } else {
        AlternativeIsPriced(ctx, failed, now, k + 1);
      }
    }
  }

  lemma HandleShopCharged(ctx: Context, t: Task, shop: Shop, turn: Turn)
    requires UniqueQuotes(ctx.quotes) && Priced(ctx, shop) && Charged(t.orders)
    ensures Charged(HandleShop(ctx, t, shop, turn).0.orders)
  {
    var (t1, r1) := FundShop(ctx, t, shop, turn.first);
    FundShopCharged(ctx, t, shop, turn.first);
    var alternative := FindAlternative(ctx, shop, turn.alternativeAt, ctx.quotes);
    if r1.NotFunded? && alternative.Some? {
      assert ctx.quotes[0..] == ctx.quotes;
      AlternativeIsPriced(ctx, shop, turn.alternativeAt, 0);
      var (t2, r2) := FundShop(ctx, t1, alternative.value, turn.second);
      FundShopCharged(ctx, t1, alternative.value, turn.second);
      CancelCharged(ctx, t2, turn.cancelAt);
    } else {
      CancelCharged(ctx, t1, turn.cancelAt);
    }
  }

  lemma {:induction false} CancelCharged(ctx: Context, t: Task, now: int)
    requires Charged(t.orders)
    ensures Charged(CancelRows(ctx, t, 0, now).orders)
  {
    A.CancelRowsContinues(ctx, t, 0, now);
  }

  lemma {:induction false} ApproveCharged(ctx: Context, t: Task, shops: seq<Shop>, script: seq<Turn>)
    requires |script| == |shops| && UniqueQuotes(ctx.quotes) && Charged(t.orders)
    requires forall s :: s in shops ==> Priced(ctx, s)
    ensures Charged(Approve(ctx, t, shops, script).0.orders)
    decreases |shops|
  {
    if shops != [] {
      HandleShopCharged(ctx, t, shops[0], script[0]);
      var (t1, ending) := HandleShop(ctx, t, shops[0], script[0]);
      if ending.None? {
        assert forall s :: s in shops[1..] ==> s in shops;
        ApproveCharged(ctx, t1, shops[1..], script[1..]);
      }
    }
  }

  /** For an option priced by its quotes, every order row's escrow holds exactly the sum of the row's
      lines at the prices the option, or the alternative's quote, showed. */
  lemma {:induction false} ShownIsCharged(ctx: Context, t: Task, shops: seq<Shop>, script: seq<Turn>, o: TaskOrder)
    requires |script| == |shops| && UniqueQuotes(ctx.quotes) && A.Start(t)
    requires forall s :: s in shops ==> Priced(ctx, s)
    requires o in Approve(ctx, t, shops, script).0.orders
    ensures var chain := Approve(ctx, t, shops, script).0.chain;
            chain.Has(o.escrow) && chain.Get(o.escrow).amount == BasketTotal(o.items)
  {
    ApproveCharged(ctx, t, shops, script);
    A.MoneyIsConserved(ctx, t, shops, script);
  }

  /** One quote of each merchant, and each recorded as the task has seen it. */
  ghost predicate OneQuoteEach(quotes: seq<CandidateQuote>, ctx: Context) {
    && (forall c, d :: c in quotes && d in quotes && c.merchant.slug == d.merchant.slug ==> c == d)
    && (forall c :: c in quotes ==>
          FindQuote(ctx.quotes, c.quoteId).Some? && FindQuote(ctx.quotes, c.quoteId).value.items == c.items)
  }

  /** A shop the options builder made of one quote: it is priced by that quote, and the quote's merchant
      accepts the whole order at the shop's subtotal. */
  ghost predicate MadeFromQuote(ctx: Context, shop: Shop) {
    && Priced(ctx, shop) && FindQuote(ctx.quotes, shop.quoteId).Some?
    && OrderItems(FindQuote(ctx.quotes, shop.quoteId).value.items, shop.items) == Some(shop.items)
    && shop.items != [] && shop.subtotal == BasketTotal(shop.items)
  }

  lemma {:induction false} GroupMembers(plan: seq<Assignment>, slug: Slug)
    ensures forall a :: a in Group(plan, slug) ==> a in plan && a.candidate.merchant.slug == slug
  {
    if plan != [] {
      GroupMembers(plan[..|plan| - 1], slug);
    }
  }

  lemma {:induction false} ShopHasGroup(plan: seq<Assignment>, slugs: seq<Slug>, shop: Shop) returns (slug: Slug)
    requires (forall s :: s in slugs ==> Group(plan, s) != []) && shop in ShopsInOrder(plan, slugs)
    ensures Group(plan, slug) != [] && shop == ShopFor(Group(plan, slug))
  {
    slug := slugs[|slugs| - 1];
    if shop != ShopFor(Group(plan, slug)) {
      slug := ShopHasGroup(plan, slugs[..|slugs| - 1], shop);
    }
  }

  lemma PlanShopIsPriced(plan: seq<Assignment>, quotes: seq<CandidateQuote>, ctx: Context, shop: Shop)
    requires (forall a :: a in plan ==> ValidAssignment(a, quotes)) && OneQuoteEach(quotes, ctx) && shop in ShopsOf(plan)
    ensures MadeFromQuote(ctx, shop)
  {
    SlugsAreTheMerchants(plan);
    assert shop in multiset(ShopsOf(plan));
    var slug := ShopHasGroup(plan, Slugs(plan), shop);
    var group := Group(plan, slug);
    GroupMembers(plan, slug);
    assert group[0] in group;
    GroupIsAccepted(group, group[0].candidate);
    assert |Lines(group)| > 0 by {
      assert Lines(group) == [LineOf(group[0])] + Lines(group[1..]);
    }
  }

  /** So it is with every shop of every option the builder returns. */
  lemma {:induction false} OptionShopIsPriced(kind: B.Kind, items: seq<PlanItem>, quotes: seq<CandidateQuote>, ctx: Context, shop: Shop)
    requires G.DistinctSkus(items) && forall i :: i in items ==> OffersFor(i, quotes) != []
    requires OneQuoteEach(quotes, ctx) && shop in B.OptionFor(kind, items, quotes).shops
    ensures MadeFromQuote(ctx, shop)
  {
    B.PlansSupply(kind, items, quotes);
    PlanShopIsPriced(B.PlanFor(kind, items, quotes), quotes, ctx, shop);
  }

  /** From the builder to the chain: whichever option the user approves, every escrow of the task holds
      the sum of its lines at the prices that were shown. */
  lemma {:induction false} ApprovedOptionIsCharged(kind: B.Kind, items: seq<PlanItem>, quotes: seq<CandidateQuote>,
                                ctx: Context, t: Task, script: seq<Turn>, o: TaskOrder)
    requires G.DistinctSkus(items) && forall i :: i in items ==> OffersFor(i, quotes) != []
    requires OneQuoteEach(quotes, ctx) && UniqueQuotes(ctx.quotes) && A.Start(t)
    requires |script| == |B.OptionFor(kind, items, quotes).shops|
    requires o in Approve(ctx, t, B.OptionFor(kind, items, quotes).shops, script).0.orders
    ensures var chain := Approve(ctx, t, B.OptionFor(kind, items, quotes).shops, script).0.chain;
            chain.Has(o.escrow) && chain.Get(o.escrow).amount == BasketTotal(o.items)
  {
    var shops := B.OptionFor(kind, items, quotes).shops;
    forall s | s in shops ensures Priced(ctx, s) {
      OptionShopIsPriced(kind, items, quotes, ctx, s);
    }
    ShownIsCharged(ctx, t, shops, script, o);
  }

  lemma {:induction false} GroupIsAccepted(group: seq<Assignment>, c: CandidateQuote)
    requires forall a :: a in group ==> a.candidate == c && CanSupply(c, a.item) && a.unitPrice == PriceAt(c, a.item)
    ensures PricedBy(c.items, Lines(group)) && OrderItems(c.items, Lines(group)) == Some(Lines(group))
  {
    if group != [] {
      var init, last := group[..|group| - 1], group[|group| - 1];
      assert last in group && group == init + [last] && forall a :: a in init ==> a in group;
      GroupIsAccepted(init, c);
      FlatMapAppend(init, last, AsLine());
      var lines := Lines(init) + [LineOf(last)];
      assert Lines(group) == lines && lines[..|lines| - 1] == Lines(init) && lines[|lines| - 1] == LineOf(last);
    }
  }

  // ---------------------------------------------------------------- an item bought twice

  function DemoQuote(id: QuoteId, slug: Slug): SeenQuote {
    SeenQuote(id, slug, [QuoteItem(5, 1, 100)], 1_000, true, true, 0)
  }

  function DemoContext(wallet: P.Address): Context {
    Context([Peer(1, 1, 0), Peer(2, 2, 0)], [DemoQuote(1, 1), DemoQuote(2, 2)], {}, wallet)
  }

  function DemoAnswers(orderId: O.OrderId, announced: bool): Answers {
    Answers(0, true, [], Accepted(orderId, 500), 0, 0, [], announced)
  }

  lemma DemoAttempt(ctx: Context, t: Task, slug: Slug, orderId: O.OrderId, announced: bool)
    requires exists wallet :: ctx == DemoContext(wallet)
    requires slug in {1, 2} && t.chain.balance >= 100
    ensures var shop := Shop(slug, slug, slug, [QuoteItem(5, 1, 100)], 100, 0, true);
            var (t', r) := FundShop(ctx, t, shop, DemoAnswers(orderId, announced));
            && r == (if announced then Funded else NotFunded)
            && t'.chain.balance == t.chain.balance - 100 && t'.dropped == t.dropped && |t'.orders| == |t.orders| + 1
            && t'.orders[..|t.orders|] == t.orders
            && t'.orders[|t.orders|].items == shop.items && t'.orders[|t.orders|].state == O.PaidInEscrow
            && t'.orders[|t.orders|].announced == announced && t'.orders[|t.orders|].escrow == |t'.chain.escrows|
            && exists e: C.Escrow :: t'.chain.escrows == t.chain.escrows + [e]
                 && e.state == P.Funded && e.amount == 100 && e.releaseDeadline == 500
  {
    var wallet :| ctx == DemoContext(wallet);
    var item := QuoteItem(5, 1, 100);
    var shop := Shop(slug, slug, slug, [item], 100, 0, true);
    var a := DemoAnswers(orderId, announced);
    assert ctx.peers[1..] == [Peer(2, 2, 0)] && ctx.quotes[1..] == [DemoQuote(2, 2)];
    assert Usable(ctx, shop, a) == Some(DemoQuote(slug, slug));
    assert shop.items[..0] == [];
    assert OrderItems([item], shop.items) == Some([] + [item]);
    assert [] + [item] == [item];
    SumByAppend([], item, LineCost());
    assert OrderTotal([item]) == 100;
  }

  lemma {:induction false} RecoveredByAlternative(ctx: Context, t: Task, shop: Shop, turn: Turn, t1: Task, alternative: Shop, t2: Task)
    requires FundShop(ctx, t, shop, turn.first) == (t1, NotFunded)
    requires FindAlternative(ctx, shop, turn.alternativeAt, ctx.quotes) == Some(alternative)
    requires FundShop(ctx, t1, alternative, turn.second) == (t2, Funded)
    ensures HandleShop(ctx, t, shop, turn) == (t2, None)
  {
  }

  lemma {:induction false} ApproveOneShop(ctx: Context, t: Task, shop: Shop, turn: Turn, t2: Task)
    requires HandleShop(ctx, t, shop, turn) == (t2, None) && |t2.orders| > 0 && t2.orders[0].state == O.PaidInEscrow
    ensures Approve(ctx, t, [shop], [turn]) == (t2, InProgress)
  {
    assert [shop][1..] == [] && [turn][1..] == [];
    assert t2.orders[0] in t2.orders && IsOpen(t2.orders[0]);
    assert Approve(ctx, t2, [], []) == (t2, InProgress);
  }

  lemma DemoTurn(ctx: Context, wallet: P.Address, t: Task, shop: Shop, turn: Turn) returns (t2: Task)
    requires ctx == DemoContext(wallet) && t.chain.balance == 1_000 && t.orders == []
    requires shop == Shop(1, 1, 1, [QuoteItem(5, 1, 100)], 100, 0, true)
    requires turn == Turn(DemoAnswers(10, false), 0, DemoAnswers(11, true), 0)
    ensures HandleShop(ctx, t, shop, turn) == (t2, None)
    ensures |t2.orders| == 2 && t2.chain.balance == 800 && t2.orders[0].state == O.PaidInEscrow
    ensures t2.orders[0].items == t2.orders[1].items == shop.items
  {
    var alternative := Shop(2, 2, 2, [QuoteItem(5, 1, 100)], 100, 0, true);
    DemoAttempt(ctx, t, 1, 10, false);
    var t1 := FundShop(ctx, t, shop, turn.first).0;
    DemoAlternative(ctx, wallet, shop);
    t2 := DemoSecond(ctx, wallet, t1, alternative, turn.second);
    RecoveredByAlternative(ctx, t, shop, turn, t1, alternative, t2);
  }

  lemma DemoSecond(ctx: Context, wallet: P.Address, t1: Task, alternative: Shop, a: Answers) returns (t2: Task)
    requires ctx == DemoContext(wallet) && t1.chain.balance >= 100 && |t1.orders| == 1
    requires alternative == Shop(2, 2, 2, [QuoteItem(5, 1, 100)], 100, 0, true) && a == DemoAnswers(11, true)
    ensures FundShop(ctx, t1, alternative, a) == (t2, Funded)
    ensures |t2.orders| == 2 && t2.orders[0] == t1.orders[0] && t2.chain.balance == t1.chain.balance - 100
    ensures t2.orders[1].items == alternative.items
  {
    DemoAttempt(ctx, t1, 2, 11, true);
    t2 := FundShop(ctx, t1, alternative, a).0;
    assert t2.orders[0] == t2.orders[..1][0];
  }

  /** The escrow of the first shop is funded, only its webhook call is lost. The saga takes the shop for
      failed and buys the same item again from the alternative: one unit planned, two paid. */
  lemma LostWebhookBuysTwice(wallet: P.Address)
    ensures var ctx := DemoContext(wallet);
            var shops := [Shop(1, 1, 1, [QuoteItem(5, 1, 100)], 100, 0, true)];
            var script := [Turn(DemoAnswers(10, false), 0, DemoAnswers(11, true), 0)];
            var (t, ending) := Approve(ctx, Task(C.Chain(1_000, []), [], []), shops, script);
            && ending == InProgress && |t.orders| == 2 && t.chain.balance == 800
            && t.orders[0].items == t.orders[1].items == shops[0].items
  {
    var shop := Shop(1, 1, 1, [QuoteItem(5, 1, 100)], 100, 0, true);
    var turn := Turn(DemoAnswers(10, false), 0, DemoAnswers(11, true), 0);
    var t := Task(C.Chain(1_000, []), [], []);
    var t2 := DemoTurn(DemoContext(wallet), wallet, t, shop, turn);
    ApproveOneShop(DemoContext(wallet), t, shop, turn, t2);
  }

  lemma DemoCovers(shop: Shop)
    requires shop == Shop(1, 1, 1, [QuoteItem(5, 1, 100)], 100, 0, true)
    ensures Covers(DemoQuote(2, 2).items, shop.items)
  {
    assert QuoteItem(5, 1, 100) in DemoQuote(2, 2).items;
  }

  lemma DemoRepriced(item: QuoteItem)
    ensures Repriced([item], [item]) == [item] && BasketTotal([item]) == item.unitPrice * item.qty
  {
    assert [item][..0] == [];
    assert Repriced([item], []) == [];
    assert [] + [item] == [item];
    SumByAppend([], item, LineCost());
  }

  lemma {:induction false} DemoAlternative(ctx: Context, wallet: P.Address, shop: Shop)
    requires ctx == DemoContext(wallet) && shop == Shop(1, 1, 1, [QuoteItem(5, 1, 100)], 100, 0, true)
    ensures FindAlternative(ctx, shop, 0, ctx.quotes) == Some(Shop(2, 2, 2, [QuoteItem(5, 1, 100)], 100, 0, true))
  {
    assert ctx.quotes[1..] == [DemoQuote(2, 2)] && ctx.peers[1..] == [Peer(2, 2, 0)];
    assert FindPeer(ctx.peers, 2) == Some(Peer(2, 2, 0));
    DemoCovers(shop);
    assert !IsAlternative(ctx, shop, 0, ctx.quotes[0]) && IsAlternative(ctx, shop, 0, ctx.quotes[1]);
    DemoRepriced(QuoteItem(5, 1, 100));
    assert AlternativeFrom(ctx, shop, ctx.quotes[1]) == Shop(2, 2, 2, [QuoteItem(5, 1, 100)], 100, 0, true);
    assert FindAlternative(ctx, shop, 0, [DemoQuote(2, 2)]) == Some(AlternativeFrom(ctx, shop, ctx.quotes[1]));
  }
}
