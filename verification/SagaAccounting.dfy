/** Where every item and every micro-USDC of an approved option ends up. */
module SagaAccounting {
  import opened Results
  import opened Sums
  import opened Catalog
  import opened ShoppingOptions
  import opened FundingSaga
  import C = MockChain
  import O = Orders

  type Line = (Sku, Qty)

  function OneLine(): QuoteItem -> seq<Line> {
    (i: QuoteItem) => [(i.sku, i.qty)]
  }

  /** Articles and quantities, without prices. */
  function Lines(items: seq<QuoteItem>): seq<Line> {
    FlatMap(items, OneLine())
  }

  function Announced(): TaskOrder -> seq<Line> {
    (o: TaskOrder) => if o.announced then Lines(o.items) else []
  }

  /** Rows whose shop counted as failed although its escrow was funded. */
  function Orphaned(): TaskOrder -> seq<Line> {
    (o: TaskOrder) => if o.announced then [] else Lines(o.items)
  }

  function Ordered(): TaskOrder -> seq<Line> {
    (o: TaskOrder) => Lines(o.items)
  }

  function DroppedLines(): Dropped -> seq<Line> {
    (d: Dropped) => Lines(d.shop.items)
  }

  function ShopLines(): Shop -> seq<Line> {
    (s: Shop) => Lines(s.items)
  }

  ghost function Accounted(t: Task): multiset<Line> {
    multiset(FlatMap(t.orders, Announced())) + multiset(FlatMap(t.dropped, DroppedLines()))
  }

  // ---------------------------------------------------------------- rows keep everything but their state

  ghost predicate SameRows(a: seq<TaskOrder>, b: seq<TaskOrder>) {
    |a| == |b| && forall k :: 0 <= k < |a| ==> b[k] == a[k].(state := b[k].state)
  }

  lemma SameRowsTransitive(a: seq<TaskOrder>, b: seq<TaskOrder>, c: seq<TaskOrder>)
    requires SameRows(a, b) && SameRows(b, c)
    ensures SameRows(a, c)
  {
    forall k | 0 <= k < |a| ensures c[k] == a[k].(state := c[k].state) {
      assert b[k] == a[k].(state := b[k].state);
    }
  }

  lemma {:induction false} SetStateSameRows(orders: seq<TaskOrder>, id: O.OrderId, state: O.OrderState)
    ensures SameRows(orders, SetState(orders, id, state))
  {
    if orders != [] {
      SetStateSameRows(orders[..|orders| - 1], id, state);
    }
  }

  lemma {:induction false} SameRowsSameLines(a: seq<TaskOrder>, b: seq<TaskOrder>)
    requires SameRows(a, b)
    ensures FlatMap(a, Announced()) == FlatMap(b, Announced())
    ensures FlatMap(a, Orphaned()) == FlatMap(b, Orphaned())
    ensures FlatMap(a, Ordered()) == FlatMap(b, Ordered())
  {
    forall k | 0 <= k < |a| ensures Announced()(a[k]) == Announced()(b[k]) && Orphaned()(a[k]) == Orphaned()(b[k])
                                    && Ordered()(a[k]) == Ordered()(b[k]) {
      assert b[k] == a[k].(state := b[k].state);
    }
    FlatMapCongruent(a, b, Announced());
    FlatMapCongruent(a, b, Orphaned());
    FlatMapCongruent(a, b, Ordered());
  }

  // ---------------------------------------------------------------- what every step keeps

  /** Each row's escrow exists on the chain and holds the row's total. */
  ghost predicate Backed(t: Task) {
    forall o :: o in t.orders ==> t.chain.Has(o.escrow) && t.chain.Get(o.escrow).amount == o.total && o.items != []
  }

  /** Chain and rows after a step that adds no row. */
  ghost predicate Continues(t: Task, t': Task) {
    && SameRows(t.orders, t'.orders) && t'.dropped == t.dropped
    && C.Worth(t'.chain) == C.Worth(t.chain)
    && (Backed(t) ==> Backed(t'))
  }

  lemma ContinuesTransitive(a: Task, b: Task, c: Task)
    requires Continues(a, b) && Continues(b, c)
    ensures Continues(a, c)
  {
    SameRowsTransitive(a.orders, b.orders, c.orders);
  }

  lemma SameRowsBacked(t: Task, orders: seq<TaskOrder>)
    requires Backed(t) && SameRows(t.orders, orders)
    ensures Backed(t.(orders := orders))
  {
    forall o | o in orders ensures t.chain.Has(o.escrow) && t.chain.Get(o.escrow).amount == o.total && o.items != [] {
      var k :| 0 <= k < |orders| && orders[k] == o;
      assert t.orders[k] in t.orders && o == t.orders[k].(state := o.state);
    }
  }

  lemma ChainStepContinues(failSlugs: set<Slug>, t: Task, now: int, op: C.Op)
    ensures Continues(t, t.(chain := C.MockExecute(t.chain, failSlugs, now, op)))
  {
    var t' := t.(chain := C.MockExecute(t.chain, failSlugs, now, op));
    C.WorthIsConstant(t.chain, failSlugs, now, op);
    forall o | o in t.orders && t.chain.Has(o.escrow)
      ensures t'.chain.Has(o.escrow) && t'.chain.Get(o.escrow).amount == t.chain.Get(o.escrow).amount
    {
      C.MockSettledIsFinal(t.chain, failSlugs, now, op, o.escrow);
    }
  }

  lemma HappenContinues(failSlugs: set<Slug>, t: Task, e: Event)
    ensures Continues(t, Happen(failSlugs, t, e))
  {
    match e
    case ChainCall(now, op) => ChainStepContinues(failSlugs, t, now, op);
    case OrderEvent(id, state) =>
      SetStateSameRows(t.orders, id, state);
      if Backed(t) {
        SameRowsBacked(t, SetState(t.orders, id, state));
      }
  }

  lemma {:induction false} HappenAllContinues(failSlugs: set<Slug>, t: Task, events: seq<Event>)
    ensures Continues(t, HappenAll(failSlugs, t, events))
  {
    if events != [] {
      HappenAllContinues(failSlugs, t, events[..|events| - 1]);
      var t1 := HappenAll(failSlugs, t, events[..|events| - 1]);
      HappenContinues(failSlugs, t1, events[|events| - 1]);
      ContinuesTransitive(t, t1, HappenAll(failSlugs, t, events));
    }
  }

  lemma CancelRowContinues(ctx: Context, t: Task, k: nat, now: int)
    requires k < |t.orders|
    ensures Continues(t, CancelRow(ctx, t, k, now))
  {
    var t' := CancelRow(ctx, t, k, now);
    var op := C.Refund(t.orders[k].escrow);
    if Refundable(t.orders[k].state) && C.MockStep(t.chain, ctx.failSlugs, now, op).Success? {
      var t1 := t.(chain := C.MockExecute(t.chain, ctx.failSlugs, now, op));
      ChainStepContinues(ctx.failSlugs, t, now, op);
      assert SameRows(t1.orders, t'.orders);
      if Backed(t) {
        SameRowsBacked(t1, t'.orders);
      }
    }
  }

  lemma {:induction false} CancelRowsContinues(ctx: Context, t: Task, k: nat, now: int)
    requires k <= |t.orders|
    ensures Continues(t, CancelRows(ctx, t, k, now))
    decreases |t.orders| - k
  {
    if k < |t.orders| {
      CancelRowContinues(ctx, t, k, now);
      var t1 := CancelRow(ctx, t, k, now);
      CancelRowsContinues(ctx, t1, k + 1, now);
      ContinuesTransitive(t, t1, CancelRows(ctx, t1, k + 1, now));
    }
  }

  // ---------------------------------------------------------------- one attempt

  /** An attempt adds at most one row, for exactly the shop's items: an announced one if it counts as
      funded, and otherwise none or an unannounced one. */
  ghost predicate AttemptOk(t: Task, t': Task, shop: Shop, r: Attempt) {
    && t'.dropped == t.dropped && C.Worth(t'.chain) == C.Worth(t.chain) && (Backed(t) ==> Backed(t'))
    && ((SameRows(t.orders, t'.orders) && !r.Funded?)
        || exists row: TaskOrder :: SameRows(t.orders + [row], t'.orders) && row.items == shop.items && (row.announced <==> r.Funded?))
  }

  lemma ContinuesIsAttempt(t: Task, t': Task, shop: Shop, r: Attempt)
    requires Continues(t, t') && !r.Funded?
    ensures AttemptOk(t, t', shop, r)
  {
  }

  lemma AttemptAfter(a: Task, b: Task, c: Task, shop: Shop, r: Attempt)
    requires Continues(a, b) && AttemptOk(b, c, shop, r)
    ensures AttemptOk(a, c, shop, r)
  {
    if SameRows(b.orders, c.orders) && !r.Funded? {
      SameRowsTransitive(a.orders, b.orders, c.orders);
    } else {
      var row: TaskOrder :| SameRows(b.orders + [row], c.orders) && row.items == shop.items && (row.announced <==> r.Funded?);
      assert SameRows(a.orders + [row], b.orders + [row]);
      SameRowsTransitive(a.orders + [row], b.orders + [row], c.orders);
    }
  }

  lemma FundOrderOk(ctx: Context, t: Task, shop: Shop, quote: SeenQuote, total: nat, a: Answers)
    requires a.reply.Accepted? && FindPeer(ctx.peers, shop.slug).Some? && shop.items != []
    ensures var (t', r) := FundOrder(ctx, t, shop, quote, total, a); AttemptOk(t, t', shop, r)
  {
    var params := FundParamsOf(ctx, FindPeer(ctx.peers, shop.slug).value, quote, total, a);
    var funded := C.MockStep(t.chain, ctx.failSlugs, a.fundedAt, C.Fund(params));
    var (t', r) := FundOrder(ctx, t, shop, quote, total, a);
    if funded.Failure? {
      assert SameRows(t.orders, t'.orders);
    } else {
      ChainStepContinues(ctx.failSlugs, t, a.fundedAt, C.Fund(params));
      var row := TaskOrder(a.reply.orderId, shop.slug, shop.quoteId, shop.items, total, O.PaidInEscrow, shop.essential,
                           |funded.value.escrows|, a.announced);
      var t1 := t.(chain := funded.value, orders := t.orders + [row]);
      HappenAllContinues(ctx.failSlugs, t1, a.after);
      assert SameRows(t.orders + [row], t'.orders);
    }
  }

  lemma FundShopOk(ctx: Context, t: Task, shop: Shop, a: Answers)
    ensures var (t', r) := FundShop(ctx, t, shop, a); AttemptOk(t, t', shop, r)
  {
    var (t', r) := FundShop(ctx, t, shop, a);
    var quote := Usable(ctx, shop, a);
    if quote.None? {
      assert SameRows(t.orders, t'.orders);
    } else {
      var t1 := HappenAll(ctx.failSlugs, t, a.before);
      HappenAllContinues(ctx.failSlugs, t, a.before);
      var items := OrderItems(quote.value.items, shop.items);
      if a.reply.Accepted? && shop.items != [] && items.Some? {
        FundOrderOk(ctx, t1, shop, quote.value, OrderTotal(items.value), a);
        AttemptAfter(t, t1, t', shop, r);
      } else {
        ContinuesIsAttempt(t, t1, shop, r);
      }
    }
  }

  /** What an attempt does to the accounts. */
  lemma AttemptAccounts(t: Task, t': Task, shop: Shop, r: Attempt)
    requires AttemptOk(t, t', shop, r)
    ensures Accounted(t') == Accounted(t) + if r.Funded? then multiset(Lines(shop.items)) else multiset{}
  {
    if SameRows(t.orders, t'.orders) && !r.Funded? {
      SameRowsSameLines(t.orders, t'.orders);
    } else {
      var row: TaskOrder :| SameRows(t.orders + [row], t'.orders) && row.items == shop.items && (row.announced <==> r.Funded?);
      SameRowsSameLines(t.orders + [row], t'.orders);
      FlatMapAppend(t.orders, row, Announced());
    }
  }

  // ---------------------------------------------------------------- the whole saga

  lemma {:induction false} RepricedSameLines(quoted: seq<QuoteItem>, items: seq<QuoteItem>)
    ensures Lines(Repriced(quoted, items)) == Lines(items)
  {
    if items != [] {
      var init, last := items[..|items| - 1], items[|items| - 1];
      RepricedSameLines(quoted, init);
      var line := FindQuoteItem(quoted, last.sku);
      var priced := last.(unitPrice := if line.Some? then line.value.unitPrice else 0);
      FlatMapAppend(init, last, OneLine());
      FlatMapAppend(Repriced(quoted, init), priced, OneLine());
      assert items == init + [last];
    }
  }

  /** An alternative sells the same articles in the same quantities, at another merchant. */
  lemma {:induction false} AlternativeIsSameLines(ctx: Context, failed: Shop, now: int, quotes: seq<SeenQuote>)
    ensures var alternative := FindAlternative(ctx, failed, now, quotes);
            alternative.Some? ==>
              && Lines(alternative.value.items) == Lines(failed.items)
              && alternative.value.slug != failed.slug && alternative.value.essential == failed.essential
  {
    if quotes != [] {
      if IsAlternative(ctx, failed, now, quotes[0]) {
        RepricedSameLines(quotes[0].items, failed.items);
        FindPeerHasSlug(ctx.peers, quotes[0].slug);
      } else {
        AlternativeIsSameLines(ctx, failed, now, quotes[1..]);
      }
    }
  }

  lemma {:induction false} FindPeerHasSlug(peers: seq<Peer>, slug: Slug)
    ensures FindPeer(peers, slug).Some? ==> FindPeer(peers, slug).value.slug == slug
  {
    if peers != [] {
      FindPeerHasSlug(peers[1..], slug);
    }
  }

  /** What holds between the start of the saga and any later point of it. */
  ghost predicate Sound(t: Task, t': Task, shops: seq<Shop>) {
    && C.Worth(t'.chain) == C.Worth(t.chain) && (Backed(t) ==> Backed(t'))
    && forall d :: d in t'.dropped ==> d in t.dropped || (!d.shop.essential && d.shop in shops)
  }

  lemma GiveUpSound(ctx: Context, t: Task, shop: Shop, now: int)
    ensures var (t', ending) := GiveUpShop(ctx, t, shop, now);
            && Sound(t, t', [shop])
            && (ending.None? ==> !shop.essential && Accounted(t') == Accounted(t) + multiset(Lines(shop.items)))
  {
    if shop.essential {
      CancelRowsContinues(ctx, t, 0, now);
    } else {
      FlatMapAppend(t.dropped, Dropped(shop), DroppedLines());
    }
  }

  lemma SoundAfterAttempt(a: Task, b: Task, c: Task, tried: Shop, r: Attempt, shops: seq<Shop>)
    requires AttemptOk(a, b, tried, r) && Sound(b, c, shops)
    ensures Sound(a, c, shops)
  {
  }

  lemma RecoverSound(ctx: Context, t: Task, shop: Shop, turn: Turn)
    ensures var (t', ending) := Recover(ctx, t, shop, turn);
            Sound(t, t', [shop]) && (ending.None? ==> Accounted(t') == Accounted(t) + multiset(Lines(shop.items)))
  {
    var (t', ending) := Recover(ctx, t, shop, turn);
    var alternative := FindAlternative(ctx, shop, turn.alternativeAt, ctx.quotes);
    if alternative.None? {
      GiveUpSound(ctx, t, shop, turn.cancelAt);
    } else {
      AlternativeIsSameLines(ctx, shop, turn.alternativeAt, ctx.quotes);
      var (t1, r1) := FundShop(ctx, t, alternative.value, turn.second);
      FundShopOk(ctx, t, alternative.value, turn.second);
      AttemptAccounts(t, t1, alternative.value, r1);
      if r1.NotFunded? {
        GiveUpSound(ctx, t1, shop, turn.cancelAt);
      }
      SoundAfterAttempt(t, t1, t', alternative.value, r1, [shop]);
    }
  }

  lemma HandleShopSound(ctx: Context, t: Task, shop: Shop, turn: Turn)
    ensures var (t', ending) := HandleShop(ctx, t, shop, turn);
            Sound(t, t', [shop]) && (ending.None? ==> Accounted(t') == Accounted(t) + multiset(Lines(shop.items)))
  {
    var (t', ending) := HandleShop(ctx, t, shop, turn);
    var (t1, r1) := FundShop(ctx, t, shop, turn.first);
    FundShopOk(ctx, t, shop, turn.first);
    AttemptAccounts(t, t1, shop, r1);
    if r1.NotFunded? {
      RecoverSound(ctx, t1, shop, turn);
    }
    SoundAfterAttempt(t, t1, t', shop, r1, [shop]);
  }

  lemma SoundTransitive(a: Task, b: Task, c: Task, shops: seq<Shop>)
    requires shops != [] && Sound(a, b, [shops[0]]) && Sound(b, c, shops[1..])
    ensures Sound(a, c, shops)
  {
    assert forall s :: s in shops[1..] ==> s in shops;
  }

  lemma {:induction false} ApproveSound(ctx: Context, t: Task, shops: seq<Shop>, script: seq<Turn>)
    requires |script| == |shops|
    ensures var (t', ending) := Approve(ctx, t, shops, script);
            && Sound(t, t', shops)
            && (ending in {InProgress, Failed} ==> Accounted(t') == Accounted(t) + multiset(FlatMap(shops, ShopLines())))
    decreases |shops|
  {
    if shops != [] {
      var (t1, ending1) := HandleShop(ctx, t, shops[0], script[0]);
      var (t', ending) := Approve(ctx, t, shops, script);
      HandleShopSound(ctx, t, shops[0], script[0]);
      if ending1.None? {
        ApproveSound(ctx, t1, shops[1..], script[1..]);
        assert FlatMap(shops, ShopLines()) == Lines(shops[0].items) + FlatMap(shops[1..], ShopLines());
        SoundTransitive(t, t1, t', shops);
      } else {
        EndingOfShop(ctx, t, shops[0], script[0]);
      }
    }
  }

  lemma EndingOfShop(ctx: Context, t: Task, shop: Shop, turn: Turn)
    ensures HandleShop(ctx, t, shop, turn).1 in {None, Some(Aborted), Some(Cancelled)}
  {
  }

  ghost predicate Start(t: Task) {
    t.orders == [] && t.dropped == []
  }

  /** Wallet balance plus unrefunded escrows is the same after the saga as before it, however it ends and
      whatever else happened on the chain meanwhile; and every row is backed by an escrow of its total. */
  lemma {:induction false} MoneyIsConserved(ctx: Context, t: Task, shops: seq<Shop>, script: seq<Turn>)
    requires |script| == |shops| && Start(t)
    ensures var (t', ending) := Approve(ctx, t, shops, script);
            C.Worth(t'.chain) == C.Worth(t.chain) && Backed(t')
  {
    ApproveSound(ctx, t, shops, script);
  }

  /** When the saga reaches in_progress, the option's items are exactly those of the announced orders and
      the dropped shops together, each with its quantity, and no dropped shop is essential. */
  lemma {:induction false} InProgressAccountsForAll(ctx: Context, t: Task, shops: seq<Shop>, script: seq<Turn>)
    requires |script| == |shops| && Start(t) && Approve(ctx, t, shops, script).1 == InProgress
    ensures var t' := Approve(ctx, t, shops, script).0;
            && multiset(FlatMap(shops, ShopLines())) ==
               multiset(FlatMap(t'.orders, Announced())) + multiset(FlatMap(t'.dropped, DroppedLines()))
            && forall d :: d in t'.dropped ==> !d.shop.essential && d.shop in shops
  {
    ApproveSound(ctx, t, shops, script);
  }

  lemma {:induction false} OrderedSplits(orders: seq<TaskOrder>)
    ensures multiset(FlatMap(orders, Ordered())) == multiset(FlatMap(orders, Announced())) + multiset(FlatMap(orders, Orphaned()))
  {
    if orders != [] {
      OrderedSplits(orders[1..]);
    }
  }

  lemma {:induction false} NoOrphansExactly(orders: seq<TaskOrder>)
    requires forall o :: o in orders ==> o.items != []
    ensures FlatMap(orders, Orphaned()) == [] <==> forall o :: o in orders ==> o.announced
  {
    if orders != [] {
      assert orders[0] in orders && forall o :: o in orders[1..] ==> o in orders;
      NoOrphansExactly(orders[1..]);
      assert Lines(orders[0].items) != [];
      assert forall o :: o in orders <==> o == orders[0] || o in orders[1..];
    }
  }

  /** Every item is in exactly one funded order or one dropped shop if and only if no escrow-funded call
      threw after its escrow was funded. When one throws, its row stays behind and the same items are
      bought again from an alternative, or dropped as well. */
  lemma {:induction false} ExactlyOnceIffAnnounced(ctx: Context, t: Task, shops: seq<Shop>, script: seq<Turn>)
    requires |script| == |shops| && Start(t) && Approve(ctx, t, shops, script).1 == InProgress
    ensures var t' := Approve(ctx, t, shops, script).0;
            multiset(FlatMap(shops, ShopLines())) ==
            multiset(FlatMap(t'.orders, Ordered())) + multiset(FlatMap(t'.dropped, DroppedLines()))
            <==> forall o :: o in t'.orders ==> o.announced
  {
    var t' := Approve(ctx, t, shops, script).0;
    ApproveSound(ctx, t, shops, script);
    InProgressAccountsForAll(ctx, t, shops, script);
    OrderedSplits(t'.orders);
    NoOrphansExactly(t'.orders);
    ExtraIsEmpty(multiset(FlatMap(t'.orders, Announced())) + multiset(FlatMap(t'.dropped, DroppedLines())), FlatMap(t'.orders, Orphaned()));
  }

  lemma ExtraIsEmpty(m: multiset<Line>, extra: seq<Line>)
    ensures m + multiset(extra) == m <==> extra == []
  {
    if m + multiset(extra) == m {
      assert |m + multiset(extra)| == |m| + |extra|;
    }
  }
}
