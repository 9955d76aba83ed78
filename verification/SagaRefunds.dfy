/** What cancelling a task gives back. */
module SagaRefunds {
  import opened Results
  import opened Sums
  import opened Catalog
  import opened ShoppingOptions
  import opened FundingSaga
  import opened SagaCharges
  import A = SagaAccounting
  import P = EscrowProgram
  import C = MockChain
  import O = Orders

  // ---------------------------------------------------------------- every row has an escrow of its own

  /** Escrow ids grow with the chain, and a row is written right after its escrow. */
  ghost predicate Increasing(t: Task) {
    && (forall k :: 0 <= k < |t.orders| ==> t.chain.Has(t.orders[k].escrow))
    && (forall i, j :: 0 <= i < j < |t.orders| ==> t.orders[i].escrow < t.orders[j].escrow)
  }

  lemma SameRowsKeep(t: Task, t': Task)
    requires Increasing(t) && A.SameRows(t.orders, t'.orders) && |t.chain.escrows| <= |t'.chain.escrows|
    ensures Increasing(t')
  {
    forall k | 0 <= k < |t.orders| ensures t'.orders[k].escrow == t.orders[k].escrow {
      assert t'.orders[k] == t.orders[k].(state := t'.orders[k].state);
    }
  }

  lemma {:induction false} HappenAllKeeps(failSlugs: set<Slug>, t: Task, events: seq<Event>)
    requires Increasing(t)
    ensures Increasing(HappenAll(failSlugs, t, events))
  {
    if events != [] {
      var init, e := events[..|events| - 1], events[|events| - 1];
      HappenAllKeeps(failSlugs, t, init);
      var t1 := HappenAll(failSlugs, t, init);
      A.HappenContinues(failSlugs, t1, e);
      SameRowsKeep(t1, Happen(failSlugs, t1, e));
    }
  }

  lemma {:induction false} CancelRowsKeep(ctx: Context, t: Task, k: nat, now: int)
    requires Increasing(t) && k <= |t.orders|
    ensures Increasing(CancelRows(ctx, t, k, now))
    decreases |t.orders| - k
  {
    if k < |t.orders| {
      A.CancelRowContinues(ctx, t, k, now);
      SameRowsKeep(t, CancelRow(ctx, t, k, now));
      CancelRowsKeep(ctx, CancelRow(ctx, t, k, now), k + 1, now);
    }
  }

  lemma FundOrderKeeps(ctx: Context, t: Task, shop: Shop, quote: SeenQuote, total: nat, a: Answers)
    requires a.reply.Accepted? && FindPeer(ctx.peers, shop.slug).Some? && Increasing(t)
    ensures Increasing(FundOrder(ctx, t, shop, quote, total, a).0)
  {
    var params := FundParamsOf(ctx, FindPeer(ctx.peers, shop.slug).value, quote, total, a);
    var funded := C.MockStep(t.chain, ctx.failSlugs, a.fundedAt, C.Fund(params));
    if funded.Success? {
      var row := TaskOrder(a.reply.orderId, shop.slug, shop.quoteId, shop.items, total, O.PaidInEscrow, shop.essential,
                           |funded.value.escrows|, a.announced);
      HappenAllKeeps(ctx.failSlugs, t.(chain := funded.value, orders := t.orders + [row]), a.after);
    }
  }

  lemma FundShopKeeps(ctx: Context, t: Task, shop: Shop, a: Answers)
    requires Increasing(t)
    ensures Increasing(FundShop(ctx, t, shop, a).0)
  {
    var quote := Usable(ctx, shop, a);
    if quote.Some? {
      var t1 := HappenAll(ctx.failSlugs, t, a.before);
      HappenAllKeeps(ctx.failSlugs, t, a.before);
      var items := OrderItems(quote.value.items, shop.items);
      if a.reply.Accepted? && shop.items != [] && items.Some? {
        FundOrderKeeps(ctx, t1, shop, quote.value, OrderTotal(items.value), a);
      }
    }
  }

  /** A shop leaves the rows in order; and if it ends the saga by cancelling, the task before the
      cancellation had its rows in order too. */
  lemma HandleShopKeeps(ctx: Context, t: Task, shop: Shop, turn: Turn) returns (before: Task)
    requires Increasing(t)
    ensures Increasing(HandleShop(ctx, t, shop, turn).0) && Increasing(before)
    ensures HandleShop(ctx, t, shop, turn).1 == Some(Cancelled) ==>
              HandleShop(ctx, t, shop, turn).0 == CancelRows(ctx, before, 0, turn.cancelAt)
  {
    var (t1, r1) := FundShop(ctx, t, shop, turn.first);
    FundShopKeeps(ctx, t, shop, turn.first);
    before := t1;
    var alternative := FindAlternative(ctx, shop, turn.alternativeAt, ctx.quotes);
    if r1.NotFunded? && alternative.Some? {
      before := FundShop(ctx, t1, alternative.value, turn.second).0;
      FundShopKeeps(ctx, t1, alternative.value, turn.second);
    }
    CancelRowsKeep(ctx, before, 0, turn.cancelAt);
  }

  lemma {:induction false} ApproveKeeps(ctx: Context, t: Task, shops: seq<Shop>, script: seq<Turn>)
    returns (before: Task, now: int)
    requires |script| == |shops| && Increasing(t)
    ensures Increasing(Approve(ctx, t, shops, script).0) && Increasing(before)
    ensures Approve(ctx, t, shops, script).1 == Cancelled ==> Approve(ctx, t, shops, script).0 == CancelRows(ctx, before, 0, now)
    decreases |shops|
  {
    if shops == [] {
      before, now := t, 0;
    } else {
      before := HandleShopKeeps(ctx, t, shops[0], script[0]);
      now := script[0].cancelAt;
      var (t1, ending) := HandleShop(ctx, t, shops[0], script[0]);
      if ending.None? {
        before, now := ApproveKeeps(ctx, t1, shops[1..], script[1..]);
      }
    }
  }

  // ---------------------------------------------------------------- what cancelTask gives back

  predicate CanRefund(e: C.Escrow, now: int) {
    !e.state.Settled() && (e.state.Funded? || now >= e.releaseDeadline)
  }

  ghost predicate Returned(t: Task, k: nat, now: int)
    requires Increasing(t) && k < |t.orders|
  {
    Refundable(t.orders[k].state) && CanRefund(t.chain.Get(t.orders[k].escrow), now)
  }

  lemma {:induction false} CancelRowsEffect(ctx: Context, t: Task, k: nat, now: int, j: nat)
    requires Increasing(t) && k <= |t.orders| && j < |t.orders|
    ensures var t' := CancelRows(ctx, t, k, now);
            && |t'.orders| == |t.orders| && t'.orders[j].escrow == t.orders[j].escrow && t'.chain.Has(t.orders[j].escrow)
            && t'.chain.Get(t.orders[j].escrow).state ==
               (if j >= k && Returned(t, j, now) then P.Refunded else t.chain.Get(t.orders[j].escrow).state)
            && t'.orders[j].state == if j >= k && Returned(t, j, now) then O.Refunded else t.orders[j].state
    decreases |t.orders| - k
  {
    if k < |t.orders| {
      CancelRowsEffect(ctx, CancelRow(ctx, t, k, now), k + 1, now, j);
    }
  }

  /** Cancelling gives an order's money back exactly when its row is still open and its escrow is
      untouched or past its deadline; the other escrows stay as they are. */
  ghost predicate RefundsExactly(t: Task, t': Task, now: int) {
    && |t'.orders| == |t.orders|
    && forall j :: 0 <= j < |t.orders| ==>
         var id := t.orders[j].escrow;
         && t.chain.Has(id) && t'.chain.Has(id)
         && var e := t.chain.Get(id);
            t'.chain.Get(id).state ==
              if Refundable(t.orders[j].state) && !e.state.Settled() && (e.state == P.Funded || now >= e.releaseDeadline)
              then P.Refunded else e.state
  }

  lemma {:induction false} CancelRefunds(ctx: Context, t: Task, now: int)
    requires Increasing(t)
    ensures RefundsExactly(t, CancelRows(ctx, t, 0, now), now)
  {
    forall j: nat | j < |t.orders|
      ensures |CancelRows(ctx, t, 0, now).orders| == |t.orders|
      ensures var id := t.orders[j].escrow;
              && t.chain.Has(id) && CancelRows(ctx, t, 0, now).chain.Has(id)
              && var e := t.chain.Get(id);
                 CancelRows(ctx, t, 0, now).chain.Get(id).state ==
                   if Refundable(t.orders[j].state) && !e.state.Settled() && (e.state == P.Funded || now >= e.releaseDeadline)
                   then P.Refunded else e.state
    {
      CancelRowsEffect(ctx, t, 0, now, j);
    }
    A.CancelRowsContinues(ctx, t, 0, now);
  }

  /** When the buyer cancels an approved task, after whatever has happened to it since. */
  lemma {:induction false} CancelRefundsExactly(ctx: Context, t: Task, shops: seq<Shop>, script: seq<Turn>, since: seq<Event>, now: int)
    requires |script| == |shops| && A.Start(t)
    ensures var task := HappenAll(ctx.failSlugs, Approve(ctx, t, shops, script).0, since);
            RefundsExactly(task, CancelRows(ctx, task, 0, now), now)
  {
    var _, _ := ApproveKeeps(ctx, t, shops, script);
    HappenAllKeeps(ctx.failSlugs, Approve(ctx, t, shops, script).0, since);
    CancelRefunds(ctx, HappenAll(ctx.failSlugs, Approve(ctx, t, shops, script).0, since), now);
  }

  /** When the saga itself cancels: what it leaves is exactly that cancellation of the task it had built. */
  lemma CancelledSagaRefundsExactly(ctx: Context, t: Task, shops: seq<Shop>, script: seq<Turn>) returns (before: Task, now: int)
    requires |script| == |shops| && A.Start(t) && Approve(ctx, t, shops, script).1 == Cancelled
    ensures Approve(ctx, t, shops, script).0 == CancelRows(ctx, before, 0, now)
    ensures RefundsExactly(before, CancelRows(ctx, before, 0, now), now)
  {
    before, now := ApproveKeeps(ctx, t, shops, script);
    CancelRefunds(ctx, before, now);
  }

  // ---------------------------------------------------------------- money that stays in escrow

  function DemoShop(slug: Slug): Shop {
    Shop(slug, slug, slug, [QuoteItem(5, 1, 100)], 100, 0, true)
  }

  /** The first shop accepts and starts preparing; the second refuses, and no quote is left in time. */
  function DemoScript(): seq<Turn> {
    var accepted := DemoAnswers(10, true).(after := [ChainCall(1, C.MarkPreparing(1))]);
    var refused := DemoAnswers(11, true).(reply := Refused);
    [Turn(accepted, 0, refused, 0), Turn(refused, 1_000, refused, 100)]
  }

  /** An event after the funding. */
  lemma FundShopThen(ctx: Context, t: Task, shop: Shop, a: Answers, e: Event)
    requires a.after == [] && FundShop(ctx, t, shop, a).1.Funded?
    ensures FundShop(ctx, t, shop, a.(after := [e])) == (Happen(ctx.failSlugs, FundShop(ctx, t, shop, a).0, e), Funded)
  {
    assert [e][..0] == [];
  }

  lemma DemoFirst(ctx: Context, wallet: P.Address, t: Task)
    requires ctx == DemoContext(wallet) && t == Task(C.Chain(1_000, []), [], [])
    ensures var (t1, r) := FundShop(ctx, t, DemoShop(1), DemoScript()[0].first);
            && r == Funded && |t1.orders| == 1 && t1.orders[0].escrow == 1 && t1.orders[0].state == O.PaidInEscrow
            && t1.chain.balance == 900 && |t1.chain.escrows| == 1 && t1.chain.escrows[0].state == P.Preparing
            && t1.chain.escrows[0].amount == 100 && t1.chain.escrows[0].releaseDeadline == 500
  {
    var a, e := DemoAnswers(10, true), ChainCall(1, C.MarkPreparing(1));
    DemoAttempt(ctx, t, 1, 10, true);
    FundShopThen(ctx, t, DemoShop(1), a, e);
    var t1 := FundShop(ctx, t, DemoShop(1), a).0;
    assert t1.chain.Has(1) && t1.chain.Get(1).state == P.Funded;
    assert t1.orders == [t1.orders[0]];
  }

  lemma {:induction false} DemoSecondShop(ctx: Context, wallet: P.Address, t: Task)
    requires ctx == DemoContext(wallet)
    ensures HandleShop(ctx, t, DemoShop(2), DemoScript()[1]) == (CancelRows(ctx, t, 0, 100), Some(Cancelled))
  {
    assert ctx.peers[1..] == [Peer(2, 2, 0)] && ctx.quotes[1..] == [DemoQuote(2, 2)] && [DemoQuote(2, 2)][1..] == [];
    assert Usable(ctx, DemoShop(2), DemoScript()[1].first) == Some(DemoQuote(2, 2));
    assert FindAlternative(ctx, DemoShop(2), 1_000, []) == None;
    assert FindAlternative(ctx, DemoShop(2), 1_000, [DemoQuote(2, 2)]) == None;
  }

  /** An order in preparation before its deadline keeps the buyer's money in escrow, although the task is
      reported as cancelled. */
  lemma PreparingStaysInEscrow(wallet: P.Address)
    ensures var ctx := DemoContext(wallet);
            var (t, ending) := Approve(ctx, Task(C.Chain(1_000, []), [], []), [DemoShop(1), DemoShop(2)], DemoScript());
            && ending == Cancelled && t.chain.balance == 900
            && |t.chain.escrows| == 1 && t.chain.escrows[0].state == P.Preparing && t.chain.escrows[0].amount == 100
  {
    var ctx, t, shops, script := DemoContext(wallet), Task(C.Chain(1_000, []), [], []), [DemoShop(1), DemoShop(2)], DemoScript();
    DemoFirst(ctx, wallet, t);
    var t1 := FundShop(ctx, t, DemoShop(1), script[0].first).0;
    assert HandleShop(ctx, t, DemoShop(1), script[0]) == (t1, None);
    assert shops[1..] == [DemoShop(2)] && script[1..] == [script[1]];
    DemoSecondShop(ctx, wallet, t1);
    assert CancelRow(ctx, t1, 0, 100) == t1;
    assert CancelRows(ctx, t1, 0, 100) == CancelRows(ctx, t1, 1, 100) == t1;
    assert Approve(ctx, t1, [DemoShop(2)], [script[1]]) == (t1, Cancelled);
  }
}
