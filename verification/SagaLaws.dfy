/** What the saga's merchant accepts, how the saga ends, and what a receipt sums, with every condition
    written out. */
module SagaLaws {
  import opened Results
  import opened Sums
  import opened Catalog
  import opened ShoppingOptions
  import opened FundingSaga
  import A = SagaAccounting
  import L = OptionLaws
  import R = SagaRunner
  import O = Orders
  import C = MockChain
  import P = EscrowProgram

  // ---------------------------------------------------------------- the merchant's order handler

  /** The first quoted line of the article has enough of it; the ordered line takes its price. */
  ghost predicate Priced(quoted: seq<QuoteItem>, requested: QuoteItem, ordered: QuoteItem) {
    exists k :: 0 <= k < |quoted| && quoted[k].sku == requested.sku && requested.qty <= quoted[k].qty
                && (forall j :: 0 <= j < k ==> quoted[j].sku != requested.sku)
                && ordered == QuoteItem(requested.sku, requested.qty, quoted[k].unitPrice)
  }

  ghost predicate PricedLines(quoted: seq<QuoteItem>, requested: seq<QuoteItem>, ordered: seq<QuoteItem>) {
    |ordered| == |requested| && forall k :: 0 <= k < |requested| ==> Priced(quoted, requested[k], ordered[k])
  }

  lemma {:induction false} PricedExactly(quoted: seq<QuoteItem>, requested: QuoteItem, ordered: QuoteItem)
    ensures Priced(quoted, requested, ordered) <==>
              var line := FindQuoteItem(quoted, requested.sku);
              line.Some? && requested.qty <= line.value.qty
              && ordered == QuoteItem(requested.sku, requested.qty, line.value.unitPrice)
  {
    var line := FindQuoteItem(quoted, requested.sku);
    if Priced(quoted, requested, ordered) {
      var k :| 0 <= k < |quoted| && quoted[k].sku == requested.sku && requested.qty <= quoted[k].qty
               && (forall j :: 0 <= j < k ==> quoted[j].sku != requested.sku)
               && ordered == QuoteItem(requested.sku, requested.qty, quoted[k].unitPrice);
      L.FindsFirst(quoted, requested.sku, k);
    } else if line.Some? {
      var k := L.FoundIsFirst(quoted, requested.sku);
    }
  }

  lemma {:induction false} OrderItemsExactly(quoted: seq<QuoteItem>, requested: seq<QuoteItem>, ordered: seq<QuoteItem>)
    ensures OrderItems(quoted, requested) == Some(ordered) <==> PricedLines(quoted, requested, ordered)
    decreases |requested|
  {
    if requested == [] {
    } else {
      var init, r := requested[..|requested| - 1], requested[|requested| - 1];
      if ordered != [] {
        var before, last := ordered[..|ordered| - 1], ordered[|ordered| - 1];
        assert ordered == before + [last];
        OrderItemsExactly(quoted, init, before);
        PricedExactly(quoted, r, last);
        LastLine(quoted, requested, ordered);
      }
    }
  }

  lemma LastLine(quoted: seq<QuoteItem>, requested: seq<QuoteItem>, ordered: seq<QuoteItem>)
    requires requested != [] && ordered != []
    ensures PricedLines(quoted, requested, ordered) <==>
              PricedLines(quoted, requested[..|requested| - 1], ordered[..|ordered| - 1])
              && Priced(quoted, requested[|requested| - 1], ordered[|ordered| - 1])
  {
    var init, before := requested[..|requested| - 1], ordered[..|ordered| - 1];
    if PricedLines(quoted, init, before) && Priced(quoted, requested[|requested| - 1], ordered[|ordered| - 1]) {
      forall k | 0 <= k < |requested| ensures Priced(quoted, requested[k], ordered[k]) {
        if k < |requested| - 1 {
          assert requested[k] == init[k] && ordered[k] == before[k];
        }
      }
    } else if PricedLines(quoted, requested, ordered) {
      forall k | 0 <= k < |init| ensures Priced(quoted, init[k], before[k]) {
        assert Priced(quoted, requested[k], ordered[k]);
      }
    }
  }

  /** The merchant takes an order exactly if it asks for the whole quote, or lists at least one line and the
      quote has each of them in that quantity; and it takes it at the quoted prices, line by line. */
  lemma OrderAcceptedExactly(quoted: seq<QuoteItem>, requested: Option<seq<QuoteItem>>, ordered: seq<QuoteItem>)
    ensures OrderedItems(quoted, requested) == Some(ordered) <==>
              match requested
              case None => ordered == quoted
              case Some(lines) => |lines| > 0 && PricedLines(quoted, lines, ordered)
  {
    if requested.Some? {
      OrderItemsExactly(quoted, requested.value, ordered);
    }
  }

  // ---------------------------------------------------------------- endings

  /** What each ending says: in progress, some row is neither cancelled nor refunded; failed, every row is one
      of the two; cancelled, an essential shop of the option could not be funded; aborted, an order request
      got no answer. */
  lemma {:induction false} EndingsMean(ctx: Context, t: Task, shops: seq<Shop>, script: seq<Turn>)
    requires |script| == |shops|
    ensures var (u, ending) := Approve(ctx, t, shops, script);
            match ending
            case InProgress => exists o :: o in u.orders && o.state != O.Cancelled && o.state != O.Refunded
            case Failed => forall o :: o in u.orders ==> o.state == O.Cancelled || o.state == O.Refunded
            case Cancelled => exists s :: s in shops && s.essential
            case Aborted => exists k :: 0 <= k < |script| && (script[k].first.reply.NoAnswer? || script[k].second.reply.NoAnswer?)
    decreases |shops|
  {
    if shops != [] {
      var (t1, ending) := HandleShop(ctx, t, shops[0], script[0]);
      ShopEndings(ctx, t, shops[0], script[0]);
      if ending.None? {
        EndingsMean(ctx, t1, shops[1..], script[1..]);
        var (u, e) := Approve(ctx, t1, shops[1..], script[1..]);
        if e.Aborted? {
          var k :| 0 <= k < |script[1..]| && (script[1..][k].first.reply.NoAnswer? || script[1..][k].second.reply.NoAnswer?);
          assert script[k + 1] == script[1..][k];
        } else if e.Cancelled? {
          var s :| s in shops[1..] && s.essential;
          assert s in shops;
        }
      } else {
        assert shops[0] in shops;
      }
    }
  }

  lemma ThrewMeans(ctx: Context, t: Task, shop: Shop, a: Answers)
    ensures FundShop(ctx, t, shop, a).1.Threw? ==> a.reply.NoAnswer?
    ensures FundShop(ctx, t, shop, a).1.Funded? ==> a.reply.Accepted? && a.announced
    ensures FundShop(ctx, t, shop, a).0.dropped == t.dropped
  {
    A.HappenAllContinues(ctx.failSlugs, t, a.before);
    var quote := Usable(ctx, shop, a);
    if quote.Some? {
      var t1 := HappenAll(ctx.failSlugs, t, a.before);
      var items := OrderItems(quote.value.items, shop.items);
      if a.reply.Accepted? && shop.items != [] && items.Some? {
        FundKeepsDropped(ctx, t1, shop, quote.value, OrderTotal(items.value), a);
      }
    }
  }

  lemma FundKeepsDropped(ctx: Context, t: Task, shop: Shop, quote: SeenQuote, total: nat, a: Answers)
    requires a.reply.Accepted? && FindPeer(ctx.peers, shop.slug).Some?
    ensures FundOrder(ctx, t, shop, quote, total, a).0.dropped == t.dropped
  {
    forall s: Task ensures HappenAll(ctx.failSlugs, s, a.after).dropped == s.dropped {
      A.HappenAllContinues(ctx.failSlugs, s, a.after);
    }
  }

  lemma {:induction false} CancelKeepsDropped(ctx: Context, t: Task, k: nat, now: int)
    requires k <= |t.orders|
    ensures CancelRows(ctx, t, k, now).dropped == t.dropped
    decreases |t.orders| - k
  {
    if k < |t.orders| {
      CancelKeepsDropped(ctx, CancelRow(ctx, t, k, now), k + 1, now);
    }
  }

  /** One shop: the loop goes on without it only if it was dropped, which happens to optional shops alone;
      the task is cancelled only for an essential shop. */
  lemma ShopEndings(ctx: Context, t: Task, shop: Shop, turn: Turn)
    ensures var (u, ending) := HandleShop(ctx, t, shop, turn);
            && (ending == Some(Cancelled) ==> shop.essential)
            && (ending == Some(Aborted) ==> turn.first.reply.NoAnswer? || turn.second.reply.NoAnswer?)
            && (ending.Some? ==> ending.value.Cancelled? || ending.value.Aborted?)
            && (u.dropped == t.dropped || (u.dropped == t.dropped + [Dropped(shop)] && !shop.essential && ending.None?))
            && (ending.None? && u.dropped == t.dropped ==>
                  (turn.first.reply.Accepted? && turn.first.announced) || (turn.second.reply.Accepted? && turn.second.announced))
  {
    var (t1, r1) := FundShop(ctx, t, shop, turn.first);
    ThrewMeans(ctx, t, shop, turn.first);
    if r1.NotFunded? {
      var alternative := FindAlternative(ctx, shop, turn.alternativeAt, ctx.quotes);
      CancelKeepsDropped(ctx, t1, 0, turn.cancelAt);
      if alternative.Some? {
        var (t2, r2) := FundShop(ctx, t1, alternative.value, turn.second);
        ThrewMeans(ctx, t1, alternative.value, turn.second);
        CancelKeepsDropped(ctx, t2, 0, turn.cancelAt);
      }
    }
  }

  /** Only optional shops of the option are ever dropped, and whatever was dropped before stays. */
  lemma {:induction false} OnlyOptionalIsDropped(ctx: Context, t: Task, shops: seq<Shop>, script: seq<Turn>, k: nat)
    requires |script| == |shops|
    ensures var dropped := Approve(ctx, t, shops, script).0.dropped;
            t.dropped <= dropped && (|t.dropped| <= k < |dropped| ==> dropped[k].shop in shops && !dropped[k].shop.essential)
    decreases |shops|
  {
    if shops != [] {
      var (t1, ending) := HandleShop(ctx, t, shops[0], script[0]);
      ShopEndings(ctx, t, shops[0], script[0]);
      if ending.None? {
        OnlyOptionalIsDropped(ctx, t1, shops[1..], script[1..], k);
      }
    }
  }

  // ---------------------------------------------------------------- rows and receipts

  /** A row is looked up by its id, the first one if there are several. */
  lemma {:induction false} FindOrderExactly(orders: seq<TaskOrder>, id: O.OrderId)
    ensures match R.FindOrder(orders, id)
            case None => forall o :: o in orders ==> o.orderId != id
            case Some(row) => exists k :: 0 <= k < |orders| && orders[k] == row && row.orderId == id
                                          && forall j :: 0 <= j < k ==> orders[j].orderId != id
  {
    if orders != [] && orders[0].orderId != id {
      FindOrderExactly(orders[1..], id);
      if R.FindOrder(orders[1..], id).Some? {
        var row := R.FindOrder(orders[1..], id).value;
        var k :| 0 <= k < |orders[1..]| && orders[1..][k] == row && row.orderId == id
                 && forall j :: 0 <= j < k ==> orders[1..][j].orderId != id;
        forall j | 0 <= j < k + 1 ensures orders[j].orderId != id {
          if j > 0 {
            assert orders[1..][j - 1].orderId != id;
          }
        }
        assert orders[k + 1] == row;
      } else {
        assert forall o :: o in orders ==> o == orders[0] || o in orders[1..];
      }
    }
  }

  function TotalOf(): TaskOrder -> int {
    (o: TaskOrder) => o.total
  }

  function CompletedRows(orders: seq<TaskOrder>): seq<TaskOrder> {
    if orders == [] then [] else (if orders[0].state == O.Completed then [orders[0]] else []) + CompletedRows(orders[1..])
  }

  /** A receipt sums the totals of the completed rows; what was refunded or cancelled is not on it. */
  lemma {:induction false} ReceiptSumsCompleted(orders: seq<TaskOrder>)
    ensures SumBy(orders, R.CompletedTotal()) == SumBy(CompletedRows(orders), TotalOf())
  {
    if orders != [] {
      ReceiptSumsCompleted(orders[1..]);
      var rest := CompletedRows(orders[1..]);
      if orders[0].state == O.Completed {
        assert CompletedRows(orders)[1..] == rest;
      } else {
        assert CompletedRows(orders) == rest;
      }
    }
  }

  // ---------------------------------------------------------------- cancelling a row

  /** A row is refunded exactly if it is paid, in preparation or ready and its escrow can be refunded: unsettled,
      and still funded or past its deadline. Then the escrow's amount returns to the wallet. */
  lemma CancelRowExactly(ctx: Context, t: Task, k: nat, now: int)
    requires k < |t.orders|
    ensures var o := t.orders[k];
            var open := o.state == O.PaidInEscrow || o.state == O.Preparing || o.state == O.Ready;
            var refundable := t.chain.Has(o.escrow)
                              && var e := t.chain.Get(o.escrow);
                                 e.state == P.Funded || (e.state !in {P.Released, P.Refunded} && e.releaseDeadline <= now);
            if open && refundable then
              var e := t.chain.Get(o.escrow);
              CancelRow(ctx, t, k, now) ==
              Task(C.Chain(t.chain.balance + e.amount, t.chain.escrows[o.escrow - 1 := e.(state := P.Refunded)]),
                   t.orders[k := o.(state := O.Refunded)], t.dropped)
            else CancelRow(ctx, t, k, now) == t
  {
  }
}
