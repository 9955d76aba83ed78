/** The bridge's saga over its tables and the mock chain; each method does what module FundingSaga says. */
module SagaRunner {
  import opened Results
  import opened Sums
  import opened Catalog
  import opened ShoppingOptions
  import opened FundingSaga
  import C = MockChain
  import O = Orders

  class Orchestrator {
    const ctx: Context
    const chain: C.MockChainProvider
    var orders: seq<TaskOrder>
    var dropped: seq<Dropped>

    constructor (ctx: Context, chain: C.MockChainProvider)
      ensures this.ctx == ctx && this.chain == chain && orders == [] && dropped == []
    {
      this.ctx := ctx;
      this.chain := chain;
      orders, dropped := [], [];
    }

    /** The provider fails the shops the context says it fails. */
    ghost predicate Valid() {
      chain.failSlugs == ctx.failSlugs
    }

    function View(): Task
      reads this, chain
    {
      Task(chain.View(), orders, dropped)
    }

    method Execute(now: int, op: C.Op)
      requires Valid()
      modifies chain
      ensures chain.View() == C.MockExecute(old(chain.View()), ctx.failSlugs, now, op)
    {
      match op {
        case Fund(p) => var _, _ := chain.Fund(p, now);
        case MarkPreparing(id) => var _ := chain.MarkPreparing(id, now);
        case MarkReady(id) => var _ := chain.MarkReady(id, now);
        case ConfirmPickup(id, hash) => var _ := chain.ConfirmPickup(id, hash, now);
        case Refund(id) => var _ := chain.Refund(id, now);
        case UserRelease(id) => var _ := chain.UserRelease(id, now);
      }
    }

    /** handleOrderEvent: the payload's state overwrites the row. */
    method HandleOrderEvent(id: O.OrderId, state: O.OrderState)
      modifies this`orders
      ensures orders == SetState(old(orders), id, state)
    {
      var updated: seq<TaskOrder> := [];
      for k := 0 to |orders|
        invariant updated == SetState(orders[..k], id, state)
      {
        assert orders[..k + 1][..k] == orders[..k];
        var row := orders[k];
        updated := updated + [if row.orderId == id then row.(state := state) else row];
      }
      assert orders[..|orders|] == orders;
      orders := updated;
    }

    method Wait(events: seq<Event>)
      requires Valid()
      modifies this, chain
      ensures View() == HappenAll(ctx.failSlugs, old(View()), events)
    {
      for k := 0 to |events|
        invariant View() == HappenAll(ctx.failSlugs, old(View()), events[..k])
      {
        assert events[..k + 1][..k] == events[..k];
        match events[k] {
          case ChainCall(now, op) => Execute(now, op);
          case OrderEvent(id, state) => HandleOrderEvent(id, state);
        }
      }
      assert events[..|events|] == events;
    }

    method FundShop(shop: Shop, a: Answers) returns (r: Attempt)
      requires Valid()
      modifies this, chain
      ensures (View(), r) == FundingSaga.FundShop(ctx, old(View()), shop, a)
    {
      var peer := FindPeer(ctx.peers, shop.slug);
      if peer.None? { return NotFunded; }
      var quote := FindQuote(ctx.quotes, shop.quoteId);
      if quote.None? { return NotFunded; }
      if !quote.value.verified || !a.signatureOk || quote.value.validUntil <= a.now { return NotFunded; }
      Wait(a.before);
      if a.reply.NoAnswer? { return Threw; }
      if a.reply.Refused? { return NotFunded; }
      var items, total := PlaceOrder(quote.value.items, Some(shop.items));
      if items.None? { return NotFunded; }
      r := FundAccepted(shop, peer.value, quote.value, total, a);
    }

    method FundAccepted(shop: Shop, peer: Peer, quote: SeenQuote, total: nat, a: Answers) returns (r: Attempt)
      requires Valid() && a.reply.Accepted? && FindPeer(ctx.peers, shop.slug) == Some(peer)
      modifies this, chain
      ensures (View(), r) == FundOrder(ctx, old(View()), shop, quote, total, a)
    {
      var funded, escrow := chain.Fund(FundParamsOf(ctx, peer, quote, total, a), a.fundedAt);
      if funded.Fail? { return NotFunded; }
      var row := TaskOrder(a.reply.orderId, shop.slug, shop.quoteId, shop.items, total, O.PaidInEscrow, shop.essential,
                           escrow, a.announced);
      orders := orders + [row];
      Wait(a.after);
      r := if a.announced then Funded else NotFunded;
    }

    method FindAlternativeShop(failed: Shop, now: int) returns (r: Option<Shop>)
      ensures r == FindAlternative(ctx, failed, now, ctx.quotes)
    {
      var k := 0;
      while k < |ctx.quotes|
        invariant 0 <= k <= |ctx.quotes|
        invariant FindAlternative(ctx, failed, now, ctx.quotes) == FindAlternative(ctx, failed, now, ctx.quotes[k..])
      {
        var q := ctx.quotes[k];
        assert ctx.quotes[k..][1..] == ctx.quotes[k + 1..];
        k := k + 1;
        if !q.active || !q.verified { continue; }
        if q.slug == failed.slug { continue; }
        if q.validUntil <= now { continue; }
        if !Covers(q.items, failed.items) { continue; }
        if FindPeer(ctx.peers, q.slug).None? { continue; }
        return Some(AlternativeFrom(ctx, failed, q));
      }
      return None;
    }

    method CancelTask(now: int)
      requires Valid()
      modifies this`orders, chain
      ensures View() == CancelRows(ctx, old(View()), 0, now)
    {
      var k := 0;
      while k < |orders|
        invariant 0 <= k <= |orders|
        invariant dropped == old(dropped)
        invariant CancelRows(ctx, old(View()), 0, now) == CancelRows(ctx, View(), k, now)
      {
        if Refundable(orders[k].state) {
          var refunded := chain.Refund(orders[k].escrow, now);
          if refunded.Pass? {
            orders := orders[k := orders[k].(state := O.Refunded)];
          }
        }
        k := k + 1;
      }
    }

    method GiveUp(shop: Shop, now: int) returns (ending: Option<Ending>)
      requires Valid()
      modifies this, chain
      ensures (View(), ending) == GiveUpShop(ctx, old(View()), shop, now)
    {
      if !shop.essential {
        dropped := dropped + [Dropped(shop)];
        return None;
      }
      CancelTask(now);
      return Some(Cancelled);
    }

    method TryShop(shop: Shop, turn: Turn) returns (ending: Option<Ending>)
      requires Valid()
      modifies this, chain
      ensures (View(), ending) == HandleShop(ctx, old(View()), shop, turn)
    {
      var r := FundShop(shop, turn.first);
      if r.Threw? { return Some(Aborted); }
      if r.Funded? { return None; }
      var alternative := FindAlternativeShop(shop, turn.alternativeAt);
      if alternative.Some? {
        r := FundShop(alternative.value, turn.second);
        if r.Threw? { return Some(Aborted); }
        if r.Funded? { return None; }
      }
      ending := GiveUp(shop, turn.cancelAt);
    }

    method ApprovePayment(shops: seq<Shop>, script: seq<Turn>) returns (ending: Ending)
      requires Valid() && |script| == |shops|
      modifies this, chain
      ensures (View(), ending) == Approve(ctx, old(View()), shops, script)
    {
      var k := 0;
      while k < |shops|
        invariant 0 <= k <= |shops|
        invariant Approve(ctx, old(View()), shops, script) == Approve(ctx, View(), shops[k..], script[k..])
      {
        assert shops[k..][1..] == shops[k + 1..] && script[k..][1..] == script[k + 1..];
        var stop := TryShop(shops[k], script[k]);
        if stop.Some? { return stop.value; }
        k := k + 1;
      }
      var open := exists o :: o in orders && IsOpen(o);
      ending := if open then InProgress else Failed;
    }

    /** The manual fallback: on success the escrow is released and every row of the order completed. */
    method UserRelease(id: O.OrderId, now: int) returns (done: bool)
      requires Valid()
      modifies this`orders, chain
      ensures done <==> FindOrder(old(orders), id).Some?
                        && C.MockStep(old(chain.View()), ctx.failSlugs, now, C.UserRelease(FindOrder(old(orders), id).value.escrow)).Success?
      ensures done ==> orders == SetState(old(orders), id, O.Completed)
      ensures done ==>
        var escrow := FindOrder(old(orders), id).value.escrow;
        && chain.View() == C.MockExecute(old(chain.View()), ctx.failSlugs, now, C.UserRelease(escrow))
        && chain.View().Has(escrow) && chain.View().Get(escrow).state.Released?
      ensures !done ==> View() == old(View())
    {
      var row := FindOrder(orders, id);
      if row.None? { return false; }
      var released := chain.UserRelease(row.value.escrow, now);
      if released.Fail? { return false; }
      HandleOrderEvent(id, O.Completed);
      done := true;
    }

    /** The check and the sum behind a receipt. */
    method MainTotalIfClosed() returns (total: Option<int>)
      ensures total.Some? <==> forall o :: o in orders ==> o.state in {O.Completed, O.Refunded, O.Cancelled}
      ensures total.Some? ==> total.value == SumBy(orders, CompletedTotal())
    {
      var sum := 0;
      for k := 0 to |orders|
        invariant forall o :: o in orders[..k] ==> o.state in {O.Completed, O.Refunded, O.Cancelled}
        invariant sum == SumBy(orders[..k], CompletedTotal())
      {
        assert orders[..k + 1] == orders[..k] + [orders[k]];
        SumByAppend(orders[..k], orders[k], CompletedTotal());
        if orders[k].state !in {O.Completed, O.Refunded, O.Cancelled} {
          assert orders[k] in orders;
          return None;
        }
        if orders[k].state == O.Completed {
          sum := sum + orders[k].total;
        }
      }
      assert orders[..|orders|] == orders;
      total := Some(sum);
    }
  }

  function FindOrder(orders: seq<TaskOrder>, id: O.OrderId): Option<TaskOrder> {
    if orders == [] then None else if orders[0].orderId == id then Some(orders[0]) else FindOrder(orders[1..], id)
  }

  function CompletedTotal(): TaskOrder -> int {
    (o: TaskOrder) => if o.state == O.Completed then o.total else 0
  }
}
