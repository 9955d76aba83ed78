/** The saga and its cancellation as runs of the settlement protocol: what FundingSaga computes for one
    task, the moves of Settlement do to that task's rows. */
module SagaSettlement {
  import opened Results
  import opened Sums
  import opened Catalog
  import opened ShoppingOptions
  import opened FundingSaga
  import S = Settlement
  import C = MockChain
  import O = Orders

  /** The rows of a task, as the saga and as the settlement protocol hold them. */
  ghost predicate Matches(w: S.World, task: O.TaskId, t: Task) {
    && w.chain == t.chain
    && (forall k :: 0 <= k < |t.orders| ==> t.orders[k].orderId in w.rows && w.rows[t.orders[k].orderId] == RowOf(task, t.orders[k]))
    && (forall i, j :: 0 <= i < j < |t.orders| ==> t.orders[i].orderId != t.orders[j].orderId)
    && (forall id :: id in w.rows && w.rows[id].task == task ==> Known(t.orders, id))
  }

  function RowOf(task: O.TaskId, o: TaskOrder): S.Row {
    S.Row(task, o.total, o.state, o.escrow)
  }

  ghost predicate Known(orders: seq<TaskOrder>, id: O.OrderId) {
    exists k :: 0 <= k < |orders| && orders[k].orderId == id
  }

  lemma {:induction false} RunConcat(w: S.World, failSlugs: set<Slug>, first: seq<S.Move>, second: seq<S.Move>)
    requires S.Run(w, failSlugs, first).Some?
    ensures S.Run(w, failSlugs, first + second) == S.Run(S.Run(w, failSlugs, first).value, failSlugs, second)
    decreases |first|
  {
    if first == [] {
      assert first + second == second;
    } else {
      assert (first + second)[1..] == first[1..] + second;
      RunConcat(S.Step(w, failSlugs, first[0]).value, failSlugs, first[1..], second);
    }
  }

  lemma {:induction false} RunOne(w: S.World, failSlugs: set<Slug>, m: S.Move)
    ensures S.Run(w, failSlugs, [m]) == S.Step(w, failSlugs, m)
  {
    assert [m][1..] == [];
  }

  // ---------------------------------------------------------------- cancelTask

  lemma SetRowMatches(w: S.World, task: O.TaskId, t: Task, k: nat, state: O.OrderState, chain: C.Chain)
    requires Matches(w, task, t) && k < |t.orders|
    ensures Matches(S.SetRow(w.(chain := chain), t.orders[k].orderId, state), task,
                    t.(chain := chain, orders := t.orders[k := t.orders[k].(state := state)]))
  {
    var after := t.orders[k := t.orders[k].(state := state)];
    forall id | Known(t.orders, id) ensures Known(after, id) {
      var j :| 0 <= j < |t.orders| && t.orders[j].orderId == id;
      assert after[j].orderId == id;
    }
  }

  lemma CancelRowMoves(w: S.World, task: O.TaskId, ctx: Context, t: Task, k: nat, now: int) returns (moves: seq<S.Move>)
    requires Matches(w, task, t) && k < |t.orders|
    ensures forall m :: m in moves ==> m.CancelRow? && m.now == now
    ensures S.Run(w, ctx.failSlugs, moves).Some? && Matches(S.Run(w, ctx.failSlugs, moves).value, task, CancelRow(ctx, t, k, now))
  {
    moves := [];
    var id := t.orders[k].orderId;
    if Refundable(t.orders[k].state) && C.MockStep(t.chain, ctx.failSlugs, now, C.Refund(t.orders[k].escrow)).Success? {
      moves := [S.CancelRow(id, now)];
      RunOne(w, ctx.failSlugs, moves[0]);
      SetRowMatches(w, task, t, k, O.Refunded, C.MockStep(t.chain, ctx.failSlugs, now, C.Refund(t.orders[k].escrow)).value);
    }
  }

  /** Cancelling a task is a run of single cancellations. */
  lemma {:induction false} CancelIsSettlement(w: S.World, task: O.TaskId, ctx: Context, t: Task, k: nat, now: int)
    returns (moves: seq<S.Move>)
    requires Matches(w, task, t) && k <= |t.orders|
    ensures forall m :: m in moves ==> m.CancelRow? && m.now == now
    ensures S.Run(w, ctx.failSlugs, moves).Some? && Matches(S.Run(w, ctx.failSlugs, moves).value, task, CancelRows(ctx, t, k, now))
    decreases |t.orders| - k
  {
    if k == |t.orders| {
      moves := [];
    } else {
      var first := CancelRowMoves(w, task, ctx, t, k, now);
      var rest := CancelIsSettlement(S.Run(w, ctx.failSlugs, first).value, task, ctx, CancelRow(ctx, t, k, now), k + 1, now);
      RunConcat(w, ctx.failSlugs, first, rest);
      moves := first + rest;
    }
  }

  // ---------------------------------------------------------------- what happens meanwhile

  /** Every order event among these was sent before. */
  ghost predicate Told(w: S.World, events: seq<Event>) {
    forall e :: e in events && e.OrderEvent? ==> S.Event(e.orderId, e.state) in w.sent
  }

  lemma {:induction false} SetStateOf(orders: seq<TaskOrder>, id: O.OrderId, state: O.OrderState)
    ensures var after := SetState(orders, id, state);
            && |after| == |orders|
            && forall k :: 0 <= k < |orders| ==> after[k] == if orders[k].orderId == id then orders[k].(state := state) else orders[k]
  {
    if orders != [] {
      SetStateOf(orders[..|orders| - 1], id, state);
    }
  }

  /** What events leave alone. */
  ghost predicate OnlyStates(w: S.World, after: S.World) {
    after.sent == w.sent && after.orders == w.orders && after.sagas == w.sagas && after.rows.Keys == w.rows.Keys
  }

  lemma {:induction false} DeliveryMatches(w: S.World, task: O.TaskId, failSlugs: set<Slug>, t: Task, k: nat, state: O.OrderState)
    requires Matches(w, task, t) && k < |t.orders| && S.Event(t.orders[k].orderId, state) in w.sent
    ensures var m := S.DeliverEvent(t.orders[k].orderId, state);
            && S.Step(w, failSlugs, m).Some? && OnlyStates(w, S.Step(w, failSlugs, m).value)
            && Matches(S.Step(w, failSlugs, m).value, task, t.(orders := SetState(t.orders, t.orders[k].orderId, state)))
  {
    SetStateOf(t.orders, t.orders[k].orderId, state);
    assert SetState(t.orders, t.orders[k].orderId, state) == t.orders[k := t.orders[k].(state := state)];
    SetRowMatches(w, task, t, k, state, w.chain);
  }

  lemma EventMoves(w: S.World, task: O.TaskId, failSlugs: set<Slug>, t: Task, e: Event) returns (moves: seq<S.Move>)
    requires Matches(w, task, t) && (e.OrderEvent? ==> S.Event(e.orderId, e.state) in w.sent)
    ensures S.Run(w, failSlugs, moves).Some? && Matches(S.Run(w, failSlugs, moves).value, task, Happen(failSlugs, t, e))
    ensures OnlyStates(w, S.Run(w, failSlugs, moves).value)
  {
    moves := [];
    if e.ChainCall? {
      moves := [S.AnyChain(e.now, e.op)];
      RunOne(w, failSlugs, moves[0]);
    } else if k: nat :| k < |t.orders| && t.orders[k].orderId == e.orderId {
      moves := [S.DeliverEvent(e.orderId, e.state)];
      RunOne(w, failSlugs, moves[0]);
      DeliveryMatches(w, task, failSlugs, t, k, e.state);
    } else {
      SetStateOf(t.orders, e.orderId, e.state);
      assert SetState(t.orders, e.orderId, e.state) == t.orders;
    }
  }

  lemma {:induction false} EventsAreSettlement(w: S.World, task: O.TaskId, failSlugs: set<Slug>, t: Task, events: seq<Event>)
    returns (moves: seq<S.Move>)
    requires Matches(w, task, t) && Told(w, events)
    ensures S.Run(w, failSlugs, moves).Some? && Matches(S.Run(w, failSlugs, moves).value, task, HappenAll(failSlugs, t, events))
    ensures OnlyStates(w, S.Run(w, failSlugs, moves).value)
  {
    moves := [];
    if events != [] {
      var init, e := events[..|events| - 1], events[|events| - 1];
      assert e in events && forall x :: x in init ==> x in events;
      var first := EventsAreSettlement(w, task, failSlugs, t, init);
      var w1 := S.Run(w, failSlugs, first).value;
      var rest := EventMoves(w1, task, failSlugs, HappenAll(failSlugs, t, init), e);
      RunConcat(w, failSlugs, first, rest);
      moves := first + rest;
    }
  }

  // ---------------------------------------------------------------- fundShop

  /** The merchant places the order, the bridge funds it; on failure nothing but a message is left. */
  lemma PlaceAndFund(w: S.World, task: O.TaskId, ctx: Context, t: Task, shop: Shop, quote: SeenQuote,
                     items: seq<QuoteItem>, total: nat, a: Answers) returns (moves: seq<S.Move>)
    requires Matches(w, task, t) && a.reply.Accepted? && FindPeer(ctx.peers, shop.slug).Some? && a.after == []
    requires task in w.sagas && a.reply.orderId !in w.orders && a.reply.orderId !in w.rows
    ensures S.Run(w, ctx.failSlugs, moves).Some?
    ensures Matches(S.Run(w, ctx.failSlugs, moves).value, task, FundOrder(ctx, t, shop, quote, total, a).0)
    ensures w.sent <= S.Run(w, ctx.failSlugs, moves).value.sent
  {
    var id := a.reply.orderId;
    var params := FundParamsOf(ctx, FindPeer(ctx.peers, shop.slug).value, quote, total, a);
    var place, fund := S.Place(id, task, items, total, a.pickupCodeHash, a.reply.releaseDeadline), S.FundShop(id, a.fundedAt, params);
    var w1 := S.Step(w, ctx.failSlugs, place).value;
    var w2 := S.Step(w1, ctx.failSlugs, fund).value;
    moves := [place, fund];
    assert moves[1..] == [fund];
    RunOne(w1, ctx.failSlugs, fund);
    var funded := C.MockStep(t.chain, ctx.failSlugs, a.fundedAt, C.Fund(params));
    if funded.Success? {
      var row := TaskOrder(id, shop.slug, shop.quoteId, shop.items, total, O.PaidInEscrow, shop.essential,
                           |funded.value.escrows|, a.announced);
      assert FundOrder(ctx, t, shop, quote, total, a).0 == t.(chain := funded.value, orders := t.orders + [row]);
      RowAdded(w, w2, task, t, row, funded.value);
    } else {
      assert w2.rows == w.rows && w2.chain == w.chain;
    }
  }

  lemma RowAdded(w: S.World, next: S.World, task: O.TaskId, t: Task, row: TaskOrder, chain: C.Chain)
    requires Matches(w, task, t) && row.orderId !in w.rows
    requires next.chain == chain && next.rows == w.rows[row.orderId := RowOf(task, row)]
    ensures Matches(next, task, t.(chain := chain, orders := t.orders + [row]))
  {
    var after := t.orders + [row];
    forall id | id in next.rows && next.rows[id].task == task ensures Known(after, id) {
      if id == row.orderId {
        assert after[|t.orders|].orderId == id;
      } else {
        var j :| 0 <= j < |t.orders| && t.orders[j].orderId == id;
        assert after[j].orderId == id;
      }
    }
  }

  /** The events after the funding only follow it. */
  lemma FundThenEvents(ctx: Context, t: Task, shop: Shop, quote: SeenQuote, total: nat, a: Answers)
    requires a.reply.Accepted? && FindPeer(ctx.peers, shop.slug).Some?
    ensures var alone := FundOrder(ctx, t, shop, quote, total, a.(after := [])).0;
            FundOrder(ctx, t, shop, quote, total, a).0 == alone || FundOrder(ctx, t, shop, quote, total, a).0 == HappenAll(ctx.failSlugs, alone, a.after)
  {
  }

  /** Every attempt of the saga to fund a shop is a run of the settlement protocol, as long as the order
      id is new and the order events it sees were sent. */
  lemma FundShopIsSettlement(w: S.World, task: O.TaskId, ctx: Context, t: Task, shop: Shop, a: Answers) returns (moves: seq<S.Move>)
    requires Matches(w, task, t) && task in w.sagas && Told(w, a.before) && Told(w, a.after)
    requires a.reply.Accepted? ==> a.reply.orderId !in w.orders && a.reply.orderId !in w.rows
    ensures S.Run(w, ctx.failSlugs, moves).Some?
    ensures Matches(S.Run(w, ctx.failSlugs, moves).value, task, FundShop(ctx, t, shop, a).0)
  {
    moves := [];
    var quote := Usable(ctx, shop, a);
    if quote.Some? {
      moves := EventsAreSettlement(w, task, ctx.failSlugs, t, a.before);
      var w1, t1 := S.Run(w, ctx.failSlugs, moves).value, HappenAll(ctx.failSlugs, t, a.before);
      var items := OrderItems(quote.value.items, shop.items);
      if a.reply.Accepted? && shop.items != [] && items.Some? {
        var total := OrderTotal(items.value);
        var fund := PlaceAndFund(w1, task, ctx, t1, shop, quote.value, items.value, total, a.(after := []));
        RunConcat(w, ctx.failSlugs, moves, fund);
        moves := moves + fund;
        var w2, t2 := S.Run(w, ctx.failSlugs, moves).value, FundOrder(ctx, t1, shop, quote.value, total, a.(after := [])).0;
        FundThenEvents(ctx, t1, shop, quote.value, total, a);
        if FundOrder(ctx, t1, shop, quote.value, total, a).0 != t2 {
          var after := EventsAreSettlement(w2, task, ctx.failSlugs, t2, a.after);
          RunConcat(w, ctx.failSlugs, moves, after);
          moves := moves + after;
        }
      }
    }
  }
}
