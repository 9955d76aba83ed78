/** The funding saga of an approved option: fund each shop, else an alternative, else drop it, else cancel.

    What the outside world answers is a script: the merchant's replies, whether each webhook call comes
    back, and whatever happens to orders and chain while the saga waits. */
module FundingSaga {
  import opened Results
  import opened Sums
  import opened Catalog
  import opened ShoppingOptions
  import P = EscrowProgram
  import C = MockChain
  import O = Orders

  /** A row of quotes_seen. */
  datatype SeenQuote = SeenQuote(quoteId: QuoteId, slug: Slug, items: seq<QuoteItem>, validUntil: int, verified: bool,
                                 active: bool, hash: P.Digest)

  /** A merchant from the task's discovery. */
  datatype Peer = Peer(merchantId: P.U64, slug: Slug, distance: nat)

  /** A row of task_orders; `announced` records whether the escrow-funded call returned, and is read by
      no step. */
  datatype TaskOrder = TaskOrder(orderId: O.OrderId, slug: Slug, quoteId: QuoteId, items: seq<QuoteItem>, total: nat,
                                 state: O.OrderState, essential: bool, escrow: int, announced: bool)

  /** A row of dropped_shops. */
  datatype Dropped = Dropped(shop: Shop)

  datatype Task = Task(chain: C.Chain, orders: seq<TaskOrder>, dropped: seq<Dropped>)

  datatype Context = Context(peers: seq<Peer>, quotes: seq<SeenQuote>, failSlugs: set<Slug>, wallet: P.Address)

  // ---------------------------------------------------------------- lookups

  function FindPeer(peers: seq<Peer>, slug: Slug): Option<Peer> {
    if peers == [] then None else if peers[0].slug == slug then Some(peers[0]) else FindPeer(peers[1..], slug)
  }

  function FindQuote(quotes: seq<SeenQuote>, id: QuoteId): Option<SeenQuote> {
    if quotes == [] then None else if quotes[0].quoteId == id then Some(quotes[0]) else FindQuote(quotes[1..], id)
  }

  // ---------------------------------------------------------------- the merchant's order handler

  /** The ordered lines, priced by the signed quote and never by the request. */
  function OrderItems(quoted: seq<QuoteItem>, requested: seq<QuoteItem>): Option<seq<QuoteItem>> {
    if requested == [] then Some([])
    else
      var before := OrderItems(quoted, requested[..|requested| - 1]);
      var r := requested[|requested| - 1];
      var line := FindQuoteItem(quoted, r.sku);
      if before.None? || line.None? || r.qty > line.value.qty then None
      else Some(before.value + [QuoteItem(r.sku, r.qty, line.value.unitPrice)])
  }

  /** Without a list of lines the whole quote is ordered; an empty list is refused. */
  function OrderedItems(quoted: seq<QuoteItem>, requested: Option<seq<QuoteItem>>): Option<seq<QuoteItem>> {
    match requested
    case None => Some(quoted)
    case Some(lines) => if lines == [] then None else OrderItems(quoted, lines)
  }

  method PlaceOrder(quoted: seq<QuoteItem>, requested: Option<seq<QuoteItem>>) returns (items: Option<seq<QuoteItem>>, total: nat)
    ensures items == OrderedItems(quoted, requested)
    ensures items.Some? ==> total == BasketTotal(items.value)
  {
    if requested.None? {
      items := Some(quoted);
    } else {
      items := PickLines(quoted, requested.value);
    }
    total := 0;
    if items.Some? {
      for k := 0 to |items.value|
        invariant total == BasketTotal(items.value[..k])
      {
        var item := items.value[k];
        assert items.value[..k + 1] == items.value[..k] + [item];
        SumByAppend(items.value[..k], item, LineCost());
        total := total + item.unitPrice * item.qty;
      }
      assert items.value[..|items.value|] == items.value;
    }
  }

  method PickLines(quoted: seq<QuoteItem>, requested: seq<QuoteItem>) returns (items: Option<seq<QuoteItem>>)
    ensures items == if requested == [] then None else OrderItems(quoted, requested)
  {
    var lines: seq<QuoteItem> := [];
    for k := 0 to |requested|
      invariant OrderItems(quoted, requested[..k]) == Some(lines)
    {
      assert requested[..k + 1][..k] == requested[..k];
      var r := requested[k];
      var line := FindQuoteItem(quoted, r.sku);
      if line.None? || r.qty > line.value.qty {
        OrderItemsFails(quoted, requested, k + 1);
        return None;
      }
      lines := lines + [QuoteItem(r.sku, r.qty, line.value.unitPrice)];
    }
    assert requested[..|requested|] == requested;
    items := if requested == [] then None else Some(lines);
  }

  lemma {:induction false} OrderItemsFails(quoted: seq<QuoteItem>, requested: seq<QuoteItem>, k: nat)
    requires k <= |requested| && OrderItems(quoted, requested[..k]).None?
    ensures OrderItems(quoted, requested).None?
    decreases |requested|
  {
    if k < |requested| {
      var init := requested[..|requested| - 1];
      assert init[..k] == requested[..k];
      OrderItemsFails(quoted, init, k);
    } else {
      assert requested[..k] == requested;
    }
  }

  // ---------------------------------------------------------------- what happens meanwhile

  datatype Event = ChainCall(now: int, op: C.Op) | OrderEvent(orderId: O.OrderId, state: O.OrderState)

  function SetState(orders: seq<TaskOrder>, id: O.OrderId, state: O.OrderState): seq<TaskOrder> {
    if orders == [] then []
    else
      var last := orders[|orders| - 1];
      SetState(orders[..|orders| - 1], id, state) + [if last.orderId == id then last.(state := state) else last]
  }

  function Happen(failSlugs: set<Slug>, t: Task, e: Event): Task {
    match e
    case ChainCall(now, op) => t.(chain := C.MockExecute(t.chain, failSlugs, now, op))
    case OrderEvent(id, state) => t.(orders := SetState(t.orders, id, state))
  }

  function HappenAll(failSlugs: set<Slug>, t: Task, events: seq<Event>): Task {
    if events == [] then t
    else Happen(failSlugs, HappenAll(failSlugs, t, events[..|events| - 1]), events[|events| - 1])
  }

  // ---------------------------------------------------------------- fundShop

  datatype Reply = NoAnswer | Refused | Accepted(orderId: O.OrderId, releaseDeadline: int)

  /** One attempt's share of the script. */
  datatype Answers = Answers(now: int, signatureOk: bool, before: seq<Event>, reply: Reply, pickupCodeHash: P.Digest,
                             fundedAt: int, after: seq<Event>, announced: bool)

  datatype Attempt = Funded | NotFunded | Threw

  function Usable(ctx: Context, shop: Shop, a: Answers): Option<SeenQuote> {
    var quote := FindQuote(ctx.quotes, shop.quoteId);
    if FindPeer(ctx.peers, shop.slug).None? || quote.None? then None
    else if !quote.value.verified || !a.signatureOk || quote.value.validUntil <= a.now then None
    else quote
  }

  function FundParamsOf(ctx: Context, peer: Peer, quote: SeenQuote, total: nat, a: Answers): C.FundParams
    requires a.reply.Accepted?
  {
    C.FundParams(peer.merchantId, peer.slug, ctx.wallet, total, quote.hash, a.pickupCodeHash, a.reply.releaseDeadline)
  }

  function OrderTotal(items: seq<QuoteItem>): nat {
    BasketTotalNonNegative(items);
    BasketTotal(items)
  }

  function FundShop(ctx: Context, t: Task, shop: Shop, a: Answers): (Task, Attempt) {
    var quote := Usable(ctx, shop, a);
    if quote.None? then (t, NotFunded)
    else
      var t1 := HappenAll(ctx.failSlugs, t, a.before);
      if a.reply.NoAnswer? then (t1, Threw)
      else
        var items := OrderItems(quote.value.items, shop.items);
        if a.reply.Refused? || shop.items == [] || items.None? then (t1, NotFunded)
        else FundOrder(ctx, t1, shop, quote.value, OrderTotal(items.value), a)
  }

  /** Escrow, row, webhook; whatever throws in here ends as a failure of the shop. */
  function FundOrder(ctx: Context, t: Task, shop: Shop, quote: SeenQuote, total: nat, a: Answers): (Task, Attempt)
    requires a.reply.Accepted? && FindPeer(ctx.peers, shop.slug).Some?
  {
    var params := FundParamsOf(ctx, FindPeer(ctx.peers, shop.slug).value, quote, total, a);
    match C.MockStep(t.chain, ctx.failSlugs, a.fundedAt, C.Fund(params))
    case Failure(_) => (t, NotFunded)
    case Success(chain) =>
      var row := TaskOrder(a.reply.orderId, shop.slug, shop.quoteId, shop.items, total, O.PaidInEscrow, shop.essential,
                           |chain.escrows|, a.announced);
      var t2 := HappenAll(ctx.failSlugs, t.(chain := chain, orders := t.orders + [row]), a.after);
      (t2, if a.announced then Funded else NotFunded)
  }

  // ---------------------------------------------------------------- findAlternativeShop

  predicate Covers(quoted: seq<QuoteItem>, items: seq<QuoteItem>) {
    forall need :: need in items ==> exists q :: q in quoted && q.sku == need.sku && q.qty >= need.qty
  }

  predicate IsAlternative(ctx: Context, failed: Shop, now: int, q: SeenQuote) {
    && q.active && q.verified
    && q.slug != failed.slug && q.validUntil > now && Covers(q.items, failed.items) && FindPeer(ctx.peers, q.slug).Some?
  }

  function Repriced(quoted: seq<QuoteItem>, items: seq<QuoteItem>): seq<QuoteItem> {
    if items == [] then []
    else
      var need := items[|items| - 1];
      var line := FindQuoteItem(quoted, need.sku);
      Repriced(quoted, items[..|items| - 1]) + [need.(unitPrice := if line.Some? then line.value.unitPrice else 0)]
  }

  function AlternativeFrom(ctx: Context, failed: Shop, q: SeenQuote): Shop
    requires FindPeer(ctx.peers, q.slug).Some?
  {
    var peer := FindPeer(ctx.peers, q.slug).value;
    var items := Repriced(q.items, failed.items);
    Shop(peer.merchantId, peer.slug, q.quoteId, items, BasketTotal(items), peer.distance, failed.essential)
  }

  /** The first quote in table order that can stand in for a failed shop. */
  function FindAlternative(ctx: Context, failed: Shop, now: int, quotes: seq<SeenQuote>): Option<Shop> {
    if quotes == [] then None
    else if IsAlternative(ctx, failed, now, quotes[0]) then Some(AlternativeFrom(ctx, failed, quotes[0]))
    else FindAlternative(ctx, failed, now, quotes[1..])
  }

  // ---------------------------------------------------------------- cancelTask

  predicate Refundable(s: O.OrderState) {
    s in {O.PaidInEscrow, O.Preparing, O.Ready}
  }

  function CancelRow(ctx: Context, t: Task, k: nat, now: int): Task
    requires k < |t.orders|
  {
    if !Refundable(t.orders[k].state) then t
    else
      match C.MockStep(t.chain, ctx.failSlugs, now, C.Refund(t.orders[k].escrow))
      case Failure(_) => t
      case Success(chain) => t.(chain := chain, orders := t.orders[k := t.orders[k].(state := O.Refunded)])
  }

  /** Refunds every escrow that is still refundable, in table order. */
  function CancelRows(ctx: Context, t: Task, k: nat, now: int): Task
    requires k <= |t.orders|
    decreases |t.orders| - k
  {
    if k == |t.orders| then t else CancelRows(ctx, CancelRow(ctx, t, k, now), k + 1, now)
  }

  // ---------------------------------------------------------------- approvePayment

  datatype Turn = Turn(first: Answers, alternativeAt: int, second: Answers, cancelAt: int)

  datatype Ending = InProgress | Failed | Cancelled | Aborted

  /** One shop of the option; None when the loop goes on. */
  function HandleShop(ctx: Context, t: Task, shop: Shop, turn: Turn): (Task, Option<Ending>) {
    var (t1, r1) := FundShop(ctx, t, shop, turn.first);
    if r1.Threw? then (t1, Some(Aborted)) else if r1.Funded? then (t1, None) else Recover(ctx, t1, shop, turn)
  }

  function Recover(ctx: Context, t: Task, shop: Shop, turn: Turn): (Task, Option<Ending>) {
    var alternative := FindAlternative(ctx, shop, turn.alternativeAt, ctx.quotes);
    if alternative.None? then GiveUpShop(ctx, t, shop, turn.cancelAt)
    else
      var (t1, r1) := FundShop(ctx, t, alternative.value, turn.second);
      if r1.Threw? then (t1, Some(Aborted)) else if r1.Funded? then (t1, None) else GiveUpShop(ctx, t1, shop, turn.cancelAt)
  }

  function GiveUpShop(ctx: Context, t: Task, shop: Shop, now: int): (Task, Option<Ending>) {
    if !shop.essential then (t.(dropped := t.dropped + [Dropped(shop)]), None)
    else (CancelRows(ctx, t, 0, now), Some(Cancelled))
  }

  predicate IsOpen(o: TaskOrder) {
    o.state !in {O.Cancelled, O.Refunded}
  }

  function Approve(ctx: Context, t: Task, shops: seq<Shop>, script: seq<Turn>): (Task, Ending)
    requires |script| == |shops|
    decreases |shops|
  {
    if shops == [] then (t, if exists o :: o in t.orders && IsOpen(o) then InProgress else Failed)
    else
      var (t1, ending) := HandleShop(ctx, t, shops[0], script[0]);
      if ending.Some? then (t1, ending.value) else Approve(ctx, t1, shops[1..], script[1..])
  }
}
