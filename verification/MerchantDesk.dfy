/** The merchant's handlers that move an order and its escrow together, when every chain call returns. */
module MerchantDesk {
  import opened Results
  import opened Catalog
  import P = EscrowProgram
  import C = MockChain
  import O = Orders

  type OrderId = O.OrderId

  /** The escrow state that an order state corresponds to. */
  function Counterpart(s: O.OrderState): Option<P.OrderState> {
    match s
    case PaidInEscrow => Some(P.Funded)
    case Preparing => Some(P.Preparing)
    case Ready => Some(P.Ready)
    case Completed => Some(P.Released)
    case Refunded => Some(P.Refunded)
    case _ => None
  }

  ghost predicate Linked(o: O.Order, c: C.Chain) {
    if o.escrow.None? then O.BeforePayment(o.state)
    else
      && c.Has(o.escrow.value)
      && c.Get(o.escrow.value).pickupCodeHash == o.codeHash && c.Get(o.escrow.value).releaseDeadline == o.deadline
      && Counterpart(o.state) == Some(c.Get(o.escrow.value).state)
  }

  /** Every order and its own escrow are in corresponding states. */
  ghost predicate Lockstep(orders: map<OrderId, O.Order>, c: C.Chain) {
    && (forall id :: id in orders ==> Linked(orders[id], c))
    && (forall a, b :: a in orders && b in orders && a != b && orders[a].escrow.Some? ==> orders[a].escrow != orders[b].escrow)
  }

  lemma MoveTogether(orders: map<OrderId, O.Order>, c: C.Chain, id: OrderId, to: O.OrderState)
    requires Lockstep(orders, c) && id in orders && orders[id].escrow.Some? && Counterpart(to).Some?
    ensures var e := orders[id].escrow.value;
            && c.Has(e)
            && Lockstep(orders[id := orders[id].(state := to, log := orders[id].log + [to])], c.Put(e, c.Get(e).(state := Counterpart(to).value)))
  {
    var e := orders[id].escrow.value;
    assert Linked(orders[id], c);
    var d := c.Put(e, c.Get(e).(state := Counterpart(to).value));
    var after := orders[id := orders[id].(state := to, log := orders[id].log + [to])];
    forall x | x in after ensures Linked(after[x], d) {
      assert Linked(orders[x], c);
    }
  }

  lemma FundedTogether(orders: map<OrderId, O.Order>, c: C.Chain, id: OrderId, after: map<OrderId, O.Order>, d: C.Chain)
    requires Lockstep(orders, c) && id in orders && orders[id].state == O.AwaitingFunding
    requires |d.escrows| == |c.escrows| + 1 && d.escrows[..|c.escrows|] == c.escrows
    requires after == orders[id := O.OnEscrowFunded(orders[id], |d.escrows|)]
    requires var e := d.escrows[|c.escrows|];
             e.state == P.Funded && e.pickupCodeHash == orders[id].codeHash && e.releaseDeadline == orders[id].deadline
    ensures Lockstep(after, d)
  {
    forall x | x in after ensures Linked(after[x], d) {
      assert Linked(orders[x], c);
      if x != id && orders[x].escrow.Some? {
        assert d.Get(orders[x].escrow.value) == c.Get(orders[x].escrow.value);
      }
    }
    forall a, b | a in after && b in after && a != b && after[a].escrow.Some? ensures after[a].escrow != after[b].escrow {
      assert Linked(orders[a], c) && Linked(orders[b], c);
    }
  }

  /** What the worker's tick finds: paid or in preparation, and at or past the deadline. */
  function OverdueOrders(orders: map<OrderId, O.Order>, now: int): (r: set<OrderId>)
    ensures forall id :: id in r <==> id in orders && orders[id].state in {O.PaidInEscrow, O.Preparing} && orders[id].deadline <= now
  {
    set id | id in orders && orders[id].state in {O.PaidInEscrow, O.Preparing} && orders[id].deadline <= now
  }

  class Desk {
    const book: O.OrderBook
    const chain: C.MockChainProvider

    /** A desk without orders is in lockstep, whatever is on the chain. */
    constructor (book: O.OrderBook, chain: C.MockChainProvider)
      ensures this.book == book && this.chain == chain
      ensures book.orders == map[] ==> Valid()
    {
      this.book := book;
      this.chain := chain;
    }

    ghost predicate Valid()
      reads book, chain
    {
      Lockstep(book.orders, chain.View())
    }

    /** Order and escrow have advanced to `to` together, and nothing else has changed. */
    twostate predicate Advanced(id: OrderId, to: O.OrderState)
      reads book, chain
    {
      && id in old(book.orders) && old(book.orders)[id].escrow.Some?
      && var o := old(book.orders)[id];
         && book.orders == old(book.orders)[id := o.(state := to, log := o.log + [to])]
         && old(chain.View()).Has(o.escrow.value) && Counterpart(to).Some?
         && var e := old(chain.View()).Get(o.escrow.value);
            && chain.escrows == old(chain.View()).Put(o.escrow.value, e.(state := Counterpart(to).value)).escrows
            && chain.balance == old(chain.balance) + if to == O.Refunded then e.amount else 0
    }

    /** A new order, awaiting its funding. */
    method TakeOrder(id: OrderId, task: O.TaskId, items: seq<QuoteItem>, total: nat, codeHash: P.Digest, deadline: int)
      requires Valid() && id !in book.orders
      modifies book
      ensures Valid() && book.orders == old(book.orders)[id := O.Created(task, items, total, codeHash, deadline)]
    {
      ghost var before := book.orders;
      book.CreateOrder(id, task, items, total, codeHash, deadline);
      forall x | x in book.orders ensures Linked(book.orders[x], chain.View()) {
        if x != id {
          assert Linked(before[x], chain.View());
        }
      }
    }

    /** The escrow of a waiting order is funded with the order's code and deadline and announced to the
        merchant: order and escrow are paid together, or neither is touched. */
    method TakePayment(id: OrderId, p: C.FundParams, now: int) returns (paid: bool)
      requires Valid() && id in book.orders && book.orders[id].state == O.AwaitingFunding && book.orders[id].escrow.None?
      requires p.pickupCodeHash == book.orders[id].codeHash && p.releaseDeadline == book.orders[id].deadline
      modifies book, chain
      ensures Valid()
      ensures paid <==> C.MockStep(old(chain.View()), chain.failSlugs, now, C.Fund(p)).Success?
      ensures paid ==>
        && book.orders == old(book.orders)[id := O.OnEscrowFunded(old(book.orders)[id], |chain.escrows|)]
        && book.orders[id].state == O.PaidInEscrow && chain.balance == old(chain.balance) - p.amount
      ensures !paid ==> book.orders == old(book.orders) && chain.View() == old(chain.View())
    {
      ghost var orders, before := book.orders, chain.View();
      var funded, escrow := chain.Fund(p, now);
      if funded.Fail? { return false; }
      var _ := book.EscrowFunded(id, escrow);
      FundedTogether(orders, before, id, book.orders, chain.View());
      paid := true;
    }

    /** The auto-prepare timer. */
    method AutoPrepare(id: OrderId, now: int) returns (done: bool)
      requires Valid()
      modifies book, chain
      ensures Valid()
      ensures done <==> id in old(book.orders) && old(book.orders)[id].state == O.PaidInEscrow
      ensures done ==> Advanced(id, O.Preparing)
      ensures !done ==> book.orders == old(book.orders) && chain.View() == old(chain.View())
    {
      if id !in book.orders { return false; }
      var order := book.orders[id];
      assert Linked(order, chain.View());
      if order.state != O.PaidInEscrow || order.escrow.None? { return false; }
      MoveTogether(book.orders, chain.View(), id, O.Preparing);
      var marked := chain.MarkPreparing(order.escrow.value, now);
      var updated := book.TransitionOrder(id, O.Preparing);
      done := true;
    }

    /** The ready handler. */
    method MarkReady(id: OrderId, now: int) returns (done: bool)
      requires Valid()
      modifies book, chain
      ensures Valid()
      ensures done <==> id in old(book.orders) && old(book.orders)[id].state == O.Preparing
      ensures done ==> Advanced(id, O.Ready)
      ensures !done ==> book.orders == old(book.orders) && chain.View() == old(chain.View())
    {
      if id !in book.orders { return false; }
      var order := book.orders[id];
      assert Linked(order, chain.View());
      if order.state != O.Preparing || order.escrow.None? { return false; }
      MoveTogether(book.orders, chain.View(), id, O.Ready);
      var marked := chain.MarkReady(order.escrow.value, now);
      var updated := book.TransitionOrder(id, O.Ready);
      done := true;
    }

    /** verify-pickup once the order is ready: the release. */
    method Release(id: OrderId, codeHash: P.Digest, now: int)
      requires Valid() && id in book.orders && book.orders[id].state == O.Ready && book.orders[id].codeHash == codeHash
      modifies book, chain
      ensures Valid() && Advanced(id, O.Completed)
    {
      var order := book.orders[id];
      assert Linked(order, chain.View());
      MoveTogether(book.orders, chain.View(), id, O.Completed);
      var released := chain.ConfirmPickup(order.escrow.value, codeHash, now);
      var updated := book.TransitionOrder(id, O.Completed);
    }

    /** The verify-pickup handler: with the right code for a prepared or ready order it completes the
        order and releases its escrow; in every other case nothing changes. */
    method VerifyPickup(id: OrderId, codeHash: P.Digest, now: int) returns (done: bool)
      requires Valid()
      modifies book, chain
      ensures Valid()
      ensures done <==> id in old(book.orders) && old(book.orders)[id].state in {O.Ready, O.Preparing}
                        && old(book.orders)[id].codeHash == codeHash
      ensures done ==>
        && id in book.orders && book.orders[id].state == O.Completed && book.orders[id].escrow == old(book.orders)[id].escrow
        && chain.View().Has(book.orders[id].escrow.value) && chain.View().Get(book.orders[id].escrow.value).state == P.Released
      ensures forall x :: x in old(book.orders) && x != id ==> x in book.orders && book.orders[x] == old(book.orders)[x]
      ensures !done ==> book.orders == old(book.orders) && chain.View() == old(chain.View())
      ensures chain.balance == old(chain.balance)
    {
      if id !in book.orders { return false; }
      var order := book.orders[id];
      assert Linked(order, chain.View());
      if order.state != O.Ready && order.state != O.Preparing { return false; }
      if order.escrow.None? || order.codeHash != codeHash { return false; }
      if order.state == O.Preparing {
        var ready := MarkReady(id, now);
      }
      Release(id, codeHash, now);
      assert Linked(book.orders[id], chain.View());
      done := true;
    }

    /** The refunding part of the worker's tick. Every overdue order that is paid or in preparation is
        refunded together with its escrow, and no other order changes. */
    method RefundOverdue(now: int) returns (refunded: nat)
      requires Valid()
      modifies book, chain
      ensures Valid() && book.orders.Keys == old(book.orders).Keys
      ensures forall id :: id in old(book.orders) ==>
        if old(book.orders)[id].state in {O.PaidInEscrow, O.Preparing} && old(book.orders)[id].deadline <= now
        then book.orders[id].state == O.Refunded else book.orders[id] == old(book.orders)[id]
      ensures refunded == |OverdueOrders(old(book.orders), now)|
    {
      ghost var before := book.orders;
      var overdue := OverdueOrders(book.orders, now);
      refunded := 0;
      var left := overdue;
      while left != {}
        invariant left <= overdue && refunded == |overdue| - |left|
        invariant Valid() && book.orders.Keys == before.Keys
        invariant forall id :: id in before ==>
          if id in overdue - left then book.orders[id].state == O.Refunded else book.orders[id] == before[id]
        decreases |left|
      {
        var id :| id in left;
        RefundOne(id, now);
        left := left - {id};
        refunded := refunded + 1;
      }
    }

    method RefundOne(id: OrderId, now: int)
      requires Valid() && id in book.orders && book.orders[id].state in {O.PaidInEscrow, O.Preparing} && book.orders[id].deadline <= now
      modifies book, chain
      ensures Valid() && Advanced(id, O.Refunded)
    {
      var order := book.orders[id];
      assert Linked(order, chain.View());
      MoveTogether(book.orders, chain.View(), id, O.Refunded);
      var refund := chain.Refund(order.escrow.value, now);
      var updated := book.TransitionOrder(id, O.Refunded);
    }
  }

  /** What lockstep says of an order, state by state. */
  lemma LockstepMeans(orders: map<OrderId, O.Order>, c: C.Chain, id: OrderId)
    requires Lockstep(orders, c) && id in orders
    ensures var o := orders[id];
            && (o.escrow.None? ==> o.state !in {O.PaidInEscrow, O.Preparing, O.Ready, O.Completed, O.Refunded})
            && (o.escrow.Some? ==>
                  && c.Has(o.escrow.value)
                  && var e := c.Get(o.escrow.value);
                     && e.pickupCodeHash == o.codeHash && e.releaseDeadline == o.deadline
                     && (o.state == O.PaidInEscrow <==> e.state == P.Funded) && (o.state == O.Preparing <==> e.state == P.Preparing)
                     && (o.state == O.Ready <==> e.state == P.Ready) && (o.state == O.Completed <==> e.state == P.Released)
                     && (o.state == O.Refunded <==> e.state == P.Refunded))
  {
    assert Linked(orders[id], c);
  }
}
