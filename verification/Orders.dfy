/** The merchant's order table: legal transitions, the append-only state log, and the handlers that the
    bridge's webhooks call. */
module Orders {
  import opened Results
  import opened Catalog

  type OrderId = nat
  type TaskId = nat

  datatype OrderState =
    | Quoted | UserSelected | MerchantPending | MerchantConfirmed | MerchantRejected | AwaitingFunding
    | PaidInEscrow | Preparing | Ready | Completed | Expired | Refunded | Cancelled | Disputed

  /** The transition table. */
  function Successors(s: OrderState): set<OrderState> {
    match s
    case Quoted => {UserSelected, Expired, Cancelled}
    case UserSelected => {MerchantPending, Cancelled}
    case MerchantPending => {MerchantConfirmed, MerchantRejected, Expired, Cancelled}
    case MerchantConfirmed => {AwaitingFunding}
    case AwaitingFunding => {PaidInEscrow, Cancelled}
    case PaidInEscrow => {Preparing, Refunded, Cancelled, Disputed}
    case Preparing => {Ready, Refunded, Disputed}
    case Ready => {Completed, Refunded, Disputed}
    case Disputed => {Completed, Refunded}
    case _ => {}
  }

  predicate CanTransition(from: OrderState, to: OrderState) {
    to in Successors(from)
  }

  datatype Order = Order(task: TaskId, items: seq<QuoteItem>, total: nat, codeHash: nat, deadline: int, state: OrderState,
                         escrow: Option<int>, log: seq<OrderState>)

  datatype OrderError = OrderNotFound | IllegalTransition | NotCancellable

  /** A new order runs through the states before funding at once, all of them logged. */
  function Created(task: TaskId, items: seq<QuoteItem>, total: nat, codeHash: nat, deadline: int): Order {
    Order(task, items, total, codeHash, deadline, AwaitingFunding, None,
          [Quoted, UserSelected, MerchantPending, MerchantConfirmed, AwaitingFunding])
  }

  function Transition(o: Order, to: OrderState): Result<Order, OrderError> {
    if !CanTransition(o.state, to) then Failure(IllegalTransition)
    else Success(o.(state := to, log := o.log + [to]))
  }

  /** The order afterwards when an illegal transition throws: as before. */
  function TryTransition(o: Order, to: OrderState): Order {
    if CanTransition(o.state, to) then o.(state := to, log := o.log + [to]) else o
  }

  /** escrow-funded: the escrow id is stored before the transition is tried, and stays if that throws. */
  function OnEscrowFunded(o: Order, escrow: int): Order {
    TryTransition(o.(escrow := Some(escrow)), PaidInEscrow)
  }

  /** cancel-order, after a failed funding. */
  function OnCancel(o: Order): Order {
    if o.state != AwaitingFunding then o else TryTransition(o, Cancelled)
  }

  /** escrow-released fast-forwards a paid order through preparing and ready. */
  function OnEscrowReleased(o: Order): Order {
    if o.state == Completed then o
    else
      var o1 := if o.state == PaidInEscrow then TryTransition(o, Preparing) else o;
      var o2 := if o1.state == Preparing then TryTransition(o1, Ready) else o1;
      TryTransition(o2, Completed)
  }

  // ---------------------------------------------------------------- the table

  class OrderBook {
    var orders: map<OrderId, Order>

    constructor ()
      ensures orders == map[]
    {
      orders := map[];
    }

    method CreateOrder(id: OrderId, task: TaskId, items: seq<QuoteItem>, total: nat, codeHash: nat, deadline: int)
      requires id !in orders
      modifies this
      ensures orders == old(orders)[id := Created(task, items, total, codeHash, deadline)]
    {
      var log := [Quoted, UserSelected, MerchantPending, MerchantConfirmed, AwaitingFunding];
      orders := orders[id := Order(task, items, total, codeHash, deadline, AwaitingFunding, None, log)];
    }

    method TransitionOrder(id: OrderId, to: OrderState) returns (r: Result<Order, OrderError>)
      modifies this
      ensures id !in old(orders) ==> r == Failure(OrderNotFound) && orders == old(orders)
      ensures id in old(orders) ==>
        && r == Transition(old(orders)[id], to)
        && orders == if r.Success? then old(orders)[id := r.value] else old(orders)
    {
      if id !in orders { return Failure(OrderNotFound); }
      var order := orders[id];
      if !CanTransition(order.state, to) { return Failure(IllegalTransition); }
      var log := order.log + [to];
      orders := orders[id := order.(state := to, log := log)];
      r := Success(orders[id]);
    }

    method EscrowFunded(id: OrderId, escrow: int) returns (r: Result<OrderState, OrderError>)
      modifies this
      ensures id !in old(orders) ==> r == Failure(OrderNotFound) && orders == old(orders)
      ensures id in old(orders) ==>
        && orders == old(orders)[id := OnEscrowFunded(old(orders)[id], escrow)]
        && (r.Success? <==> old(orders)[id].state == AwaitingFunding) && (r.Success? ==> r.value == PaidInEscrow)
    {
      if id !in orders { return Failure(OrderNotFound); }
      orders := orders[id := orders[id].(escrow := Some(escrow))];
      var updated :- TransitionOrder(id, PaidInEscrow);
      r := Success(updated.state);
    }

    method CancelOrder(id: OrderId) returns (r: Result<OrderState, OrderError>)
      modifies this
      ensures id !in old(orders) ==> r == Failure(OrderNotFound) && orders == old(orders)
      ensures id in old(orders) ==>
        && orders == old(orders)[id := OnCancel(old(orders)[id])]
        && (r.Success? <==> old(orders)[id].state == AwaitingFunding) && (r.Success? ==> r.value == Cancelled)
    {
      if id !in orders { return Failure(OrderNotFound); }
      if orders[id].state != AwaitingFunding { return Failure(NotCancellable); }
      var updated := TransitionOrder(id, Cancelled);
      r := Success(updated.value.state);
    }

    method EscrowReleased(id: OrderId) returns (r: Result<OrderState, OrderError>)
      modifies this
      ensures id !in old(orders) ==> r == Failure(OrderNotFound) && orders == old(orders)
      ensures id in old(orders) ==>
        && orders == old(orders)[id := OnEscrowReleased(old(orders)[id])]
        && (r.Success? <==> old(orders)[id].state in {PaidInEscrow, Preparing, Ready, Disputed, Completed})
        && (r.Success? ==> r.value == Completed)
    {
      if id !in orders { return Failure(OrderNotFound); }
      if orders[id].state == Completed { return Success(Completed); }
      if orders[id].state == PaidInEscrow {
        var _ := TransitionOrder(id, Preparing);
      }
      if orders[id].state == Preparing {
        var _ := TransitionOrder(id, Ready);
      }
      var updated :- TransitionOrder(id, Completed);
      r := Success(updated.state);
    }
  }

  // ---------------------------------------------------------------- the log

  ghost predicate LegalLog(log: seq<OrderState>) {
    && |log| > 0 && log[0] == Quoted
    && forall i :: 0 < i < |log| ==> CanTransition(log[i - 1], log[i])
  }

  ghost predicate OrderOk(o: Order) {
    LegalLog(o.log) && o.log[|o.log| - 1] == o.state
  }

  /** A new order and every handler keep the log a legal path from quoted to the current state, and
      only ever append to it. */
  lemma HandlersKeepLog(o: Order, to: OrderState, escrow: int)
    requires OrderOk(o)
    ensures Extends(o, TryTransition(o, to))
    ensures Extends(o, OnEscrowFunded(o, escrow))
    ensures Extends(o, OnCancel(o))
    ensures Extends(o, OnEscrowReleased(o))
  {
    TransitionKeepsLog(o, to);
    TransitionKeepsLog(o.(escrow := Some(escrow)), PaidInEscrow);
    TransitionKeepsLog(o, Cancelled);
    ReleasedKeepsLog(o);
  }

  ghost predicate Extends(o: Order, after: Order) {
    OrderOk(after) && o.log <= after.log
  }

  lemma ReleasedKeepsLog(o: Order)
    requires OrderOk(o)
    ensures Extends(o, OnEscrowReleased(o))
  {
    var o1 := if o.state == PaidInEscrow then TryTransition(o, Preparing) else o;
    TransitionKeepsLog(o, Preparing);
    var o2 := if o1.state == Preparing then TryTransition(o1, Ready) else o1;
    TransitionKeepsLog(o1, Ready);
    TransitionKeepsLog(o2, Completed);
  }

  lemma TransitionKeepsLog(o: Order, to: OrderState)
    requires OrderOk(o)
    ensures Extends(o, TryTransition(o, to))
  {
  }

  lemma CreatedIsOk(task: TaskId, items: seq<QuoteItem>, total: nat, codeHash: nat, deadline: int)
    ensures OrderOk(Created(task, items, total, codeHash, deadline))
  {
    var log := Created(task, items, total, codeHash, deadline).log;
    forall i | 0 < i < |log| ensures CanTransition(log[i - 1], log[i]) {
      assert i == 1 || i == 2 || i == 3 || i == 4;
    }
  }

  function Rank(s: OrderState): nat {
    match s
    case Quoted => 0
    case UserSelected => 1
    case MerchantPending => 2
    case MerchantConfirmed => 3
    case MerchantRejected => 9
    case AwaitingFunding => 4
    case PaidInEscrow => 5
    case Preparing => 6
    case Ready => 7
    case Disputed => 8
    case _ => 9
  }

  /** The table has no cycle: every transition climbs, so a log has at most ten entries. */
  lemma {:induction false} LogIsBounded(log: seq<OrderState>)
    requires LegalLog(log)
    ensures |log| <= Rank(log[|log| - 1]) + 1 <= 10
  {
    if |log| > 1 {
      var init := log[..|log| - 1];
      LogIsBounded(init);
      assert CanTransition(log[|log| - 2], log[|log| - 1]);
    }
  }

  /** And no state is entered twice. */
  lemma {:induction false} NoStateTwice(log: seq<OrderState>, i: nat, j: nat)
    requires LegalLog(log) && i < j < |log|
    ensures Rank(log[i]) < Rank(log[j]) && log[i] != log[j]
    decreases j
  {
    assert CanTransition(log[j - 1], log[j]);
    if i < j - 1 {
      NoStateTwice(log, i, j - 1);
    }
  }

  /** States an order can be in before any payment. */
  predicate BeforePayment(s: OrderState) {
    s in {Quoted, UserSelected, MerchantPending, MerchantConfirmed, MerchantRejected, AwaitingFunding, Expired, Cancelled}
  }

  /** No order is prepared, completed, refunded or disputed without having been paid into escrow. */
  lemma {:induction false} NothingHappensBeforePayment(log: seq<OrderState>)
    requires LegalLog(log) && PaidInEscrow !in log
    ensures BeforePayment(log[|log| - 1])
  {
    if |log| > 1 {
      NothingHappensBeforePayment(log[..|log| - 1]);
      assert CanTransition(log[|log| - 2], log[|log| - 1]);
    }
  }

  /** A final state is the last entry of its log for good. */
  lemma FinalStatesStay(o: Order, to: OrderState, escrow: int)
    requires o.state in {Completed, Refunded, Cancelled, Expired, MerchantRejected}
    ensures TryTransition(o, to) == o && OnCancel(o) == o && OnEscrowReleased(o) == o
    ensures OnEscrowFunded(o, escrow) == o.(escrow := Some(escrow))
  {
  }
}
