/** From where each order state is entered, and what each webhook does to an order, entry by entry of its log. */
module OrderLaws {
  import opened Results
  import opened Orders

  /** The states from which a state can be entered. */
  function EnteredFrom(to: OrderState): set<OrderState> {
    match to
    case Quoted => {}
    case UserSelected => {Quoted}
    case MerchantPending => {UserSelected}
    case MerchantConfirmed => {MerchantPending}
    case MerchantRejected => {MerchantPending}
    case AwaitingFunding => {MerchantConfirmed}
    case PaidInEscrow => {AwaitingFunding}
    case Preparing => {PaidInEscrow}
    case Ready => {Preparing}
    case Completed => {Ready, Disputed}
    case Expired => {Quoted, MerchantPending}
    case Refunded => {PaidInEscrow, Preparing, Ready, Disputed}
    case Cancelled => {Quoted, UserSelected, MerchantPending, AwaitingFunding, PaidInEscrow}
    case Disputed => {PaidInEscrow, Preparing, Ready}
  }

  /** A transition goes through exactly from those states, and changes the state and the end of the log only. */
  lemma TransitionExactly(o: Order, to: OrderState)
    ensures match Transition(o, to)
            case Success(after) =>
              && o.state in EnteredFrom(to)
              && after == Order(o.task, o.items, o.total, o.codeHash, o.deadline, to, o.escrow, o.log + [to])
              && TryTransition(o, to) == after
            case Failure(e) => o.state !in EnteredFrom(to) && e == IllegalTransition && TryTransition(o, to) == o
  {
  }

  /** What a webhook adds to the log of an order. */
  function AddedByCancel(s: OrderState): seq<OrderState> {
    if s == AwaitingFunding then [Cancelled] else []
  }

  function AddedByRelease(s: OrderState): seq<OrderState> {
    match s
    case PaidInEscrow => [Preparing, Ready, Completed]
    case Preparing => [Ready, Completed]
    case Ready => [Completed]
    case Disputed => [Completed]
    case _ => []
  }

  ghost predicate Adds(o: Order, after: Order, added: seq<OrderState>) {
    && after.log == o.log + added && after.state == (if added == [] then o.state else added[|added| - 1])
    && after == o.(log := after.log, state := after.state)
  }

  /** Funding stores the escrow id whatever the state and pays an order that awaits it; cancelling closes such
      an order and no other; a release completes an order from wherever it stands after payment, through every
      state between. */
  lemma WebhooksExactly(o: Order, escrow: int)
    ensures Adds(o.(escrow := Some(escrow)), OnEscrowFunded(o, escrow), if o.state == AwaitingFunding then [PaidInEscrow] else [])
    ensures Adds(o, OnCancel(o), AddedByCancel(o.state))
    ensures Adds(o, OnEscrowReleased(o), AddedByRelease(o.state))
  {
    ReleaseExactly(o);
  }

  lemma ReleaseExactly(o: Order)
    ensures Adds(o, OnEscrowReleased(o), AddedByRelease(o.state))
  {
    match o.state
    case PaidInEscrow =>
      var o1 := TryTransition(o, Preparing);
      var o2 := TryTransition(o1, Ready);
      assert TryTransition(o2, Completed).log == o.log + [Preparing, Ready, Completed];
    case Preparing =>
      var o2 := TryTransition(o, Ready);
      assert TryTransition(o2, Completed).log == o.log + [Ready, Completed];
    case _ =>
  }
}
