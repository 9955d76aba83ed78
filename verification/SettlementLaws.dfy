/** Why each table of the settlement protocol changes, and that its good runs exist. */
module SettlementLaws {
  import opened Results
  import opened Sums
  import opened Catalog
  import opened Settlement
  import P = EscrowProgram
  import C = MockChain
  import O = Orders

  // ---------------------------------------------------------------- causes

  /** The state a merchant's call asks for may follow this one. */
  predicate Follows(call: Call, s: O.OrderState) {
    match call
    case Preparing => s == O.PaidInEscrow
    case Ready => s == O.Preparing
    case Confirm => s in {O.Ready, O.Disputed}
    case Refund => s in {O.PaidInEscrow, O.Preparing, O.Ready, O.Disputed}
  }

  /** A merchant's order is placed awaiting funding, and afterwards moves only by a message that was sent and
      only along the life of an order. */
  lemma OrdersHaveACause(w: World, failSlugs: set<Slug>, m: Move, id: OrderId)
    requires Step(w, failSlugs, m).Some? && id in Step(w, failSlugs, m).value.orders
    requires id in w.orders ==> Step(w, failSlugs, m).value.orders[id] != w.orders[id]
    ensures var after := Step(w, failSlugs, m).value.orders[id];
            if id !in w.orders then
              m.Place? && m.id == id && after.state == O.AwaitingFunding && after.escrow == None
              && after.task == m.task && after.items == m.items && after.total == m.total
            else
              var before := w.orders[id];
              || (&& m.DeliverFunded? && m.id == id && FundedHook(id, m.escrow) in w.sent && after.escrow == Some(m.escrow)
                  && after.state == if before.state == O.AwaitingFunding then O.PaidInEscrow else before.state)
              || (&& m.DeliverCancel? && m.id == id && CancelHook(id) in w.sent && before.state == O.AwaitingFunding
                  && after.state == O.Cancelled && after.escrow == before.escrow)
              || (&& m.DeliverReleased? && m.id == id && ReleasedHook(id) in w.sent && after.state == O.Completed
                  && before.state in {O.PaidInEscrow, O.Preparing, O.Ready, O.Disputed} && after.escrow == before.escrow)
              || (&& m.MerchantContinues? && m.id == id && Done(id, m.call) in w.sent && Follows(m.call, before.state)
                  && after.state == Target(m.call) && after.escrow == before.escrow)
  {
  }

  /** A row of the bridge appears only for a funded order of a saga at work, in full and out of the wallet, and
      afterwards takes only states that a sent event names or that the bridge has just brought about on chain. */
  lemma RowsHaveACause(w: World, failSlugs: set<Slug>, m: Move, id: OrderId)
    requires Step(w, failSlugs, m).Some? && id in Step(w, failSlugs, m).value.rows
    requires id in w.rows ==> Step(w, failSlugs, m).value.rows[id] != w.rows[id]
    ensures var next := Step(w, failSlugs, m).value;
            if id !in w.rows then
              && m.FundShop? && m.id == id && id in w.orders && w.orders[id].task in w.sagas
              && m.params.merchantSlug !in failSlugs && w.orders[id].total <= w.chain.balance
              && next.rows[id] == Row(w.orders[id].task, w.orders[id].total, O.PaidInEscrow, |w.chain.escrows| + 1)
              && |next.chain.escrows| == |w.chain.escrows| + 1 && next.chain.balance == w.chain.balance - w.orders[id].total
            else
              && next.rows[id] == w.rows[id].(state := next.rows[id].state)
              && var e := w.rows[id].escrow;
                 || (m.DeliverEvent? && m.id == id && Event(id, next.rows[id].state) in w.sent)
                 || (&& m.UserRelease? && m.id == id && next.rows[id].state == O.Completed && w.chain.Has(e) && next.chain.Has(e)
                     && w.chain.Get(e).state !in {P.Released, P.Refunded} && next.chain.Get(e).state == P.Released)
                 || (&& m.CancelRow? && m.id == id && next.rows[id].state == O.Refunded && w.chain.Has(e) && next.chain.Has(e)
                     && (w.chain.Get(e).state == P.Funded || (w.chain.Get(e).state !in {P.Released, P.Refunded} && w.chain.Get(e).releaseDeadline <= m.now))
                     && next.chain.Get(e).state == P.Refunded && next.chain.balance == w.chain.balance + w.chain.Get(e).amount)
  {
  }

  /** Each message is sent by the step that makes it true. */
  lemma MessagesHaveACause(w: World, failSlugs: set<Slug>, m: Move, x: Message)
    requires Step(w, failSlugs, m).Some? && x in Step(w, failSlugs, m).value.sent && x !in w.sent
    ensures var next := Step(w, failSlugs, m).value;
            match x
            case FundedHook(id, escrow) => m.FundShop? && id !in w.rows && id in next.rows && next.rows[id].escrow == escrow
            case CancelHook(id) => m.GiveUp? || (m.FundShop? && (m.params.merchantSlug in failSlugs || w.chain.balance < m.params.amount))
            case ReleasedHook(id) => m.UserRelease? && id in next.rows && next.rows[id].state == O.Completed
            case Done(id, call) =>
              && m.MerchantCalls? && id in w.orders && w.orders[id].escrow.Some?
              && var e := w.orders[id].escrow.value;
                 && next.chain.Has(e) && w.chain.Has(e)
                 && next.chain.Get(e).state == (match call case Preparing => P.Preparing case Ready => P.Ready case Confirm => P.Released case Refund => P.Refunded)
                 && (call == Confirm ==> m.codeHash == w.chain.Get(e).pickupCodeHash)
            case Event(id, state) => m.MerchantContinues? && id in next.orders && next.orders[id].state == state && id in w.orders && w.orders[id].state != state
  {
  }

  /** The status of a task: a saga starts it once, ends it with any status but settled, it can be cancelled at
      any time, and it is settled only by a stored receipt, which itself is made only in progress, with every
      row closed, over the completed rows. */
  lemma TasksHaveACause(w: World, failSlugs: set<Slug>, m: Move, task: TaskId)
    requires Step(w, failSlugs, m).Some?
    ensures var next := Step(w, failSlugs, m).value;
            && (task in next.tasks && (task !in w.tasks || next.tasks[task] != w.tasks[task]) ==>
                  match next.tasks[task]
                  case Settled => m.StoreReceipt? && m.receipt in w.receipts && m.receipt.task == task && next.settled[task] == m.receipt.total
                  case Funding => (m.StartSaga? && task !in w.tasks && task in next.sagas) || (m.EndSaga? && task in w.sagas)
                  case Cancelled => (m.CancelTask? && task in w.tasks) || (m.EndSaga? && task in w.sagas)
                  case _ => m.EndSaga? && task in w.sagas && task !in next.sagas)
            && (task in next.sagas && task !in w.sagas ==> m == StartSaga(task) && task !in w.tasks)
            && (task in w.sagas && task !in next.sagas ==> m.EndSaga? && m.task == task && m.status != Settled)
            && (task in next.settled && (task !in w.settled || next.settled[task] != w.settled[task]) ==>
                  m.StoreReceipt? && Receipt(task, next.settled[task]) in w.receipts)
            && (forall r :: r in next.receipts && r !in w.receipts ==>
                  && m == Finalize(r.task) && r.task in w.tasks && w.tasks[r.task] == InProgress
                  && (forall id :: id in w.rows && w.rows[id].task == r.task ==> w.rows[id].state in {O.Completed, O.Refunded, O.Cancelled})
                  && r.total == MapSum(w.rows, CompletedOf(r.task)))
  {
  }

  // ---------------------------------------------------------------- good runs

  lemma {:induction false} RunConcat(w: World, failSlugs: set<Slug>, a: seq<Move>, b: seq<Move>)
    requires Run(w, failSlugs, a).Some?
    ensures Run(w, failSlugs, a + b) == Run(Run(w, failSlugs, a).value, failSlugs, b)
    decreases |a|
  {
    if a == [] {
      assert a + b == b;
    } else {
      assert (a + b)[0] == a[0] && (a + b)[1..] == a[1..] + b;
      RunConcat(Step(w, failSlugs, a[0]).value, failSlugs, a[1..], b);
    }
  }

  lemma {:induction false} RunOne(w: World, failSlugs: set<Slug>, m: Move)
    ensures Run(w, failSlugs, [m]) == Step(w, failSlugs, m)
  {
    assert [m][1..] == [];
    if Step(w, failSlugs, m).Some? {
      assert Run(Step(w, failSlugs, m).value, failSlugs, []) == Step(w, failSlugs, m);
    }
  }

  /** An order, its row and its escrow agree on where it stands. */
  ghost predicate Stands(w: World, id: OrderId, row: Row, state: O.OrderState, escrow: C.Escrow) {
    && id in w.orders && w.orders[id].state == state && w.orders[id].escrow == Some(row.escrow)
    && id in w.rows && w.rows[id] == row.(state := state)
    && w.chain.Has(row.escrow) && w.chain.Get(row.escrow) == escrow
  }

  ghost predicate SameTasks(w: World, u: World) {
    u.tasks == w.tasks && u.sagas == w.sagas && u.receipts == w.receipts && u.settled == w.settled
  }

  function AfterCall(call: Call): P.OrderState {
    match call case Preparing => P.Preparing case Ready => P.Ready case Confirm => P.Released case Refund => P.Refunded
  }

  /** The merchant's call, its own step after it, and its event: the three move on together. */
  function CallMoves(id: OrderId, call: Call, now: int, codeHash: P.Digest): seq<Move> {
    [MerchantCalls(id, call, now, codeHash), MerchantContinues(id, call), DeliverEvent(id, Target(call))]
  }

  lemma {:induction false} RunThree(w: World, failSlugs: set<Slug>, a: Move, b: Move, c: Move, w1: World, w2: World, w3: World)
    requires Step(w, failSlugs, a) == Some(w1) && Step(w1, failSlugs, b) == Some(w2) && Step(w2, failSlugs, c) == Some(w3)
    ensures Run(w, failSlugs, [a, b, c]) == Some(w3)
  {
    RunOne(w, failSlugs, a);
    RunOne(w1, failSlugs, b);
    RunOne(w2, failSlugs, c);
    RunConcat(w, failSlugs, [a], [b]);
    assert [a] + [b] == [a, b];
    RunConcat(w, failSlugs, [a, b], [c]);
    assert [a, b] + [c] == [a, b, c];
  }

  /** The escrow is in a state in which the chain takes the call. */
  predicate ChainTakes(call: Call, escrow: C.Escrow, now: int) {
    match call
    case Preparing => escrow.state == P.Funded
    case Ready => escrow.state == P.Preparing
    case Confirm => escrow.state in {P.Preparing, P.Ready}
    case Refund => escrow.state == P.Funded || (escrow.state !in {P.Released, P.Refunded} && escrow.releaseDeadline <= now)
  }

  lemma CallLands(w: World, failSlugs: set<Slug>, id: OrderId, call: Call, now: int)
    requires id in w.orders && w.orders[id].escrow.Some? && w.chain.Has(w.orders[id].escrow.value)
    requires ChainTakes(call, w.chain.Get(w.orders[id].escrow.value), now)
    ensures var e := w.orders[id].escrow.value;
            var r := Step(w, failSlugs, MerchantCalls(id, call, now, w.chain.Get(e).pickupCodeHash));
            && r.Some?
            && r.value == w.(chain := r.value.chain, sent := w.sent + {Done(id, call)})
            && r.value.chain.Has(e) && r.value.chain.Get(e) == w.chain.Get(e).(state := AfterCall(call))
            && r.value.chain.balance == w.chain.balance + if call == Refund then w.chain.Get(e).amount else 0
  {
  }

  lemma MerchantFollows(w: World, failSlugs: set<Slug>, id: OrderId, call: Call)
    requires Done(id, call) in w.sent && id in w.orders && Follows(call, w.orders[id].state)
    ensures var r := Step(w, failSlugs, MerchantContinues(id, call));
            && r.Some? && id in r.value.orders && r.value.orders[id].state == Target(call) && r.value.orders[id].escrow == w.orders[id].escrow
            && r.value == w.(orders := r.value.orders, sent := w.sent + {Event(id, Target(call))})
  {
  }

  /** Whenever order, row and escrow agree and both sides may make the move, they make it together. */
  lemma {:induction false} CallGoesThrough(w: World, failSlugs: set<Slug>, id: OrderId, row: Row, state: O.OrderState, escrow: C.Escrow, call: Call, now: int)
    requires Stands(w, id, row, state, escrow) && Follows(call, state) && ChainTakes(call, escrow, now)
    ensures var r := Run(w, failSlugs, CallMoves(id, call, now, escrow.pickupCodeHash));
            && r.Some? && Stands(r.value, id, row, Target(call), escrow.(state := AfterCall(call))) && SameTasks(w, r.value)
            && r.value.rows == w.rows[id := row.(state := Target(call))]
            && r.value.chain.balance == w.chain.balance + if call == Refund then escrow.amount else 0
  {
    var first, second, third :=
      MerchantCalls(id, call, now, escrow.pickupCodeHash), MerchantContinues(id, call), DeliverEvent(id, Target(call));
    CallLands(w, failSlugs, id, call, now);
    var w1 := Step(w, failSlugs, first).value;
    MerchantFollows(w1, failSlugs, id, call);
    var w2 := Step(w1, failSlugs, second).value;
    var w3 := SetRow(w2, id, Target(call));
    assert Step(w2, failSlugs, third) == Some(w3);
    RunThree(w, failSlugs, first, second, third, w1, w2, w3);
  }

  // ---------------------------------------------------------------- from the start to the receipt

  /** A new task with one order, funded from the wallet and known to the merchant. */
  function OpeningMoves(id: OrderId, task: TaskId, items: seq<QuoteItem>, codeHash: P.Digest, params: C.FundParams, escrow: int, now: int): seq<Move> {
    [StartSaga(task), Place(id, task, items, params.amount, codeHash, params.releaseDeadline)]
    + [FundShop(id, now, params), EndSaga(task, InProgress), DeliverFunded(id, escrow)]
  }

  ghost predicate NewTask(w: World, id: OrderId, task: TaskId) {
    && id !in w.orders && id !in w.rows && task !in w.tasks && forall x :: x in w.rows ==> w.rows[x].task != task
  }

  lemma TaskOpens(w: World, failSlugs: set<Slug>, id: OrderId, task: TaskId, items: seq<QuoteItem>, codeHash: P.Digest, params: C.FundParams, now: int)
    requires NewTask(w, id, task) && params.merchantSlug !in failSlugs && params.amount <= w.chain.balance
    ensures var n := |w.chain.escrows| + 1;
            var row := Row(task, params.amount, O.PaidInEscrow, n);
            var escrow := C.Escrow(params.merchantId, params.merchantSlug, params.buyer, params.amount, params.quoteHash,
                                   params.pickupCodeHash, now, params.releaseDeadline, P.Funded);
            var r := Run(w, failSlugs, OpeningMoves(id, task, items, codeHash, params, n, now));
            && r.Some? && Stands(r.value, id, row, O.PaidInEscrow, escrow)
            && r.value.rows == w.rows[id := row] && r.value.tasks == w.tasks[task := InProgress]
            && r.value.chain.balance == w.chain.balance - params.amount
  {
    var n := |w.chain.escrows| + 1;
    var a, b := StartSaga(task), Place(id, task, items, params.amount, codeHash, params.releaseDeadline);
    var w1 := Step(w, failSlugs, a).value;
    var w2 := Step(w1, failSlugs, b).value;
    RunOne(w, failSlugs, a);
    RunOne(w1, failSlugs, b);
    RunConcat(w, failSlugs, [a], [b]);
    assert [a] + [b] == [a, b];
    var c, d, e := FundShop(id, now, params), EndSaga(task, InProgress), DeliverFunded(id, n);
    var w3 := Step(w2, failSlugs, c).value;
    var w4 := Step(w3, failSlugs, d).value;
    var w5 := SetOrder(w4, id, O.OnEscrowFunded(w4.orders[id], n));
    assert Step(w4, failSlugs, e) == Some(w5);
    RunThree(w2, failSlugs, c, d, e, w3, w4, w5);
    RunConcat(w, failSlugs, [a, b], [c, d, e]);
  }

  /** A task whose only row is closed settles, at what it completed. */
  lemma TaskCloses(w: World, failSlugs: set<Slug>, id: OrderId, task: TaskId)
    requires id in w.rows && w.rows[id].task == task && w.rows[id].state in {O.Completed, O.Refunded} && task in w.tasks && w.tasks[task] == InProgress
    requires forall x :: x in w.rows && x != id ==> w.rows[x].task != task
    ensures var total := if w.rows[id].state == O.Completed then w.rows[id].total else 0;
            var r := Run(w, failSlugs, [Finalize(task), StoreReceipt(Receipt(task, total))]);
            && r.Some? && r.value.tasks == w.tasks[task := Settled] && r.value.settled == w.settled[task := total]
            && r.value.rows == w.rows && r.value.orders == w.orders && r.value.chain == w.chain
  {
    var total := if w.rows[id].state == O.Completed then w.rows[id].total else 0;
    OnlyRow(w, id, task);
    var a, b := Finalize(task), StoreReceipt(Receipt(task, total));
    assert AllClosed(w, task);
    var w1 := w.(receipts := w.receipts + {Receipt(task, total)});
    assert Step(w, failSlugs, a) == Some(w1);
    RunOne(w, failSlugs, a);
    RunOne(w1, failSlugs, b);
    RunConcat(w, failSlugs, [a], [b]);
    assert [a] + [b] == [a, b];
  }

  lemma OnlyRow(w: World, id: OrderId, task: TaskId)
    requires id in w.rows && w.rows[id].task == task && forall x :: x in w.rows && x != id ==> w.rows[x].task != task
    ensures MapSum(w.rows, CompletedOf(task)) == if w.rows[id].state == O.Completed then w.rows[id].total else 0
  {
    MapSumRemove(w.rows, id, CompletedOf(task));
    NoRow(w.rows - {id}, task);
  }

  lemma {:induction false} NoRow(rows: map<OrderId, Row>, task: TaskId)
    requires forall x :: x in rows ==> rows[x].task != task
    ensures MapSum(rows, CompletedOf(task)) == 0
  {
    MapSumCongruent(rows, CompletedOf(task), Zero());
    ZeroSum(rows);
  }

  function Zero(): Row -> int {
    (r: Row) => 0
  }

  lemma {:induction false} ZeroSum(rows: map<OrderId, Row>)
    ensures MapSum(rows, Zero()) == 0
    decreases |rows|
  {
    if rows != map[] {
      var k :| k in rows;
      MapSumRemove(rows, k, Zero());
      ZeroSum(rows - {k});
    }
  }

  /** What the merchant does with a funded order: hand it over, or refund it once its deadline has passed. */
  function Course(id: OrderId, code: P.Digest, handOver: bool, now: int): seq<Move> {
    if handOver then CallMoves(id, Preparing, now, code) + CallMoves(id, Ready, now, code) + CallMoves(id, Confirm, now, code)
    else CallMoves(id, Preparing, now, code) + CallMoves(id, Refund, now, code)
  }

  lemma {:induction false} HandOverRuns(w: World, failSlugs: set<Slug>, id: OrderId, row: Row, escrow: C.Escrow, now: int)
    requires Stands(w, id, row, O.PaidInEscrow, escrow) && escrow.state == P.Funded
    ensures var r := Run(w, failSlugs, Course(id, escrow.pickupCodeHash, true, now));
            && r.Some? && Stands(r.value, id, row, O.Completed, escrow.(state := P.Released))
            && SameTasks(w, r.value) && r.value.rows == w.rows[id := row.(state := O.Completed)]
            && r.value.chain.balance == w.chain.balance
  {
    var code := escrow.pickupCodeHash;
    var a, b, c := CallMoves(id, Preparing, now, code), CallMoves(id, Ready, now, code), CallMoves(id, Confirm, now, code);
    CallGoesThrough(w, failSlugs, id, row, O.PaidInEscrow, escrow, Preparing, now);
    var w1, e1 := Run(w, failSlugs, a).value, escrow.(state := P.Preparing);
    CallGoesThrough(w1, failSlugs, id, row, O.Preparing, e1, Ready, now);
    var w2, e2 := Run(w1, failSlugs, b).value, escrow.(state := P.Ready);
    CallGoesThrough(w2, failSlugs, id, row, O.Ready, e2, Confirm, now);
    RunConcat(w, failSlugs, a, b);
    RunConcat(w, failSlugs, a + b, c);
  }

  lemma {:induction false} RefundRuns(w: World, failSlugs: set<Slug>, id: OrderId, row: Row, escrow: C.Escrow, now: int)
    requires Stands(w, id, row, O.PaidInEscrow, escrow) && escrow.state == P.Funded && escrow.releaseDeadline <= now
    ensures var r := Run(w, failSlugs, Course(id, escrow.pickupCodeHash, false, now));
            && r.Some? && Stands(r.value, id, row, O.Refunded, escrow.(state := P.Refunded))
            && SameTasks(w, r.value) && r.value.rows == w.rows[id := row.(state := O.Refunded)]
            && r.value.chain.balance == w.chain.balance + escrow.amount
  {
    var a, b := CallMoves(id, Preparing, now, escrow.pickupCodeHash), CallMoves(id, Refund, now, escrow.pickupCodeHash);
    CallGoesThrough(w, failSlugs, id, row, O.PaidInEscrow, escrow, Preparing, now);
    var w1, e1 := Run(w, failSlugs, a).value, escrow.(state := P.Preparing);
    CallGoesThrough(w1, failSlugs, id, row, O.Preparing, e1, Refund, now);
    RunConcat(w, failSlugs, a, b);
  }

  /** From any world, a new task whose order the wallet can pay for has a run in which the order is handed over
      and the task settles at its total, and one in which it is refunded past its deadline, the wallet gets
      everything back, and the task settles at zero. */
  lemma TasksCanSettle(w: World, failSlugs: set<Slug>, id: OrderId, task: TaskId, items: seq<QuoteItem>, codeHash: P.Digest,
                       params: C.FundParams, handOver: bool, now: int) returns (moves: seq<Move>)
    requires NewTask(w, id, task) && params.merchantSlug !in failSlugs && params.amount <= w.chain.balance
    requires handOver || params.releaseDeadline <= now
    ensures Run(w, failSlugs, moves).Some?
    ensures var u := Run(w, failSlugs, moves).value;
            && task in u.tasks && u.tasks[task] == Settled && task in u.settled
            && u.settled[task] == (if handOver then params.amount else 0) && u.chain.balance == w.chain.balance - u.settled[task]
            && id in u.orders && u.orders[id].state == (if handOver then O.Completed else O.Refunded)
            && id in u.rows && u.rows[id].state == u.orders[id].state
            && forall x :: x in w.rows ==> x in u.rows && u.rows[x] == w.rows[x]
  {
    var n := |w.chain.escrows| + 1;
    var opening := OpeningMoves(id, task, items, codeHash, params, n, now);
    TaskOpens(w, failSlugs, id, task, items, codeHash, params, now);
    var w1 := Run(w, failSlugs, opening).value;
    var row := Row(task, params.amount, O.PaidInEscrow, n);
    var escrow := w1.chain.Get(n);
    var course := Course(id, escrow.pickupCodeHash, handOver, now);
    if handOver {
      HandOverRuns(w1, failSlugs, id, row, escrow, now);
    } else {
      RefundRuns(w1, failSlugs, id, row, escrow, now);
    }
    var w2 := Run(w1, failSlugs, course).value;
    var total := if handOver then params.amount else 0;
    var close := [Finalize(task), StoreReceipt(Receipt(task, total))];
    TaskCloses(w2, failSlugs, id, task);
    RunConcat(w, failSlugs, opening, course);
    RunConcat(w, failSlugs, opening + course, close);
    moves := opening + course + close;
  }

  // ---------------------------------------------------------------- effects on a task

  /** What starting, ending and cancelling do to a task, when they can happen. */
  lemma TaskMovesTakeEffect(w: World, failSlugs: set<Slug>, task: TaskId, status: TaskStatus)
    ensures match Step(w, failSlugs, StartSaga(task))
            case Some(u) => task !in w.tasks && u.tasks == w.tasks[task := Funding] && u.sagas == w.sagas + {task}
            case None => task in w.tasks
    ensures match Step(w, failSlugs, EndSaga(task, status))
            case Some(u) => task in w.sagas && status != Settled && u.tasks == w.tasks[task := status] && u.sagas == w.sagas - {task}
            case None => task !in w.sagas || status == Settled
    ensures match Step(w, failSlugs, CancelTask(task))
            case Some(u) => task in w.tasks && u == w.(tasks := w.tasks[task := Cancelled])
            case None => task !in w.tasks
  {
  }
}
