/** Settlement across the bridge, the merchants and the mock chain, with messages between them that may
    be lost, late, reordered or repeated.

    Everything sent stays in `sent`: delivering a message never removes it, and nothing forces its
    delivery. A state that a handler checked before awaiting a chain call may be stale when the call
    lands, so a call requires no order state here. */
module Settlement {
  import opened Results
  import opened Sums
  import opened Catalog
  import P = EscrowProgram
  import C = MockChain
  import O = Orders

  type OrderId = O.OrderId
  type TaskId = O.TaskId

  /** A task_orders row of the bridge. */
  datatype Row = Row(task: TaskId, total: nat, state: O.OrderState, escrow: int)

  datatype TaskStatus = Funding | InProgress | Settled | Cancelled | Failed

  /** The merchant's chain calls, made over HTTP. */
  datatype Call = Preparing | Ready | Confirm | Refund

  datatype Message =
    | FundedHook(id: OrderId, escrow: int)
    | CancelHook(id: OrderId)
    | ReleasedHook(id: OrderId)
    | Done(id: OrderId, call: Call)
    | Event(id: OrderId, state: O.OrderState)

  datatype Receipt = Receipt(task: TaskId, total: int)

  datatype World = World(
    chain: C.Chain, orders: map<OrderId, O.Order>, rows: map<OrderId, Row>, tasks: map<TaskId, TaskStatus>,
    sagas: set<TaskId>, sent: set<Message>, receipts: set<Receipt>, settled: map<TaskId, int>)

  datatype Move =
    | StartSaga(task: TaskId)
    | EndSaga(task: TaskId, status: TaskStatus)
    | Place(id: OrderId, task: TaskId, items: seq<QuoteItem>, total: nat, codeHash: P.Digest, deadline: int)
    | FundShop(id: OrderId, now: int, params: C.FundParams)
    | GiveUp(id: OrderId)
    | DeliverFunded(id: OrderId, escrow: int)
    | DeliverCancel(id: OrderId)
    | DeliverReleased(id: OrderId)
    | MerchantCalls(id: OrderId, call: Call, now: int, codeHash: P.Digest)
    | MerchantContinues(id: OrderId, call: Call)
    | DeliverEvent(id: OrderId, state: O.OrderState)
    | UserRelease(id: OrderId, now: int)
    | CancelRow(id: OrderId, now: int)
    | CancelTask(task: TaskId)
    | Finalize(task: TaskId)
    | StoreReceipt(receipt: Receipt)
    | AnyChain(now: int, op: C.Op)

  function Target(c: Call): O.OrderState {
    match c
    case Preparing => O.Preparing
    case Ready => O.Ready
    case Confirm => O.Completed
    case Refund => O.Refunded
  }

  function CallOp(c: Call, escrow: int, codeHash: P.Digest): C.Op {
    match c
    case Preparing => C.MarkPreparing(escrow)
    case Ready => C.MarkReady(escrow)
    case Confirm => C.ConfirmPickup(escrow, codeHash)
    case Refund => C.Refund(escrow)
  }

  /** The main payments of a task's receipt. */
  function CompletedOf(task: TaskId): Row -> int {
    (r: Row) => if r.task == task && r.state == O.Completed then r.total else 0
  }

  ghost predicate AllClosed(w: World, task: TaskId) {
    forall id :: id in w.rows && w.rows[id].task == task ==> w.rows[id].state in {O.Completed, O.Refunded, O.Cancelled}
  }

  function SetRow(w: World, id: OrderId, state: O.OrderState): World
    requires id in w.rows
  {
    w.(rows := w.rows[id := w.rows[id].(state := state)])
  }

  function SetOrder(w: World, id: OrderId, o: O.Order): World {
    w.(orders := w.orders[id := o])
  }

  function Send(w: World, m: Message): World {
    w.(sent := w.sent + {m})
  }

  ghost function Step(w: World, failSlugs: set<Slug>, m: Move): Option<World> {
    match m
    case StartSaga(task) =>
      if task in w.tasks then None else Some(w.(tasks := w.tasks[task := Funding], sagas := w.sagas + {task}))
    case EndSaga(task, status) =>
      // the saga ends whether or not the task was cancelled meanwhile
      if task !in w.sagas || status == Settled then None
      else Some(w.(tasks := w.tasks[task := status], sagas := w.sagas - {task}))
    case Place(id, task, items, total, codeHash, deadline) =>
      if id in w.orders then None else Some(SetOrder(w, id, O.Created(task, items, total, codeHash, deadline)))
    case FundShop(id, now, params) => FundStep(w, failSlugs, id, now, params)
    case GiveUp(id) => Some(Send(w, CancelHook(id)))
    case DeliverFunded(id, escrow) =>
      if FundedHook(id, escrow) !in w.sent || id !in w.orders then None
      else Some(SetOrder(w, id, O.OnEscrowFunded(w.orders[id], escrow)))
    case DeliverCancel(id) =>
      if CancelHook(id) !in w.sent || id !in w.orders then None else Some(SetOrder(w, id, O.OnCancel(w.orders[id])))
    case DeliverReleased(id) =>
      if ReleasedHook(id) !in w.sent || id !in w.orders then None
      else Some(SetOrder(w, id, O.OnEscrowReleased(w.orders[id])))
    case MerchantCalls(id, call, now, codeHash) => CallStep(w, failSlugs, id, call, now, codeHash)
    case MerchantContinues(id, call) =>
      if Done(id, call) !in w.sent || id !in w.orders || !O.CanTransition(w.orders[id].state, Target(call)) then None
      else Some(Send(SetOrder(w, id, O.TryTransition(w.orders[id], Target(call))), Event(id, Target(call))))
    case DeliverEvent(id, state) =>
      // any payload state overwrites the row
      if Event(id, state) !in w.sent || id !in w.rows then None else Some(SetRow(w, id, state))
    case UserRelease(id, now) => UserReleaseStep(w, failSlugs, id, now)
    case CancelRow(id, now) => CancelRowStep(w, failSlugs, id, now)
    case CancelTask(task) => if task in w.tasks then Some(w.(tasks := w.tasks[task := Cancelled])) else None
    case Finalize(task) =>
      if task !in w.tasks || w.tasks[task] != InProgress || !AllClosed(w, task) then None
      else Some(w.(receipts := w.receipts + {Receipt(task, MapSum(w.rows, CompletedOf(task)))}))
    case StoreReceipt(r) =>
      if r !in w.receipts then None
      else Some(w.(tasks := w.tasks[r.task := Settled], settled := w.settled[r.task := r.total]))
    case AnyChain(now, op) => Some(w.(chain := C.MockExecute(w.chain, failSlugs, now, op)))
  }

  /** Escrow funding for an accepted order: the row and the webhook on success, a cancellation if not. */
  ghost function FundStep(w: World, failSlugs: set<Slug>, id: OrderId, now: int, params: C.FundParams): Option<World> {
    if id !in w.orders || id in w.rows || w.orders[id].task !in w.sagas || params.amount != w.orders[id].total then None
    else
      match C.MockStep(w.chain, failSlugs, now, C.Fund(params))
      case Failure(_) => Some(Send(w, CancelHook(id)))
      case Success(chain) =>
        var row := Row(w.orders[id].task, w.orders[id].total, O.PaidInEscrow, |chain.escrows|);
        Some(Send(w.(chain := chain, rows := w.rows[id := row]), FundedHook(id, row.escrow)))
  }

  ghost function UserReleaseStep(w: World, failSlugs: set<Slug>, id: OrderId, now: int): Option<World> {
    if id !in w.rows then None
    else
      match C.MockStep(w.chain, failSlugs, now, C.UserRelease(w.rows[id].escrow))
      case Success(chain) => Some(Send(SetRow(w.(chain := chain), id, O.Completed), ReleasedHook(id)))
      case Failure(_) => None
  }

  /** One turn of the loop of cancelTask. */
  ghost function CancelRowStep(w: World, failSlugs: set<Slug>, id: OrderId, now: int): Option<World> {
    if id !in w.rows then None
    else
      match C.MockStep(w.chain, failSlugs, now, C.Refund(w.rows[id].escrow))
      case Success(chain) => Some(SetRow(w.(chain := chain), id, O.Refunded))
      case Failure(_) => None
  }

  ghost function CallStep(w: World, failSlugs: set<Slug>, id: OrderId, call: Call, now: int, codeHash: P.Digest): Option<World> {
    if id !in w.orders || w.orders[id].escrow.None? then None
    else
      match C.MockStep(w.chain, failSlugs, now, CallOp(call, w.orders[id].escrow.value, codeHash))
      case Success(chain) => Some(Send(w.(chain := chain), Done(id, call)))
      case Failure(_) => None
  }

  ghost function Run(w: World, failSlugs: set<Slug>, moves: seq<Move>): Option<World>
    decreases |moves|
  {
    if moves == [] then Some(w)
    else
      match Step(w, failSlugs, moves[0])
      case None => None
      case Some(next) => Run(next, failSlugs, moves[1..])
  }

  ghost predicate Fresh(w: World) {
    && w.orders == map[] && w.rows == map[] && w.tasks == map[] && w.sagas == {} && w.sent == {}
    && w.receipts == {} && w.settled == map[]
  }

  // ---------------------------------------------------------------- the invariant

  /** The escrow behind the bridge's row of an order is in this state. */
  ghost predicate EscrowIs(w: World, id: OrderId, s: P.OrderState) {
    id in w.rows && w.chain.Has(w.rows[id].escrow) && w.chain.Get(w.rows[id].escrow).state == s
  }

  /** What an order state claims about the escrow. */
  ghost predicate Justified(w: World, id: OrderId, state: O.OrderState) {
    && (state == O.Completed ==> EscrowIs(w, id, P.Released))
    && (state == O.Refunded ==> EscrowIs(w, id, P.Refunded))
  }

  ghost predicate RowOk(w: World, id: OrderId)
    requires id in w.rows
  {
    var r := w.rows[id];
    && w.chain.Has(r.escrow) && w.chain.Get(r.escrow).amount == r.total
    && r.state != O.Cancelled && Justified(w, id, r.state)
  }

  ghost predicate OrderOk(w: World, id: OrderId)
    requires id in w.orders
  {
    var o := w.orders[id];
    && (o.escrow.Some? ==> id in w.rows && w.rows[id].escrow == o.escrow.value)
    && Justified(w, id, o.state)
  }

  ghost predicate MessageOk(w: World, m: Message) {
    match m
    case FundedHook(id, escrow) => id in w.rows && w.rows[id].escrow == escrow
    case CancelHook(_) => true
    case ReleasedHook(id) => EscrowIs(w, id, P.Released)
    case Done(id, call) => Justified(w, id, Target(call))
    case Event(id, state) => state in {O.Preparing, O.Ready, O.Completed, O.Refunded} && Justified(w, id, state)
  }

  /** The amounts of a task's released escrows. */
  function ReleasedOf(chain: C.Chain, task: TaskId): Row -> int {
    (r: Row) => if r.task == task && chain.Has(r.escrow) && chain.Get(r.escrow).state == P.Released then chain.Get(r.escrow).amount else 0
  }

  ghost function ReleasedTotal(w: World, task: TaskId): int {
    MapSum(w.rows, ReleasedOf(w.chain, task))
  }

  ghost predicate TotalOk(w: World, task: TaskId, total: int) {
    && task in w.tasks && task !in w.sagas && total == ReleasedTotal(w, task)
    && (forall id :: id in w.rows && w.rows[id].task == task ==>
          w.chain.Has(w.rows[id].escrow) && w.chain.Get(w.rows[id].escrow).state.Settled())
  }

  ghost predicate Distinct(w: World) {
    forall a, b :: a in w.rows && b in w.rows && a != b ==> w.rows[a].escrow != w.rows[b].escrow
  }

  ghost predicate TablesOk(w: World) {
    && (forall id :: id in w.rows ==> RowOk(w, id))
    && (forall id :: id in w.orders ==> OrderOk(w, id))
    && (forall m :: m in w.sent ==> MessageOk(w, m))
    && Distinct(w)
  }

  ghost predicate TasksOk(w: World) {
    && (forall task :: task in w.sagas ==> task in w.tasks)
    && (forall task :: task in w.tasks && w.tasks[task] == InProgress ==> task !in w.sagas)
    && (forall r :: r in w.receipts ==> TotalOk(w, r.task, r.total))
    && (forall task :: task in w.settled ==> TotalOk(w, task, w.settled[task]))
  }

  ghost predicate Inv(w: World) {
    TablesOk(w) && TasksOk(w)
  }

  // ---------------------------------------------------------------- what the chain never takes back

  ghost predicate Grows(c: C.Chain, d: C.Chain) {
    forall id :: c.Has(id) ==>
      && d.Has(id) && d.Get(id).amount == c.Get(id).amount
      && (c.Get(id).state.Settled() ==> d.Get(id).state == c.Get(id).state)
  }

  lemma ChainGrows(c: C.Chain, failSlugs: set<Slug>, now: int, op: C.Op)
    ensures Grows(c, C.MockExecute(c, failSlugs, now, op))
  {
    forall id | c.Has(id) ensures
      var d := C.MockExecute(c, failSlugs, now, op);
      d.Has(id) && d.Get(id).amount == c.Get(id).amount && (c.Get(id).state.Settled() ==> d.Get(id).state == c.Get(id).state)
    {
      C.MockSettledIsFinal(c, failSlugs, now, op, id);
    }
  }

  /** Settled escrows keep their state, so whatever was justified stays so. */
  lemma GrowthKeepsTables(w: World, chain: C.Chain)
    requires TablesOk(w) && Grows(w.chain, chain)
    ensures TablesOk(w.(chain := chain))
  {
    var next := w.(chain := chain);
    forall id | id in w.rows ensures RowOk(next, id) {
      assert RowOk(w, id);
    }
    forall id | id in w.orders ensures OrderOk(next, id) {
      assert OrderOk(w, id);
      GrowthKeepsClaim(w, chain, id, w.orders[id].state);
    }
    forall m | m in w.sent ensures MessageOk(next, m) {
      assert MessageOk(w, m);
    }
  }

  lemma GrowthKeepsClaim(w: World, chain: C.Chain, id: OrderId, state: O.OrderState)
    requires Grows(w.chain, chain) && Justified(w, id, state)
    ensures Justified(w.(chain := chain), id, state)
  {
  }

  lemma GrowthKeepsTotal(w: World, chain: C.Chain, task: TaskId, total: int)
    requires Grows(w.chain, chain) && TotalOk(w, task, total)
    ensures TotalOk(w.(chain := chain), task, total)
  {
    MapSumCongruent(w.rows, ReleasedOf(w.chain, task), ReleasedOf(chain, task));
  }

  lemma GrowthKeepsTasks(w: World, chain: C.Chain)
    requires TasksOk(w) && Grows(w.chain, chain)
    ensures TasksOk(w.(chain := chain))
  {
    forall r | r in w.receipts ensures TotalOk(w.(chain := chain), r.task, r.total) {
      GrowthKeepsTotal(w, chain, r.task, r.total);
    }
    forall task | task in w.settled ensures TotalOk(w.(chain := chain), task, w.settled[task]) {
      GrowthKeepsTotal(w, chain, task, w.settled[task]);
    }
  }

  // ---------------------------------------------------------------- single changes

  lemma SendKeeps(w: World, m: Message)
    requires Inv(w) && MessageOk(w, m)
    ensures Inv(Send(w, m))
  {
    var next := Send(w, m);
    forall x | x in next.sent ensures MessageOk(next, x) {
      assert MessageOk(w, x);
    }
    forall id | id in w.orders ensures OrderOk(next, id) {
      assert OrderOk(w, id);
    }
    forall r | r in w.receipts ensures TotalOk(next, r.task, r.total) {
    }
  }

  lemma SetOrderKeeps(w: World, id: OrderId, o: O.Order)
    requires Inv(w) && OrderOk(SetOrder(w, id, o), id)
    ensures Inv(SetOrder(w, id, o))
  {
    var next := SetOrder(w, id, o);
    forall x | x in next.orders ensures OrderOk(next, x) {
      if x != id {
        assert OrderOk(w, x);
      }
    }
    forall m | m in w.sent ensures MessageOk(next, m) {
      assert MessageOk(w, m);
    }
    forall r | r in w.receipts ensures TotalOk(next, r.task, r.total) {
    }
  }

  lemma SetRowKeeps(w: World, id: OrderId, state: O.OrderState)
    requires Inv(w) && id in w.rows && state != O.Cancelled && Justified(w, id, state)
    ensures Inv(SetRow(w, id, state))
  {
    var next := SetRow(w, id, state);
    forall x | x in next.rows ensures RowOk(next, x) {
      assert RowOk(w, x);
    }
    forall x | x in next.orders ensures OrderOk(next, x) {
      assert OrderOk(w, x);
    }
    forall m | m in w.sent ensures MessageOk(next, m) {
      assert MessageOk(w, m);
    }
    forall r | r in w.receipts ensures TotalOk(next, r.task, r.total) {
      SetRowKeepsTotal(w, id, state, r.task, r.total);
    }
    forall task | task in w.settled ensures TotalOk(next, task, w.settled[task]) {
      SetRowKeepsTotal(w, id, state, task, w.settled[task]);
    }
  }

  lemma SetRowKeepsTotal(w: World, id: OrderId, state: O.OrderState, task: TaskId, total: int)
    requires id in w.rows && TotalOk(w, task, total)
    ensures TotalOk(SetRow(w, id, state), task, total)
  {
    MapSumReplace(w.rows, id, w.rows[id].(state := state), ReleasedOf(w.chain, task));
  }

  // ---------------------------------------------------------------- steps

  /** A settling chain call leaves its escrow in the state the caller will report. */
  lemma SettlingCall(c: C.Chain, failSlugs: set<Slug>, now: int, op: C.Op)
    requires C.MockStep(c, failSlugs, now, op).Success?
    ensures Grows(c, C.MockStep(c, failSlugs, now, op).value)
    ensures op.ConfirmPickup? || op.UserRelease? ==>
      C.MockStep(c, failSlugs, now, op).value.Has(op.id) && C.MockStep(c, failSlugs, now, op).value.Get(op.id).state == P.Released
    ensures op.Refund? ==>
      C.MockStep(c, failSlugs, now, op).value.Has(op.id) && C.MockStep(c, failSlugs, now, op).value.Get(op.id).state == P.Refunded
  {
    ChainGrows(c, failSlugs, now, op);
  }

  lemma CallKeeps(w: World, failSlugs: set<Slug>, m: Move)
    requires Inv(w) && m.MerchantCalls? && Step(w, failSlugs, m).Some?
    ensures Inv(Step(w, failSlugs, m).value)
  {
    var op := CallOp(m.call, w.orders[m.id].escrow.value, m.codeHash);
    var chain := C.MockStep(w.chain, failSlugs, m.now, op).value;
    assert OrderOk(w, m.id);
    SettlingCall(w.chain, failSlugs, m.now, op);
    GrowthKeepsTables(w, chain);
    GrowthKeepsTasks(w, chain);
    SendKeeps(w.(chain := chain), Done(m.id, m.call));
  }

  lemma BridgeSettlesKeeps(w: World, failSlugs: set<Slug>, m: Move)
    requires Inv(w) && (m.UserRelease? || m.CancelRow?) && Step(w, failSlugs, m).Some?
    ensures Inv(Step(w, failSlugs, m).value)
  {
    assert RowOk(w, m.id);
    var op := if m.UserRelease? then C.UserRelease(w.rows[m.id].escrow) else C.Refund(w.rows[m.id].escrow);
    var chain := C.MockStep(w.chain, failSlugs, m.now, op).value;
    SettlingCall(w.chain, failSlugs, m.now, op);
    GrowthKeepsTables(w, chain);
    GrowthKeepsTasks(w, chain);
    var state := if m.UserRelease? then O.Completed else O.Refunded;
    SetRowKeeps(w.(chain := chain), m.id, state);
    if m.UserRelease? {
      SendKeeps(SetRow(w.(chain := chain), m.id, state), ReleasedHook(m.id));
    }
  }

  lemma InsertRowKeepsTables(w: World, id: OrderId, row: Row)
    requires Inv(w) && id !in w.rows && row.state == O.PaidInEscrow
    requires w.chain.Has(row.escrow) && w.chain.Get(row.escrow).amount == row.total
    requires forall x :: x in w.rows ==> w.rows[x].escrow != row.escrow
    ensures TablesOk(w.(rows := w.rows[id := row]))
  {
    var next := w.(rows := w.rows[id := row]);
    forall x | x in next.rows ensures RowOk(next, x) {
      if x != id {
        assert RowOk(w, x);
      }
    }
    forall x | x in next.orders ensures OrderOk(next, x) {
      assert OrderOk(w, x);
    }
    forall m | m in w.sent ensures MessageOk(next, m) {
      assert MessageOk(w, m);
    }
  }

  lemma InsertRowKeepsTotal(w: World, id: OrderId, row: Row, task: TaskId, total: int)
    requires id !in w.rows && row.task in w.sagas && TotalOk(w, task, total)
    ensures TotalOk(w.(rows := w.rows[id := row]), task, total)
  {
    MapSumInsert(w.rows, id, row, ReleasedOf(w.chain, task));
  }

  lemma FundKeeps(w: World, failSlugs: set<Slug>, m: Move)
    requires Inv(w) && m.FundShop? && Step(w, failSlugs, m).Some?
    ensures Inv(Step(w, failSlugs, m).value)
  {
    var r := C.MockStep(w.chain, failSlugs, m.now, C.Fund(m.params));
    if r.Failure? {
      SendKeeps(w, CancelHook(m.id));
    } else {
      var funded := w.(chain := r.value);
      SettlingCall(w.chain, failSlugs, m.now, C.Fund(m.params));
      GrowthKeepsTables(w, r.value);
      GrowthKeepsTasks(w, r.value);
      var row := Row(w.orders[m.id].task, w.orders[m.id].total, O.PaidInEscrow, |r.value.escrows|);
      forall x | x in w.rows ensures w.rows[x].escrow != row.escrow {
        assert RowOk(w, x);
      }
      InsertRowKeepsTables(funded, m.id, row);
      var next := funded.(rows := funded.rows[m.id := row]);
      forall x | x in w.receipts ensures TotalOk(next, x.task, x.total) {
        InsertRowKeepsTotal(funded, m.id, row, x.task, x.total);
      }
      forall task | task in w.settled ensures TotalOk(next, task, w.settled[task]) {
        InsertRowKeepsTotal(funded, m.id, row, task, w.settled[task]);
      }
      SendKeeps(next, FundedHook(m.id, row.escrow));
    }
  }

  lemma WebhookKeeps(w: World, failSlugs: set<Slug>, m: Move)
    requires Inv(w) && (m.DeliverFunded? || m.DeliverCancel? || m.DeliverReleased?) && Step(w, failSlugs, m).Some?
    ensures Inv(Step(w, failSlugs, m).value)
  {
    assert OrderOk(w, m.id);
    if m.DeliverFunded? {
      assert MessageOk(w, FundedHook(m.id, m.escrow));
      SetOrderKeeps(w, m.id, O.OnEscrowFunded(w.orders[m.id], m.escrow));
    } else if m.DeliverCancel? {
      SetOrderKeeps(w, m.id, O.OnCancel(w.orders[m.id]));
    } else {
      assert MessageOk(w, ReleasedHook(m.id));
      SetOrderKeeps(w, m.id, O.OnEscrowReleased(w.orders[m.id]));
    }
  }

  lemma ContinueKeeps(w: World, failSlugs: set<Slug>, m: Move)
    requires Inv(w) && m.MerchantContinues? && Step(w, failSlugs, m).Some?
    ensures Inv(Step(w, failSlugs, m).value)
  {
    assert MessageOk(w, Done(m.id, m.call)) && OrderOk(w, m.id);
    var o := O.TryTransition(w.orders[m.id], Target(m.call));
    SetOrderKeeps(w, m.id, o);
    SendKeeps(SetOrder(w, m.id, o), Event(m.id, Target(m.call)));
  }

  /** When every row of a task is closed, the receipt's sum is that of its released escrows. */
  lemma ReceiptIsReleased(w: World, task: TaskId)
    requires TablesOk(w) && AllClosed(w, task)
    ensures MapSum(w.rows, CompletedOf(task)) == ReleasedTotal(w, task)
    ensures forall id :: id in w.rows && w.rows[id].task == task ==>
      w.chain.Has(w.rows[id].escrow) && w.chain.Get(w.rows[id].escrow).state.Settled()
  {
    forall id | id in w.rows
      ensures CompletedOf(task)(w.rows[id]) == ReleasedOf(w.chain, task)(w.rows[id])
      ensures w.rows[id].task == task ==> w.chain.Has(w.rows[id].escrow) && w.chain.Get(w.rows[id].escrow).state.Settled()
    {
      assert RowOk(w, id);
    }
    MapSumCongruent(w.rows, CompletedOf(task), ReleasedOf(w.chain, task));
  }

  lemma TaskStepKeeps(w: World, failSlugs: set<Slug>, m: Move)
    requires Inv(w) && (m.StartSaga? || m.EndSaga? || m.CancelTask? || m.Finalize? || m.StoreReceipt?)
    requires Step(w, failSlugs, m).Some?
    ensures Inv(Step(w, failSlugs, m).value)
  {
    var next := Step(w, failSlugs, m).value;
    SameTables(w, next);
    if m.Finalize? {
      ReceiptIsReleased(w, m.task);
    }
    forall r | r in next.receipts ensures TotalOk(next, r.task, r.total) {
      if r in w.receipts {
        assert TotalOk(w, r.task, r.total);
      }
    }
    forall task | task in next.settled ensures TotalOk(next, task, next.settled[task]) {
      if task in w.settled && next.settled[task] == w.settled[task] {
        assert TotalOk(w, task, w.settled[task]);
      } else {
        assert TotalOk(w, m.receipt.task, m.receipt.total);
      }
    }
  }

  lemma SameTables(w: World, next: World)
    requires TablesOk(w) && next.chain == w.chain && next.rows == w.rows && next.orders == w.orders && next.sent == w.sent
    ensures TablesOk(next)
  {
    forall id | id in w.rows ensures RowOk(next, id) {
      assert RowOk(w, id);
    }
    forall id | id in w.orders ensures OrderOk(next, id) {
      assert OrderOk(w, id);
    }
    forall m | m in w.sent ensures MessageOk(next, m) {
      assert MessageOk(w, m);
    }
  }

  lemma StepKeepsInv(w: World, failSlugs: set<Slug>, m: Move)
    requires Inv(w) && Step(w, failSlugs, m).Some?
    ensures Inv(Step(w, failSlugs, m).value)
  {
    match m
    case FundShop(_, _, _) => FundKeeps(w, failSlugs, m);
    case GiveUp(id) => SendKeeps(w, CancelHook(id));
    case MerchantCalls(_, _, _, _) => CallKeeps(w, failSlugs, m);
    case DeliverEvent(id, state) =>
      assert MessageOk(w, Event(id, state));
      SetRowKeeps(w, id, state);
    case UserRelease(_, _) => BridgeSettlesKeeps(w, failSlugs, m);
    case CancelRow(_, _) => BridgeSettlesKeeps(w, failSlugs, m);
    case AnyChain(now, op) =>
      ChainGrows(w.chain, failSlugs, now, op);
      GrowthKeepsTables(w, C.MockExecute(w.chain, failSlugs, now, op));
      GrowthKeepsTasks(w, C.MockExecute(w.chain, failSlugs, now, op));
    case StartSaga(_) => TaskStepKeeps(w, failSlugs, m);
    case EndSaga(_, _) => TaskStepKeeps(w, failSlugs, m);
    case CancelTask(_) => TaskStepKeeps(w, failSlugs, m);
    case Finalize(_) => TaskStepKeeps(w, failSlugs, m);
    case StoreReceipt(_) => TaskStepKeeps(w, failSlugs, m);
    case Place(id, task, items, total, codeHash, deadline) => SetOrderKeeps(w, id, O.Created(task, items, total, codeHash, deadline));
    case MerchantContinues(_, _) => ContinueKeeps(w, failSlugs, m);
    case _ => WebhookKeeps(w, failSlugs, m);
  }

  lemma {:induction false} RunKeepsInv(w: World, failSlugs: set<Slug>, moves: seq<Move>)
    requires Inv(w) && Run(w, failSlugs, moves).Some?
    ensures Inv(Run(w, failSlugs, moves).value)
    decreases |moves|
  {
    if moves != [] {
      StepKeepsInv(w, failSlugs, moves[0]);
      RunKeepsInv(Step(w, failSlugs, moves[0]).value, failSlugs, moves[1..]);
    }
  }

  // ---------------------------------------------------------------- results

  /** Whatever happens to the messages: an order completed at the merchant or at the bridge has a
      released escrow, and a refunded one a refunded escrow. */
  lemma {:induction false} ClosedOrdersAreTrue(start: World, failSlugs: set<Slug>, moves: seq<Move>, id: OrderId)
    requires Fresh(start) && Run(start, failSlugs, moves).Some?
    ensures var w := Run(start, failSlugs, moves).value;
            && (id in w.orders ==> Justified(w, id, w.orders[id].state))
            && (id in w.rows ==> Justified(w, id, w.rows[id].state))
  {
    RunKeepsInv(start, failSlugs, moves);
    var w := Run(start, failSlugs, moves).value;
    assert id in w.orders ==> OrderOk(w, id);
    assert id in w.rows ==> RowOk(w, id);
  }

  /** So the two sides never contradict each other: what one calls completed the other never calls
      refunded. */
  lemma {:induction false} NeverCompletedAndRefunded(start: World, failSlugs: set<Slug>, moves: seq<Move>, id: OrderId)
    requires Fresh(start) && Run(start, failSlugs, moves).Some?
    requires id in Run(start, failSlugs, moves).value.orders && id in Run(start, failSlugs, moves).value.rows
    ensures var w := Run(start, failSlugs, moves).value;
            && !(w.orders[id].state == O.Completed && w.rows[id].state == O.Refunded)
            && !(w.orders[id].state == O.Refunded && w.rows[id].state == O.Completed)
  {
    ClosedOrdersAreTrue(start, failSlugs, moves, id);
  }

  /** A settled task's main total is exactly the sum of its released escrows, all of its escrows being
      settled; no later message or call changes that. */
  lemma {:induction false} SettledTotalIsReleased(start: World, failSlugs: set<Slug>, moves: seq<Move>, task: TaskId)
    requires Fresh(start) && Run(start, failSlugs, moves).Some?
    requires task in Run(start, failSlugs, moves).value.settled
    ensures var w := Run(start, failSlugs, moves).value;
            && w.settled[task] == ReleasedTotal(w, task)
            && forall id :: id in w.rows && w.rows[id].task == task ==>
                 w.chain.Has(w.rows[id].escrow) && w.chain.Get(w.rows[id].escrow).state.Settled()
  {
    RunKeepsInv(start, failSlugs, moves);
    var w := Run(start, failSlugs, moves).value;
    assert TotalOk(w, task, w.settled[task]);
  }

  /** A row the bridge has closed is reopened by exactly one kind of step: a late preparing or ready
      notification, which overwrites it although the escrow stays settled. */
  lemma OnlyLateEventsReopen(w: World, failSlugs: set<Slug>, m: Move, id: OrderId)
    requires Inv(w) && Step(w, failSlugs, m).Some? && id in w.rows && w.rows[id].state in {O.Completed, O.Refunded}
    ensures var next := Step(w, failSlugs, m).value;
            && id in next.rows
            && (next.rows[id].state != w.rows[id].state <==>
                  m == DeliverEvent(id, O.Preparing) || m == DeliverEvent(id, O.Ready))
            && next.chain.Has(next.rows[id].escrow) && next.chain.Get(next.rows[id].escrow).state == w.chain.Get(w.rows[id].escrow).state
  {
    assert RowOk(w, id);
    ClosedRowCannotSettle(w, failSlugs, id);
    StepRowState(w, failSlugs, m, id);
    StepGrows(w, failSlugs, m);
    if m.DeliverEvent? && m.id == id {
      assert MessageOk(w, Event(id, m.state));
    }
  }

  lemma ClosedRowCannotSettle(w: World, failSlugs: set<Slug>, id: OrderId)
    requires id in w.rows && RowOk(w, id) && w.rows[id].state in {O.Completed, O.Refunded}
    ensures forall now :: UserReleaseStep(w, failSlugs, id, now) == None
    ensures forall now :: CancelRowStep(w, failSlugs, id, now) == None
  {
  }

  /** What a step makes of a row. */
  lemma StepRowState(w: World, failSlugs: set<Slug>, m: Move, id: OrderId)
    requires Step(w, failSlugs, m).Some? && id in w.rows
    ensures var next := Step(w, failSlugs, m).value;
            && id in next.rows && next.rows[id].escrow == w.rows[id].escrow
            && next.rows[id].state ==
               if m.DeliverEvent? && m.id == id then m.state
               else if m.UserRelease? && m.id == id then O.Completed
               else if m.CancelRow? && m.id == id then O.Refunded
               else w.rows[id].state
  {
  }

  /** The chain operation a step runs, if any. */
  ghost function ChainOp(w: World, m: Move): Option<(int, C.Op)> {
    match m
    case FundShop(_, now, params) => Some((now, C.Fund(params)))
    case MerchantCalls(id, call, now, hash) =>
      if id in w.orders && w.orders[id].escrow.Some? then Some((now, CallOp(call, w.orders[id].escrow.value, hash))) else None
    case UserRelease(id, now) => if id in w.rows then Some((now, C.UserRelease(w.rows[id].escrow))) else None
    case CancelRow(id, now) => if id in w.rows then Some((now, C.Refund(w.rows[id].escrow))) else None
    case AnyChain(now, op) => Some((now, op))
    case _ => None
  }

  lemma StepRunsOp(w: World, failSlugs: set<Slug>, m: Move)
    requires Step(w, failSlugs, m).Some?
    ensures var op := ChainOp(w, m);
            Step(w, failSlugs, m).value.chain ==
            if op.Some? then C.MockExecute(w.chain, failSlugs, op.value.0, op.value.1) else w.chain
  {
  }

  /** No step takes back what the chain has settled. */
  lemma StepGrows(w: World, failSlugs: set<Slug>, m: Move)
    requires Step(w, failSlugs, m).Some?
    ensures Grows(w.chain, Step(w, failSlugs, m).value.chain)
  {
    StepRunsOp(w, failSlugs, m);
    var op := ChainOp(w, m);
    if op.Some? {
      ChainGrows(w.chain, failSlugs, op.value.0, op.value.1);
    }
  }
}
