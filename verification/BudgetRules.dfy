/** When the bridge pays, what it books, and how its clock runs. */
module BudgetRules {
  import opened Results
  import opened Sums
  import opened Catalog
  import opened PaidRequests

  /** What a spend row takes from the budget of a task: its amount while pending and once settled. */
  function Owed(task: TaskId): Spend -> int {
    (s: Spend) => if s.task == task && s.status in {Pending, Settled} then s.amount else 0
  }

  lemma {:induction false} SpentIsOwed(spend: map<PaymentId, Spend>, task: TaskId)
    ensures Spent(spend, task) == MapSum(spend, Owed(task))
  {
    forall p | p in spend ensures Counted(task)(spend[p]) == Owed(task)(spend[p]) {
    }
    MapSumCongruent(spend, Counted(task), Owed(task));
  }

  /** A payment is issued if and only if the task is known, the amount is within its cap, and what the task owes
      with it is within its budget; the cap is complained about first. */
  lemma PaysExactly(budgets: map<TaskId, Budget>, spend: map<PaymentId, Spend>, task: TaskId, amount: nat)
    ensures var known := task in budgets;
            match PayCheck(budgets, spend, task, amount)
            case Pass => known && amount <= budgets[task].perRequest && MapSum(spend, Owed(task)) + amount <= budgets[task].total
            case Fail(UnknownTask) => !known
            case Fail(PerRequest) => known && budgets[task].perRequest < amount
            case Fail(Total) =>
              known && amount <= budgets[task].perRequest && budgets[task].total < MapSum(spend, Owed(task)) + amount
  {
    SpentIsOwed(spend, task);
  }

  /** A response settles the payment unless it reports the fee as refunded or asks for payment again. */
  lemma DecidesExactly(r: Response)
    ensures Decide(r) == Settled <==> !r.feeRefunded && r.status != 402
    ensures Decide(r) == Refunded <==> r.feeRefunded || r.status == 402
  {
  }

  /** Paying books one pending row of the demanded amount and sends a proof made of the demand, at this time and
      with the bridge's secret. */
  lemma PayingBooks(w: World, key: Key, pid: PaymentId)
    requires Step(w, Pay(key, pid)).Some? && pid in Step(w, Pay(key, pid)).value.spend
    ensures key in w.calls && w.calls[key].mine.Challenged? && pid !in w.spend
    ensures var c, next := w.calls[key], Step(w, Pay(key, pid)).value;
            var q := c.mine.requirements;
            && c.task in w.budgets && MapSum(w.spend, Owed(c.task)) + q.amount <= w.budgets[c.task].total
            && next.spend == w.spend[pid := Spend(c.task, q.amount, c.path.slug, Pending, key)] && key in next.calls
            && next.calls[key].theirs == InFlight(Proof(pid, q.amount, q.payTo, q.path, q.key, w.now, w.secret))
            && next.calls[key].pid == Some(pid) && next.calls[key].mine == Waiting && next.shop == w.shop
  {
    var c := w.calls[key];
    PaysExactly(w.budgets, w.spend, c.task, c.mine.requirements.amount);
  }

  // ---------------------------------------------------------------- time

  function Seconds(): Move -> int {
    (m: Move) => if m.Tick? then m.seconds else 0
  }

  /** The clock of a run advances by its ticks. */
  lemma {:induction false} ClockRuns(w: World, moves: seq<Move>)
    requires Run(w, moves).Some?
    ensures Run(w, moves).value.now == w.now + SumBy(moves, Seconds())
    decreases |moves|
  {
    if moves != [] {
      ClockStep(w, moves[0]);
      ClockRuns(Step(w, moves[0]).value, moves[1..]);
    }
  }

  lemma ClockStep(w: World, m: Move)
    requires Step(w, m).Some?
    ensures Step(w, m).value.now == w.now + Seconds()(m)
  {
  }

  // ---------------------------------------------------------------- the course of a call

  /** How each step of a call leaves the two sides of it. */
  lemma CallMovesOn(w: World, m: Move)
    requires !m.Tick? && !m.SetAccount? && Step(w, m).Some?
    ensures var next := Step(w, m).value;
            && m.key in next.calls
            && var d := next.calls[m.key];
               if m.Begin? then m.key !in w.calls && d == Call(m.task, m.path, m.payload, None, Asking, Unsent)
               else
                 && m.key in w.calls
                 && var c := w.calls[m.key];
                    && d.task == c.task && d.path == c.path && d.payload == c.payload
                    && match m
                       case FirstAnswer(_) =>
                         && c.mine.Asking? && d.theirs == c.theirs
                         && d.mine == (match Gate(w.shop, w.now, Request(Some(m.key), c.path, c.payload, None))
                                       case Challenge(q) => Challenged(q)
                                       case _ => Over(NotPaid))
                       case Pay(_, pid) =>
                         && c.mine.Challenged?
                         && (if d.pid == Some(pid) && d.mine.Waiting? then d.theirs.InFlight?
                             else d.mine == Over(NotPaid) && d.theirs == c.theirs && next.spend == w.spend)
                       case Arrive(_) =>
                         && c.theirs.InFlight? && d.mine == c.mine
                         && d.theirs == (match Gate(w.shop, w.now, Request(Some(m.key), c.path, c.payload, Some(c.theirs.proof)))
                                         case RunHandler(_) => Handling
                                         case Reply(r) => Answered(r, false)
                                         case Challenge(_) => Answered(Response(402, false, false), false))
                       case Handled(_, status, refunded) =>
                         c.theirs.Handling? && d.mine == c.mine && d.theirs == Answered(Response(status, refunded, false), true)
                       case Receive(_) => c.mine.Waiting? && c.theirs.Answered? && d.mine == Over(Received) && d.theirs == c.theirs
                       case NetworkError(_) =>
                         d.theirs == c.theirs && (if c.mine.Asking? then d.mine == Over(NotPaid) else c.mine.Waiting? && d.mine == Over(NetworkFailed))
                       case Garbled(_) =>
                         c.mine.Waiting? && c.theirs.Answered? && d.mine == Over(Unreadable) && d.theirs == c.theirs && next.spend == w.spend
                       case _ => false
  {
  }

  /** A merchant's account changes only by setting it, and then for that merchant alone. */
  lemma AccountsAreSet(w: World, m: Move)
    requires Step(w, m).Some?
    ensures Step(w, m).value.shop.accounts == if m.SetAccount? then w.shop.accounts[m.slug := m.account] else w.shop.accounts
  {
  }

  /** The six steps of a paid call in which nothing goes wrong. */
  function GoodCall(key: Key, task: TaskId, path: Path, payload: Payload, pid: PaymentId, status: int): seq<Move> {
    [Begin(key, task, path, payload), FirstAnswer(key), Pay(key, pid), Arrive(key), Handled(key, status, false), Receive(key)]
  }

  /** A call can be begun for this shop, and its payment made. */
  ghost predicate CanBegin(w: World, key: Key, task: TaskId, path: Path, pid: PaymentId) {
    && key !in w.calls && key !in w.shop.cache && pid !in w.spend && pid !in w.shop.seen
    && path.slug in w.shop.accounts && w.shop.accounts[path.slug].active && w.secret == w.shop.secret
    && task in w.budgets && Price(path.endpoint) <= w.budgets[task].perRequest
    && MapSum(w.spend, Owed(task)) + Price(path.endpoint) <= w.budgets[task].total
  }

  lemma CallIsChallenged(w: World, key: Key, task: TaskId, path: Path, payload: Payload, pid: PaymentId)
    requires CanBegin(w, key, task, path, pid)
    ensures Step(w, Begin(key, task, path, payload)).Some?
    ensures var w1 := Step(w, Begin(key, task, path, payload)).value;
            var q := Requirements(Price(path.endpoint), w.shop.accounts[path.slug].wallet, path, key);
            Step(w1, FirstAnswer(key)) == Some(w.(calls := w.calls[key := Call(task, path, payload, None, Challenged(q), Unsent)]))
  {
    var w1 := Step(w, Begin(key, task, path, payload)).value;
    var q := Requirements(Price(path.endpoint), w.shop.accounts[path.slug].wallet, path, key);
    var c := Call(task, path, payload, None, Challenged(q), Unsent);
    assert Step(w1, FirstAnswer(key)) == Some(SetCall(w1, key, c));
    assert w1.calls[key := c] == w.calls[key := c];
  }

  lemma CallIsPaid(w: World, key: Key, c: Call, pid: PaymentId)
    requires key in w.calls && w.calls[key] == c && c.mine.Challenged? && c.pid.None? && pid !in w.spend
    requires PayCheck(w.budgets, w.spend, c.task, c.mine.requirements.amount).Pass?
    ensures var q := c.mine.requirements;
            var proof := Proof(pid, q.amount, q.payTo, q.path, q.key, w.now, w.secret);
            Step(w, Pay(key, pid)) ==
            Some(w.(spend := w.spend[pid := Spend(c.task, q.amount, c.path.slug, Pending, key)],
                    calls := w.calls[key := Call(c.task, c.path, c.payload, Some(pid), Waiting, InFlight(proof))]))
  {
  }

  lemma CallIsServed(w: World, key: Key, c: Call, pid: PaymentId, status: int)
    requires key in w.calls && w.calls[key] == c && c.mine.Waiting? && c.pid == Some(pid) && c.theirs.InFlight? && status != 402
    requires Gate(w.shop, w.now, Request(Some(key), c.path, c.payload, Some(c.theirs.proof))) == RunHandler(pid)
    ensures Step(w, Arrive(key)).Some?
    ensures var w1 := Step(w, Arrive(key)).value;
            && Step(w1, Handled(key, status, false)).Some?
            && var w2 := Step(w1, Handled(key, status, false)).value;
               && w2.spend == w.spend && w2.runs == w.runs + [pid] && key in w2.calls
               && w2.calls[key] == c.(theirs := Answered(Response(status, false, false), true))
               && w2.shop.seen == w.shop.seen[pid := Seen(key, Price(c.path.endpoint), false)]
               && (key !in w.shop.cache ==> w2.shop.cache == w.shop.cache[key := Cached(c.payload, status)])
  {
  }

  lemma CallIsSettled(w: World, key: Key, pid: PaymentId, status: int)
    requires key in w.calls && w.calls[key].mine.Waiting? && w.calls[key].pid == Some(pid) && pid in w.spend && status != 402
    requires w.calls[key].theirs == Answered(Response(status, false, false), true)
    ensures Step(w, Receive(key)) ==
            Some(w.(spend := w.spend[pid := w.spend[pid].(status := Settled)], calls := w.calls[key := w.calls[key].(mine := Over(Received))]))
  {
  }

  /** A run is a sequence of worlds. */
  lemma {:induction false} RunAlong(worlds: seq<World>, moves: seq<Move>)
    requires |worlds| == |moves| + 1 && forall i :: 0 <= i < |moves| ==> Step(worlds[i], moves[i]) == Some(worlds[i + 1])
    ensures Run(worlds[0], moves) == Some(worlds[|moves|])
    decreases |moves|
  {
    if moves != [] {
      RunAlong(worlds[1..], moves[1..]);
    }
  }

  lemma CallIsOpened(w: World, key: Key, task: TaskId, path: Path, payload: Payload, pid: PaymentId) returns (w1: World, w2: World, w3: World)
    requires CanBegin(w, key, task, path, pid)
    ensures Step(w, Begin(key, task, path, payload)) == Some(w1) && Step(w1, FirstAnswer(key)) == Some(w2) && Step(w2, Pay(key, pid)) == Some(w3)
    ensures var proof := Proof(pid, Price(path.endpoint), w.shop.accounts[path.slug].wallet, path, key, w.now, w.secret);
            w3 == w.(spend := w.spend[pid := Spend(task, Price(path.endpoint), path.slug, Pending, key)],
                     calls := w.calls[key := Call(task, path, payload, Some(pid), Waiting, InFlight(proof))])
  {
    CallIsChallenged(w, key, task, path, payload, pid);
    w1 := Step(w, Begin(key, task, path, payload)).value;
    w2 := Step(w1, FirstAnswer(key)).value;
    PaysExactly(w.budgets, w.spend, task, Price(path.endpoint));
    CallIsPaid(w2, key, w2.calls[key], pid);
    w3 := Step(w2, Pay(key, pid)).value;
    assert w3.calls == w.calls[key := w3.calls[key]];
  }

  lemma CallIsClosed(w: World, key: Key, c: Call, pid: PaymentId, status: int) returns (w1: World, w2: World, w3: World)
    requires key in w.calls && w.calls[key] == c && c.mine.Waiting? && c.pid == Some(pid) && c.theirs.InFlight? && status != 402
    requires pid in w.spend && key !in w.shop.cache
    requires Gate(w.shop, w.now, Request(Some(key), c.path, c.payload, Some(c.theirs.proof))) == RunHandler(pid)
    ensures Step(w, Arrive(key)) == Some(w1) && Step(w1, Handled(key, status, false)) == Some(w2) && Step(w2, Receive(key)) == Some(w3)
    ensures w3.spend == w.spend[pid := w.spend[pid].(status := Settled)] && w3.runs == w.runs + [pid]
    ensures w3.shop.seen == w.shop.seen[pid := Seen(key, Price(c.path.endpoint), false)]
    ensures w3.shop.cache == w.shop.cache[key := Cached(c.payload, status)]
    ensures key in w3.calls && w3.calls[key].mine == Over(Received)
  {
    CallIsServed(w, key, c, pid, status);
    w1 := Step(w, Arrive(key)).value;
    w2 := Step(w1, Handled(key, status, false)).value;
    CallIsSettled(w2, key, pid, status);
    w3 := Step(w2, Receive(key)).value;
  }

  /** From any world in which the shop is open and the budget suffices, a call that nothing disturbs is paid for
      in full, served once, answered, and settled, and nothing else changes in either ledger. */
  lemma {:induction false} CallsCanSucceed(w: World, key: Key, task: TaskId, path: Path, payload: Payload, pid: PaymentId, status: int)
    requires CanBegin(w, key, task, path, pid) && status != 402
    ensures Run(w, GoodCall(key, task, path, payload, pid, status)).Some?
    ensures var u := Run(w, GoodCall(key, task, path, payload, pid, status)).value;
            && u.spend == w.spend[pid := Spend(task, Price(path.endpoint), path.slug, Settled, key)]
            && u.shop.seen == w.shop.seen[pid := Seen(key, Price(path.endpoint), false)] && u.runs == w.runs + [pid]
            && u.shop.cache == w.shop.cache[key := Cached(payload, status)]
            && key in u.calls && u.calls[key].mine == Over(Received)
  {
    var w1, w2, w3 := CallIsOpened(w, key, task, path, payload, pid);
    var w4, w5, w6 := CallIsClosed(w3, key, w3.calls[key], pid, status);
    RunAlong([w, w1, w2, w3, w4, w5, w6], GoodCall(key, task, path, payload, pid, status));
    assert w6.spend == w.spend[pid := Spend(task, Price(path.endpoint), path.slug, Settled, key)];
  }
}
