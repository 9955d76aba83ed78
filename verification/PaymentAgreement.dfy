/** What the two ledgers of the paid-request handshake say about each other, and the budget. */
module PaymentAgreement {
  import opened Results
  import opened Sums
  import opened Catalog
  import opened PaidRequests

  /** The merchant took the payment and kept the fee. */
  predicate Kept(w: World, p: PaymentId) {
    p in w.shop.seen && !w.shop.seen[p].refunded
  }

  predicate RefusedAsUnknownShop(w: World, key: Key) {
    key in w.calls && w.calls[key].theirs == Answered(Response(404, false, false), false)
  }

  // ---------------------------------------------------------------- agreement

  /** A settled payment was consumed exactly once, under its own key and for its full amount, and its
      fee was not refunded; the only exception is a shop that was gone when the paid request came. */
  lemma SettledWasConsumed(w: World, p: PaymentId)
    requires Reachable(w) && p in w.spend && w.spend[p].status == Settled
    ensures !RefusedAsUnknownShop(w, w.spend[p].call) ==>
      Kept(w, p) && w.shop.seen[p] == Seen(w.spend[p].call, w.spend[p].amount, false) && multiset(w.runs)[p] == 1
    ensures RefusedAsUnknownShop(w, w.spend[p].call) ==> p !in w.shop.seen && p !in w.runs
  {
    ReachableInv(w);
    var key := w.spend[p].call;
    assert CallOk(w, key, w.calls[key]);
    assert p in w.runs <==> multiset(w.runs)[p] > 0;
  }

  /** For every call whose response came through, the bridge has settled exactly the payments the
      merchant kept, and refunded exactly the others. */
  lemma ReceivedCallsAgree(w: World, key: Key)
    requires Reachable(w) && key in w.calls && w.calls[key].mine == Over(Received)
    requires !RefusedAsUnknownShop(w, key)
    ensures w.calls[key].pid.Some? && w.calls[key].pid.value in w.spend
    ensures w.spend[w.calls[key].pid.value].status == if Kept(w, w.calls[key].pid.value) then Settled else Refunded
  {
    ReachableInv(w);
    assert CallOk(w, key, w.calls[key]);
  }

  /** Each handler run consumed its own payment: no payment ran twice, and none ran unrecorded. */
  lemma HandlerRunsOncePerPayment(w: World)
    requires Reachable(w)
    ensures |w.runs| == |w.shop.seen| && forall i, j :: 0 <= i < j < |w.runs| ==> w.runs[i] != w.runs[j]
    ensures forall p :: p in w.runs <==> p in w.shop.seen
  {
    ReachableInv(w);
    forall p ensures p in w.runs <==> p in w.shop.seen {
      assert p in w.runs <==> multiset(w.runs)[p] > 0;
    }
    forall i, j | 0 <= i < j < |w.runs| ensures w.runs[i] != w.runs[j] {
      CountTwice(w.runs, i, j);
    }
    assert multiset(w.runs) == multiset(w.shop.seen.Keys);
    assert |w.runs| == |multiset(w.runs)| && |w.shop.seen| == |w.shop.seen.Keys|;
  }

  lemma CountTwice(s: seq<PaymentId>, i: nat, j: nat)
    requires i < j < |s| && multiset(s)[s[i]] <= 1
    ensures s[i] != s[j]
  {
    assert s == s[..i] + [s[i]] + s[i + 1..j] + [s[j]] + s[j + 1..];
  }

  /** Fresh keys make the idempotency cache silent: no call is ever answered by a replay or a conflict. */
  lemma FreshKeysNeverReplay(w: World, key: Key)
    requires Reachable(w) && key in w.calls && w.calls[key].theirs.Answered?
    ensures !w.calls[key].theirs.response.replayed
    ensures !w.calls[key].theirs.ran ==> w.calls[key].theirs.response.status in {402, 404}
  {
    ReachableInv(w);
    assert CallOk(w, key, w.calls[key]);
  }

  /** A repeated request under an answered key gets the first answer's status with the same payload and
      a conflict with another; nothing is charged either way, with or without a proof. */
  lemma RepeatIsAnsweredFromCache(s: Shop, pid: PaymentId, key: Key, payload: Payload, status: int, refunded: bool, now: int, again: Request)
    requires key !in s.cache && again.key == Some(key)
    requires again.path.slug in s.accounts && s.accounts[again.path.slug].active
    ensures Gate(Finish(s, pid, key, payload, status, refunded), now, again) ==
            if again.payload == payload then Reply(Response(status, false, true)) else Plain(409)
  {
    var after := Finish(s, pid, key, payload, status, refunded);
    assert after.cache[key] == Cached(payload, status) && after.accounts == s.accounts;
  }

  // ---------------------------------------------------------------- merchants that stay active

  ghost predicate StayActive(start: World, moves: seq<Move>) {
    && (forall s :: s in start.shop.accounts ==> start.shop.accounts[s].active)
    && (forall m :: m in moves && m.SetAccount? ==> m.account.active)
    && (forall m :: m in moves && m.Begin? ==> m.path.slug in start.shop.accounts)
  }

  ghost predicate NoneMissing(w: World) {
    && (forall s :: s in w.shop.accounts ==> w.shop.accounts[s].active)
    && (forall key :: key in w.calls ==> w.calls[key].path.slug in w.shop.accounts && !RefusedAsUnknownShop(w, key))
  }

  /** A step of a call touches no account and no other call; only its arrival can be refused by the gate. */
  lemma CallStepIsLocal(w: World, m: Move)
    requires !m.Tick? && !m.SetAccount? && Step(w, m).Some?
    ensures var next := Step(w, m).value;
            && next.shop.accounts == w.shop.accounts && m.key in next.calls
            && next.calls == w.calls[m.key := next.calls[m.key]]
            && (m.Begin? ==> next.calls[m.key].path == m.path)
            && (!m.Begin? ==> m.key in w.calls && next.calls[m.key].path == w.calls[m.key].path)
            && (!m.Arrive? && RefusedAsUnknownShop(next, m.key) ==> RefusedAsUnknownShop(w, m.key))
  {
  }

  lemma ArriveFindsShop(w: World, m: Move)
    requires Inv(w) && NoneMissing(w) && m.Arrive? && Step(w, m).Some?
    ensures !RefusedAsUnknownShop(Step(w, m).value, m.key)
  {
    var c := w.calls[m.key];
    assert CallOk(w, m.key, c);
    GateWithProof(w.shop, w.now, m.key, c.path, c.payload, c.theirs.proof);
  }

  lemma StepKeepsNoneMissing(w: World, m: Move)
    requires Inv(w) && NoneMissing(w) && Step(w, m).Some?
    requires m.SetAccount? ==> m.account.active
    requires m.Begin? ==> m.path.slug in w.shop.accounts
    ensures NoneMissing(Step(w, m).value) && w.shop.accounts.Keys <= Step(w, m).value.shop.accounts.Keys
  {
    if !m.Tick? && !m.SetAccount? {
      CallStepIsLocal(w, m);
      if m.Arrive? {
        ArriveFindsShop(w, m);
      }
    }
  }

  lemma {:induction false} RunKeepsNoneMissing(w: World, moves: seq<Move>)
    requires Inv(w) && NoneMissing(w) && Run(w, moves).Some? && StayActive(w, moves)
    ensures NoneMissing(Run(w, moves).value)
    decreases |moves|
  {
    if moves != [] {
      var m, rest := moves[0], moves[1..];
      assert m in moves && forall x :: x in rest ==> x in moves;
      StepKeepsNoneMissing(w, m);
      StepKeepsInv(w, m);
      RunKeepsNoneMissing(Step(w, m).value, rest);
    }
  }

  /** Merchants that stay active: settled on the bridge always means consumed once and kept. */
  lemma {:induction false} SettledImpliesKept(start: World, moves: seq<Move>, p: PaymentId)
    requires Fresh(start) && StayActive(start, moves) && Run(start, moves).Some?
    requires p in Run(start, moves).value.spend && Run(start, moves).value.spend[p].status == Settled
    ensures var w := Run(start, moves).value;
            Kept(w, p) && w.shop.seen[p].amount == w.spend[p].amount && multiset(w.runs)[p] == 1
  {
    var w := Run(start, moves).value;
    RunKeepsNoneMissing(start, moves);
    assert Reachable(w);
    ReachableInv(w);
    SettledWasConsumed(w, p);
  }

  function SettledAmount(): Spend -> int {
    (s: Spend) => if s.status == Settled then s.amount else 0
  }

  function KeptAmount(): Seen -> int {
    (s: Seen) => if s.refunded then 0 else s.amount
  }

  /** All payments together: the bridge never books more as spent than the merchants have earned. */
  lemma {:induction false} SettledSumAtMostEarned(start: World, moves: seq<Move>)
    requires Fresh(start) && StayActive(start, moves) && Run(start, moves).Some?
    ensures var w := Run(start, moves).value;
            MapSum(w.spend, SettledAmount()) <= MapSum(w.shop.seen, KeptAmount())
  {
    var w := Run(start, moves).value;
    forall p | p in w.spend && SettledAmount()(w.spend[p]) > 0
      ensures p in w.shop.seen && SettledAmount()(w.spend[p]) <= KeptAmount()(w.shop.seen[p])
    {
      SettledImpliesKept(start, moves, p);
    }
    MapSumDominated(w.spend, SettledAmount(), w.shop.seen, KeptAmount());
  }

  /** No message was lost and every call has come to its end. */
  ghost predicate NothingLost(w: World) {
    forall key :: key in w.calls ==> w.calls[key].mine in {Over(NotPaid), Over(Received)}
  }

  /** With nothing lost the two ledgers agree payment by payment, and so in their sums. */
  lemma {:induction false} LosslessLedgersAgree(start: World, moves: seq<Move>)
    requires Fresh(start) && StayActive(start, moves) && Run(start, moves).Some? && NothingLost(Run(start, moves).value)
    ensures var w := Run(start, moves).value;
            && (forall p :: p in w.spend ==> w.spend[p].status == if Kept(w, p) then Settled else Refunded)
            && (forall p :: p in w.shop.seen ==> p in w.spend && w.spend[p].amount == w.shop.seen[p].amount)
            && MapSum(w.spend, SettledAmount()) == MapSum(w.shop.seen, KeptAmount())
  {
    var w := Run(start, moves).value;
    RunKeepsNoneMissing(start, moves);
    assert Reachable(w);
    ReachableInv(w);
    forall p | p in w.spend
      ensures w.spend[p].status == if Kept(w, p) then Settled else Refunded
      ensures p in w.shop.seen ==> w.spend[p].amount == w.shop.seen[p].amount
    {
      var key := w.spend[p].call;
      assert CallOk(w, key, w.calls[key]);
      ReceivedCallsAgree(w, key);
    }
    SettledSumAtMostEarned(start, moves);
    MapSumDominated(w.shop.seen, KeptAmount(), w.spend, SettledAmount());
  }

  // ---------------------------------------------------------------- network failures

  /** What the gate still asks of a paid request when it arrives: an active shop, the merchant's secret,
      the wallet the proof names, and a proof that is not too old. */
  ghost predicate Admits(w: World, key: Key) {
    && key in w.calls && w.calls[key].theirs.InFlight?
    && var slug, proof := w.calls[key].path.slug, w.calls[key].theirs.proof;
       && slug in w.shop.accounts && w.shop.accounts[slug].active
       && proof.secret == w.shop.secret && proof.payTo == w.shop.accounts[slug].wallet
       && Age(w.now, proof.issuedAt) <= PROOF_MAX_AGE
  }

  /** The paid request of a call arrives as step `i` of a run, in a world where the gate lets it pass. */
  ghost predicate AdmittedAt(start: World, moves: seq<Move>, i: nat, key: Key) {
    i < |moves| && moves[i] == Arrive(key) && Run(start, moves[..i]).Some? && Admits(Run(start, moves[..i]).value, key)
  }

  lemma ArriveSees(w: World, key: Key)
    requires Inv(w) && Step(w, Arrive(key)).Some?
    ensures key in w.calls && w.calls[key].pid.Some?
    ensures Step(w, Arrive(key)).value.shop.seen.Keys == w.shop.seen.Keys + if Admits(w, key) then {w.calls[key].pid.value} else {}
  {
    assert CallOk(w, key, w.calls[key]);
  }

  lemma SeenStep(w: World, m: Move)
    requires Inv(w) && Step(w, m).Some?
    ensures m.Arrive? ==> m.key in w.calls && w.calls[m.key].pid.Some?
    ensures Step(w, m).value.shop.seen.Keys ==
            w.shop.seen.Keys + if m.Arrive? && Admits(w, m.key) then {w.calls[m.key].pid.value} else {}
  {
    if m.Arrive? {
      ArriveSees(w, m.key);
    } else {
      OtherStepsSeeNothing(w, m);
    }
  }

  lemma OtherStepsSeeNothing(w: World, m: Move)
    requires Step(w, m).Some? && !m.Arrive?
    ensures Step(w, m).value.shop.seen.Keys == w.shop.seen.Keys
  {
  }

  lemma RowStays(w: World, m: Move, p: PaymentId)
    requires Step(w, m).Some? && p in w.spend
    ensures p in Step(w, m).value.spend && Step(w, m).value.spend[p].call == w.spend[p].call
  {
  }

  lemma PidStays(w: World, m: Move, key: Key)
    requires Step(w, m).Some? && key in w.calls && w.calls[key].pid.Some? && CallOk(w, key, w.calls[key])
    ensures key in Step(w, m).value.calls && Step(w, m).value.calls[key].pid == w.calls[key].pid
  {
  }

  lemma {:induction false} PaymentStaysInRun(w: World, moves: seq<Move>, p: PaymentId, key: Key)
    requires Inv(w) && Run(w, moves).Some?
    ensures var end := Run(w, moves).value;
            && (p in w.spend ==> p in end.spend && end.spend[p].call == w.spend[p].call)
            && (key in w.calls && w.calls[key].pid.Some? ==> key in end.calls && end.calls[key].pid == w.calls[key].pid)
    decreases |moves|
  {
    if moves != [] {
      StepKeepsInv(w, moves[0]);
      if p in w.spend {
        RowStays(w, moves[0], p);
      }
      if key in w.calls && w.calls[key].pid.Some? {
        PidStays(w, moves[0], key);
      }
      PaymentStaysInRun(Step(w, moves[0]).value, moves[1..], p, key);
    }
  }

  lemma AdmittedShift(w: World, moves: seq<Move>, i: nat, key: Key)
    requires moves != [] && Step(w, moves[0]).Some?
    ensures AdmittedAt(w, moves, i + 1, key) <==> AdmittedAt(Step(w, moves[0]).value, moves[1..], i, key)
  {
    if i < |moves| - 1 {
      assert moves[..i + 1][0] == moves[0] && moves[..i + 1][1..] == moves[1..][..i];
    }
  }

  lemma AdmittedFirst(w: World, moves: seq<Move>, key: Key)
    ensures AdmittedAt(w, moves, 0, key) <==> moves != [] && moves[0] == Arrive(key) && Admits(w, key)
  {
    assert Run(w, moves[..0]) == Some(w);
  }

  /** A payment is consumed by an admitted arrival of its own call and by nothing else. */
  lemma {:induction false} SeenInRun(w: World, moves: seq<Move>, key: Key, p: PaymentId)
    requires Inv(w) && Run(w, moves).Some?
    requires key in Run(w, moves).value.calls && Run(w, moves).value.calls[key].pid == Some(p)
    ensures p in Run(w, moves).value.shop.seen <==> p in w.shop.seen || exists i: nat :: AdmittedAt(w, moves, i, key)
    decreases |moves|
  {
    if moves == [] {
      assert forall i: nat :: !AdmittedAt(w, moves, i, key);
    } else {
      var m, rest := moves[0], moves[1..];
      var next := Step(w, m).value;
      StepKeepsInv(w, m);
      SeenInRun(next, rest, key, p);
      SeenStep(w, m);
      FirstStepSees(w, moves, key, p);
      AdmittedFirst(w, moves, key);
      forall i: nat ensures AdmittedAt(w, moves, i + 1, key) <==> AdmittedAt(next, rest, i, key) {
        AdmittedShift(w, moves, i, key);
      }
      if j: nat :| AdmittedAt(w, moves, j, key) && j > 0 {
        assert AdmittedAt(next, rest, j - 1, key);
      }
    }
  }

  lemma {:induction false} FirstStepSees(w: World, moves: seq<Move>, key: Key, p: PaymentId)
    requires Inv(w) && moves != [] && Run(w, moves).Some?
    requires key in Run(w, moves).value.calls && Run(w, moves).value.calls[key].pid == Some(p)
    ensures p in Step(w, moves[0]).value.shop.seen <==> p in w.shop.seen || (moves[0] == Arrive(key) && Admits(w, key))
  {
    var m, end := moves[0], Run(w, moves).value;
    SeenStep(w, m);
    if m.Arrive? {
      var k := m.key;
      assert CallOk(w, k, w.calls[k]);
      PaymentStaysInRun(w, moves, w.calls[k].pid.value, k);
      RunKeepsInv(w, moves);
      assert CallOk(end, key, end.calls[key]);
    }
  }

  /** Which payments that the bridge cancelled after a network failure the merchant has consumed: exactly
      those whose request came past the gate, before or after the bridge gave up on it. Only the loss of
      the request justifies the credit, not that of the response. */
  lemma {:induction false} CancelledWasSeenExactly(start: World, moves: seq<Move>, key: Key)
    requires Fresh(start) && Run(start, moves).Some?
    requires key in Run(start, moves).value.calls && Run(start, moves).value.calls[key].mine == Over(NetworkFailed)
    ensures var w := Run(start, moves).value;
            && w.calls[key].pid.Some?
            && var p := w.calls[key].pid.value;
               && p in w.spend && w.spend[p].status == Refunded
               && (p in w.shop.seen <==> exists i: nat :: AdmittedAt(start, moves, i, key))
  {
    var w := Run(start, moves).value;
    RunKeepsInv(start, moves);
    assert CallOk(w, key, w.calls[key]);
    SeenInRun(start, moves, key, w.calls[key].pid.value);
  }

  function Opening(): World {
    World(0, Shop(map[0 := Account(7, true)], map[], map[], 42), 42, map[0 := Budget(30_000, 5_000)], map[], map[], [])
  }

  /** The comment that a network failure means the merchant never saw the payment is wrong: here the
      response is lost, the bridge takes its credit back, and the merchant has been paid. */
  lemma LostResponseIsNotRefunded()
    ensures var moves := [Begin(1, 0, Path(0, Quote), 5), FirstAnswer(1), Pay(1, 9), Arrive(1), Handled(1, 200, false), NetworkError(1)];
            && Fresh(Opening()) && StayActive(Opening(), moves) && Run(Opening(), moves).Some?
            && var w := Run(Opening(), moves).value;
               9 in w.spend && w.spend[9].status == Refunded && Kept(w, 9)
  {
    var path := Path(0, Quote);
    var w0 := Opening();
    var moves := [Begin(1, 0, path, 5), FirstAnswer(1), Pay(1, 9), Arrive(1), Handled(1, 200, false), NetworkError(1)];
    var w1 := Step(w0, moves[0]).value;
    var w2 := Step(w1, moves[1]).value;
    assert w2.calls[1].mine == Challenged(Requirements(500, 7, path, 1));
    assert Spent(w2.spend, 0) == 0;
    var w3 := Step(w2, moves[2]).value;
    assert w3.calls[1].theirs == InFlight(Proof(9, 500, 7, path, 1, 0, 42));
    var w4 := Step(w3, moves[3]).value;
    assert w4.calls[1].theirs.Handling?;
    var w5 := Step(w4, moves[4]).value;
    var w6 := Step(w5, moves[5]).value;
    RunOfSix(w0, moves, w1, w2, w3, w4, w5, w6);
  }

  lemma {:induction false} RunOfSix(w0: World, moves: seq<Move>, w1: World, w2: World, w3: World, w4: World, w5: World, w6: World)
    requires |moves| == 6
    requires Step(w0, moves[0]) == Some(w1) && Step(w1, moves[1]) == Some(w2) && Step(w2, moves[2]) == Some(w3)
    requires Step(w3, moves[3]) == Some(w4) && Step(w4, moves[4]) == Some(w5) && Step(w5, moves[5]) == Some(w6)
    ensures Run(w0, moves) == Some(w6)
  {
    var a, b, c, d, e, f := moves[1..], moves[2..], moves[3..], moves[4..], moves[5..], moves[6..];
    assert Run(w6, f) == Some(w6);
    assert e[1..] == f && Run(w5, e) == Run(w6, f);
    assert d[1..] == e && Run(w4, d) == Run(w5, e);
    assert c[1..] == d && Run(w3, c) == Run(w4, d);
    assert b[1..] == c && Run(w2, b) == Run(w3, c);
    assert a[1..] == b && Run(w1, a) == Run(w2, b);
  }

  // ---------------------------------------------------------------- the budget

  ghost predicate WithinBudget(w: World) {
    && (forall task :: task in w.budgets ==> Spent(w.spend, task) <= w.budgets[task].total)
    && (forall p :: p in w.spend ==> w.spend[p].task in w.budgets && w.spend[p].amount <= w.budgets[w.spend[p].task].perRequest)
  }

  lemma StatusOnlyLowers(w: World, p: PaymentId, status: SpendStatus)
    requires WithinBudget(w) && p in w.spend && w.spend[p].status == Pending
    ensures WithinBudget(SetStatus(w, p, status))
  {
    var next := SetStatus(w, p, status);
    forall task | task in w.budgets ensures Spent(next.spend, task) <= w.budgets[task].total {
      MapSumReplace(w.spend, p, w.spend[p].(status := status), Counted(task));
    }
  }

  lemma PayStaysWithin(w: World, key: Key, c: Call, pid: PaymentId)
    requires WithinBudget(w) && c.mine.Challenged? && pid !in w.spend
    ensures WithinBudget(PayStep(w, key, c, pid))
  {
    var amount := c.mine.requirements.amount;
    if PayCheck(w.budgets, w.spend, c.task, amount).Pass? {
      var row := Spend(c.task, amount, c.path.slug, Pending, key);
      forall task | task in w.budgets ensures Spent(w.spend[pid := row], task) <= w.budgets[task].total {
        MapSumInsert(w.spend, pid, row, Counted(task));
      }
    }
  }

  lemma OtherStepsKeepSpend(w: World, m: Move)
    requires !m.Pay? && !m.Receive? && !m.NetworkError? && Step(w, m).Some?
    ensures Step(w, m).value.spend == w.spend && Step(w, m).value.budgets == w.budgets
  {
  }

  lemma EndKeepsBudget(w: World, m: Move)
    requires Inv(w) && WithinBudget(w) && (m.Receive? || m.NetworkError?) && Step(w, m).Some?
    ensures WithinBudget(Step(w, m).value)
  {
    var c := w.calls[m.key];
    assert CallOk(w, m.key, c);
    if c.mine.Waiting? {
      var status := if m.Receive? then Decide(c.theirs.response) else Refunded;
      StatusOnlyLowers(w, c.pid.value, status);
      assert Step(w, m).value.spend == SetStatus(w, c.pid.value, status).spend;
    }
  }

  lemma StepKeepsBudget(w: World, m: Move)
    requires Inv(w) && WithinBudget(w) && Step(w, m).Some?
    ensures WithinBudget(Step(w, m).value)
  {
    if m.Pay? {
      PayStaysWithin(w, m.key, w.calls[m.key], m.pid);
    } else if m.Receive? || m.NetworkError? {
      EndKeepsBudget(w, m);
    } else {
      OtherStepsKeepSpend(w, m);
    }
  }

  /** Under any interleaving of calls of any number of tasks, and whatever the network does, settled
      and pending spend never exceeds a task's budget, and no payment exceeds the per-request cap. */
  lemma {:induction false} BudgetIsHard(w: World, moves: seq<Move>)
    requires Inv(w) && WithinBudget(w) && Run(w, moves).Some?
    ensures WithinBudget(Run(w, moves).value)
    decreases |moves|
  {
    if moves != [] {
      StepKeepsBudget(w, moves[0]);
      StepKeepsInv(w, moves[0]);
      BudgetIsHard(Step(w, moves[0]).value, moves[1..]);
    }
  }

  function SettledOf(task: TaskId): Spend -> int {
    (s: Spend) => if s.task == task && s.status == Settled then s.amount else 0
  }

  /** So the research total a receipt reports is within the task's budget. */
  lemma ResearchWithinBudget(w: World, task: TaskId)
    requires Reachable(w) && task in w.budgets
    ensures MapSum(w.spend, SettledOf(task)) <= w.budgets[task].total
  {
    var start, moves :| Fresh(start) && Run(start, moves) == Some(w);
    BudgetIsHard(start, moves);
    MapSumDominated(w.spend, SettledOf(task), w.spend, Counted(task));
  }

  // ---------------------------------------------------------------- what merchants keep

  /** A payment with what became of it on both sides. */
  datatype Line = Line(spend: Spend, kept: bool)

  ghost function Statement(w: World): map<PaymentId, Line> {
    map p | p in w.spend :: Line(w.spend[p], Kept(w, p))
  }

  function KeptOf(task: TaskId): Line -> int {
    (l: Line) => if l.spend.task == task && l.kept then l.spend.amount else 0
  }

  function CountedOf(task: TaskId): Line -> int {
    (l: Line) => Counted(task)(l.spend)
  }

  /** Cancelled by the bridge, yet kept by the merchant. */
  function LostOf(task: TaskId): Line -> int {
    (l: Line) => if l.spend.task == task && l.kept && l.spend.status == Refunded then l.spend.amount else 0
  }

  lemma {:induction false} MapSumOfTwo(m: map<PaymentId, Line>, f: Line -> int, g: Line -> int, h: Line -> int)
    requires forall p :: p in m ==> f(m[p]) <= g(m[p]) + h(m[p])
    ensures MapSum(m, f) <= MapSum(m, g) + MapSum(m, h)
    decreases |m|
  {
    if m != map[] {
      var p :| p in m && MapSum(m, f) == f(m[p]) + MapSum(m - {p}, f);
      MapSumRemove(m, p, g);
      MapSumRemove(m, p, h);
      MapSumOfTwo(m - {p}, f, g, h);
    }
  }

  lemma {:induction false} StatementSum(spend: map<PaymentId, Spend>, lines: map<PaymentId, Line>, task: TaskId)
    requires lines.Keys == spend.Keys && forall p :: p in spend ==> lines[p].spend == spend[p]
    ensures MapSum(lines, CountedOf(task)) == MapSum(spend, Counted(task))
    decreases |spend|
  {
    if spend == map[] {
      assert lines == map[];
    } else {
      var p :| p in spend && MapSum(spend, Counted(task)) == Counted(task)(spend[p]) + MapSum(spend - {p}, Counted(task));
      MapSumRemove(lines, p, CountedOf(task));
      StatementSum(spend - {p}, lines - {p}, task);
    }
  }

  lemma LostCallFailed(w: World, p: PaymentId)
    requires Inv(w) && p in w.spend && w.spend[p].status == Refunded && Kept(w, p)
    ensures w.spend[p].call in w.calls && w.calls[w.spend[p].call].mine == Over(NetworkFailed)
  {
    var key := w.spend[p].call;
    assert CallOk(w, key, w.calls[key]);
  }

  lemma KeptIsCountedOrLost(w: World, task: TaskId)
    ensures MapSum(Statement(w), KeptOf(task)) <= Spent(w.spend, task) + MapSum(Statement(w), LostOf(task))
  {
    StatementSum(w.spend, Statement(w), task);
    MapSumOfTwo(Statement(w), KeptOf(task), CountedOf(task), LostOf(task));
  }

  /** What merchants keep of a task is within its budget, but for the payments that were consumed and yet
      cancelled; and those are payments of calls whose response was lost. */
  lemma KeptWithinBudgetAndLost(w: World, task: TaskId)
    requires Reachable(w) && task in w.budgets
    ensures MapSum(Statement(w), KeptOf(task)) <= w.budgets[task].total + MapSum(Statement(w), LostOf(task))
    ensures forall p :: p in w.shop.seen ==> p in Statement(w)
    ensures forall p :: p in w.spend && w.spend[p].status == Refunded && Kept(w, p) ==>
              w.spend[p].call in w.calls && w.calls[w.spend[p].call].mine == Over(NetworkFailed)
  {
    var start, moves :| Fresh(start) && Run(start, moves) == Some(w);
    BudgetIsHard(start, moves);
    ReachableInv(w);
    KeptIsCountedOrLost(w, task);
    forall p | p in w.spend && w.spend[p].status == Refunded && Kept(w, p)
      ensures w.spend[p].call in w.calls && w.calls[w.spend[p].call].mine == Over(NetworkFailed)
    {
      LostCallFailed(w, p);
    }
  }
}
