/** The paid-request handshake between the bridge and the merchants: both ledgers, the merchant's
    payment gate, and a network that may lose, delay or cut off any message.

    One step is one stretch without an await. A key identifies one call of paidFetch, which always
    draws a fresh one; the body hash is taken to be injective, and a proof's signature to be valid
    exactly when it was made with the merchant's secret. */
module PaidRequests {
  import opened Results
  import opened Sums
  import opened Catalog

  type PaymentId = nat
  type Key = nat
  type Wallet = nat
  type TaskId = nat
  type Payload = nat

  datatype Endpoint = Ask | Inventory | Quote | QuoteBasket | Negotiate | Reserve

  function Price(e: Endpoint): nat {
    match e
    case Ask => 200
    case Inventory => 300
    case Quote => 500
    case QuoteBasket => 500
    case Negotiate => 2_000
    case Reserve => 1_000
  }

  const PROOF_MAX_AGE := 600

  datatype Path = Path(slug: Slug, endpoint: Endpoint)

  datatype Proof = Proof(paymentId: PaymentId, amount: nat, payTo: Wallet, path: Path, key: Key, issuedAt: int, secret: nat)

  datatype Request = Request(key: Option<Key>, path: Path, payload: Payload, proof: Option<Proof>)

  datatype Requirements = Requirements(amount: nat, payTo: Wallet, path: Path, key: Key)

  datatype Response = Response(status: int, feeRefunded: bool, replayed: bool)

  // ---------------------------------------------------------------- the merchant's gate

  datatype Account = Account(wallet: Wallet, active: bool)

  datatype Seen = Seen(key: Key, amount: nat, refunded: bool)

  datatype Cached = Cached(payload: Payload, status: int)

  datatype Shop = Shop(accounts: map<Slug, Account>, seen: map<PaymentId, Seen>, cache: map<Key, Cached>, secret: nat)

  datatype Verdict = Reply(response: Response) | Challenge(requirements: Requirements) | RunHandler(paymentId: PaymentId)

  function Plain(status: int): Verdict {
    Reply(Response(status, false, false))
  }

  function Age(now: int, issuedAt: int): int {
    if now >= issuedAt then now - issuedAt else issuedAt - now
  }

  /** The checks of a proof, in order; each failure answers 402. */
  predicate ProofAccepted(s: Shop, now: int, wallet: Wallet, path: Path, key: Key, p: Proof) {
    && p.secret == s.secret
    && p.amount == Price(path.endpoint) && p.payTo == wallet
    && p.path == path && p.key == key
    && Age(now, p.issuedAt) <= PROOF_MAX_AGE
    && p.paymentId !in s.seen
  }

  function Gate(s: Shop, now: int, r: Request): Verdict {
    if r.path.slug !in s.accounts || !s.accounts[r.path.slug].active then Plain(404)
    else if r.key.None? then Plain(400)
    else
      var key := r.key.value;
      var wallet := s.accounts[r.path.slug].wallet;
      if key in s.cache then
        if s.cache[key].payload != r.payload then Plain(409)
        else Reply(Response(s.cache[key].status, false, true))
      else if r.proof.None? then Challenge(Requirements(Price(r.path.endpoint), wallet, r.path, key))
      else if ProofAccepted(s, now, wallet, r.path, key, r.proof.value) then RunHandler(r.proof.value.paymentId)
      else Plain(402)
  }

  function Consume(s: Shop, pid: PaymentId, key: Key, path: Path): Shop {
    s.(seen := s.seen[pid := Seen(key, Price(path.endpoint), false)])
  }

  /** After the handler: the refund flag, and the cached response unless the key already has one. */
  function Finish(s: Shop, pid: PaymentId, key: Key, payload: Payload, status: int, refunded: bool): Shop {
    var marked := if refunded && pid in s.seen then s.(seen := s.seen[pid := s.seen[pid].(refunded := true)]) else s;
    if key in s.cache then marked else marked.(cache := s.cache[key := Cached(payload, status)])
  }

  // ---------------------------------------------------------------- the bridge

  datatype SpendStatus = Pending | Settled | Refunded

  /** A spend row; `call` records which call issued it and is read by no step. */
  datatype Spend = Spend(task: TaskId, amount: nat, slug: Slug, status: SpendStatus, call: Key)

  datatype Budget = Budget(total: nat, perRequest: nat)

  datatype Ending = NotPaid | Received | NetworkFailed | Unreadable

  datatype BridgeSide = Asking | Challenged(requirements: Requirements) | Waiting | Over(how: Ending)

  /** `ran` tells an answer of the handler from one the gate gave itself. */
  datatype WireSide = Unsent | InFlight(proof: Proof) | Handling | Answered(response: Response, ran: bool)

  datatype Call = Call(task: TaskId, path: Path, payload: Payload, pid: Option<PaymentId>, mine: BridgeSide, theirs: WireSide)

  datatype World = World(now: int, shop: Shop, secret: nat, budgets: map<TaskId, Budget>,
                         spend: map<PaymentId, Spend>, calls: map<Key, Call>, runs: seq<PaymentId>)

  function Counted(task: TaskId): Spend -> int {
    (s: Spend) => if s.task == task && s.status != Refunded then s.amount else 0
  }

  /** Settled and pending spend of a task; refunds are excluded. */
  ghost function Spent(spend: map<PaymentId, Spend>, task: TaskId): int {
    MapSum(spend, Counted(task))
  }

  datatype BudgetError = UnknownTask | PerRequest | Total

  ghost function PayCheck(budgets: map<TaskId, Budget>, spend: map<PaymentId, Spend>, task: TaskId, amount: nat): Outcome<BudgetError> {
    if task !in budgets then Fail(UnknownTask)
    else if amount > budgets[task].perRequest then Fail(PerRequest)
    else if amount > budgets[task].total - Spent(spend, task) then Fail(Total)
    else Pass
  }

  /** What paidFetch does with the response to the paid request. */
  function Decide(r: Response): SpendStatus {
    if r.feeRefunded then Refunded
    else if r.status == 402 then Refunded
    else Settled
  }

  // ---------------------------------------------------------------- steps

  datatype Move =
    | Begin(key: Key, task: TaskId, path: Path, payload: Payload)
    | FirstAnswer(key: Key)
    | Pay(key: Key, pid: PaymentId)
    | Arrive(key: Key)
    | Handled(key: Key, status: int, refunded: bool)
    | Receive(key: Key)
    | NetworkError(key: Key)
    | Garbled(key: Key)
    | Tick(seconds: nat)
    | SetAccount(slug: Slug, account: Account)

  function SetCall(w: World, key: Key, c: Call): World {
    w.(calls := w.calls[key := c])
  }

  function SetStatus(w: World, pid: PaymentId, status: SpendStatus): World {
    if pid in w.spend then w.(spend := w.spend[pid := w.spend[pid].(status := status)]) else w
  }

  ghost function Step(w: World, m: Move): Option<World> {
    match m
    case Tick(seconds) => Some(w.(now := w.now + seconds))
    case SetAccount(slug, account) => Some(w.(shop := w.shop.(accounts := w.shop.accounts[slug := account])))
    case Begin(key, task, path, payload) =>
      if key in w.calls || key in w.shop.cache then None
      else Some(SetCall(w, key, Call(task, path, payload, None, Asking, Unsent)))
    case _ =>
      if m.key !in w.calls then None else CallStep(w, m.key, w.calls[m.key], m)
  }

  ghost function CallStep(w: World, key: Key, c: Call, m: Move): Option<World> {
    match m
    case FirstAnswer(_) =>
      if !c.mine.Asking? then None
      else
        var v := Gate(w.shop, w.now, Request(Some(key), c.path, c.payload, None));
        Some(SetCall(w, key, c.(mine := if v.Challenge? then Challenged(v.requirements) else Over(NotPaid))))
    case Pay(_, pid) => if c.mine.Challenged? && pid !in w.spend then Some(PayStep(w, key, c, pid)) else None
    case Arrive(_) => if c.theirs.InFlight? then Some(ArriveStep(w, key, c)) else None
    case Handled(_, status, refunded) =>
      // no handler behind the gate answers 402
      if c.theirs.Handling? && c.pid.Some? && status != 402 then Some(HandledStep(w, key, c, status, refunded)) else None
    case Receive(_) =>
      if c.mine.Waiting? && c.theirs.Answered? && c.pid.Some? then
        Some(SetCall(SetStatus(w, c.pid.value, Decide(c.theirs.response)), key, c.(mine := Over(Received))))
      else None
    case NetworkError(_) =>
      if c.mine.Asking? then Some(SetCall(w, key, c.(mine := Over(NotPaid))))
      else if c.mine.Waiting? && c.pid.Some? then
        Some(SetCall(SetStatus(w, c.pid.value, Refunded), key, c.(mine := Over(NetworkFailed))))
      else None
    case Garbled(_) =>
      // the body cannot be read, and the row stays pending
      if c.mine.Waiting? && c.theirs.Answered? then Some(SetCall(w, key, c.(mine := Over(Unreadable)))) else None
    case _ => None
  }

  ghost function PayStep(w: World, key: Key, c: Call, pid: PaymentId): World
    requires c.mine.Challenged?
  {
    var q := c.mine.requirements;
    if PayCheck(w.budgets, w.spend, c.task, q.amount).Fail? then SetCall(w, key, c.(mine := Over(NotPaid)))
    else
      var proof := Proof(pid, q.amount, q.payTo, q.path, q.key, w.now, w.secret);
      SetCall(w.(spend := w.spend[pid := Spend(c.task, q.amount, c.path.slug, Pending, key)]), key,
              c.(pid := Some(pid), mine := Waiting, theirs := InFlight(proof)))
  }

  /** The paid request reaches the merchant, possibly after the bridge has given up on it. */
  ghost function ArriveStep(w: World, key: Key, c: Call): World
    requires c.theirs.InFlight?
  {
    match Gate(w.shop, w.now, Request(Some(key), c.path, c.payload, Some(c.theirs.proof)))
    case RunHandler(pid) =>
      SetCall(w.(shop := Consume(w.shop, pid, key, c.path), runs := w.runs + [pid]), key, c.(theirs := Handling))
    case Reply(response) => SetCall(w, key, c.(theirs := Answered(response, false)))
    case Challenge(_) => SetCall(w, key, c.(theirs := Answered(Response(402, false, false), false)))
  }

  ghost function HandledStep(w: World, key: Key, c: Call, status: int, refunded: bool): World
    requires c.pid.Some?
  {
    SetCall(w.(shop := Finish(w.shop, c.pid.value, key, c.payload, status, refunded)), key,
            c.(theirs := Answered(Response(status, refunded, false), true)))
  }

  ghost function Run(w: World, moves: seq<Move>): Option<World>
    decreases |moves|
  {
    if moves == [] then Some(w)
    else
      match Step(w, moves[0])
      case None => None
      case Some(next) => Run(next, moves[1..])
  }

  ghost predicate Fresh(w: World) {
    w.spend == map[] && w.calls == map[] && w.runs == [] && w.shop.seen == map[] && w.shop.cache == map[]
  }

  ghost predicate Reachable(w: World) {
    exists start, moves :: Fresh(start) && Run(start, moves) == Some(w)
  }

  // ---------------------------------------------------------------- the invariant

  ghost predicate TheirsOk(w: World, key: Key, c: Call, p: PaymentId) {
    match c.theirs
    case Unsent => false
    case InFlight(proof) =>
      && proof.paymentId == p && p !in w.shop.seen && key !in w.shop.cache
      && proof.amount == Price(c.path.endpoint) && proof.path == c.path && proof.key == key
    case Handling => p in w.shop.seen && w.shop.seen[p] == Seen(key, Price(c.path.endpoint), false) && key !in w.shop.cache
    case Answered(r, true) =>
      p in w.shop.seen && w.shop.seen[p] == Seen(key, Price(c.path.endpoint), r.feeRefunded) && r.status != 402 && !r.replayed
    case Answered(r, false) =>
      p !in w.shop.seen && key !in w.shop.cache && !r.feeRefunded && !r.replayed && r.status in {402, 404}
  }

  ghost predicate MineOk(c: Call, status: SpendStatus) {
    match c.mine
    case Waiting => status == Pending
    case Over(Received) => c.theirs.Answered? && status == Decide(c.theirs.response)
    case Over(NetworkFailed) => status == Refunded
    case Over(Unreadable) => c.theirs.Answered? && status == Pending
    case _ => false
  }

  predicate AsksForThis(q: Requirements, key: Key, path: Path) {
    q.amount == Price(path.endpoint) && q.path == path && q.key == key
  }

  ghost predicate CallOk(w: World, key: Key, c: Call) {
    match c.pid
    case None =>
      && c.theirs.Unsent? && key !in w.shop.cache
      && (c.mine.Asking? || c.mine == Over(NotPaid) || (c.mine.Challenged? && AsksForThis(c.mine.requirements, key, c.path)))
    case Some(p) =>
      && p in w.spend && w.spend[p].call == key && w.spend[p].slug == c.path.slug
      && w.spend[p].task == c.task && w.spend[p].amount == Price(c.path.endpoint)
      && MineOk(c, w.spend[p].status) && TheirsOk(w, key, c, p)
  }

  ghost predicate CallsOk(w: World) {
    forall key :: key in w.calls ==> CallOk(w, key, w.calls[key])
  }

  ghost predicate LedgersOk(w: World) {
    && (forall p :: p in w.spend ==> w.spend[p].call in w.calls && w.calls[w.spend[p].call].pid == Some(p))
    && (forall p :: p in w.shop.seen ==> p in w.spend)
    && (forall key :: key in w.shop.cache ==> key in w.calls)
    && (forall p :: multiset(w.runs)[p] == if p in w.shop.seen then 1 else 0)
  }

  ghost predicate Inv(w: World) {
    CallsOk(w) && LedgersOk(w)
  }

  /** Changing one call, its own spend row and its own merchant row cannot disturb another call. */
  lemma OtherCallsKept(w: World, next: World, key: Key)
    requires Inv(w) && key in next.calls && CallOk(next, key, next.calls[key])
    requires forall k :: k in next.calls ==> k == key || (k in w.calls && next.calls[k] == w.calls[k])
    requires forall p :: p in w.spend && w.spend[p].call != key ==> p in next.spend && next.spend[p] == w.spend[p]
    requires forall p :: p in w.spend && w.spend[p].call != key ==>
      (p in next.shop.seen <==> p in w.shop.seen) && (p in w.shop.seen ==> next.shop.seen[p] == w.shop.seen[p])
    requires forall k :: k != key ==> (k in next.shop.cache <==> k in w.shop.cache)
    ensures CallsOk(next)
  {
    forall k | k in next.calls ensures CallOk(next, k, next.calls[k]) {
      if k != key {
        assert CallOk(w, k, w.calls[k]);
      }
    }
  }

  lemma RunsAppend(w: World, pid: PaymentId)
    requires forall p :: multiset(w.runs)[p] == if p in w.shop.seen then 1 else 0
    requires pid !in w.shop.seen
    ensures forall p :: multiset(w.runs + [pid])[p] == if p in w.shop.seen || p == pid then 1 else 0
  {
  }

  lemma BeginKeeps(w: World, m: Move)
    requires Inv(w) && (m.Begin? || m.FirstAnswer?) && Step(w, m).Some?
    ensures Inv(Step(w, m).value)
  {
    OtherCallsKept(w, Step(w, m).value, m.key);
  }

  lemma PayKeeps(w: World, m: Move)
    requires Inv(w) && m.Pay? && Step(w, m).Some?
    ensures Inv(Step(w, m).value)
  {
    OtherCallsKept(w, Step(w, m).value, m.key);
  }

  /** What the gate can say to a request that carries a proof under a key it has not answered yet. */
  lemma GateWithProof(s: Shop, now: int, key: Key, path: Path, payload: Payload, proof: Proof)
    requires key !in s.cache
    ensures var v := Gate(s, now, Request(Some(key), path, payload, Some(proof)));
            && !v.Challenge?
            && (v.RunHandler? ==> v.paymentId == proof.paymentId && proof.paymentId !in s.seen)
            && (v.Reply? ==> v in {Plain(402), Plain(404)})
            && (v == Plain(404) <==> path.slug !in s.accounts || !s.accounts[path.slug].active)
  {
  }

  lemma ArriveKeeps(w: World, m: Move)
    requires Inv(w) && m.Arrive? && Step(w, m).Some?
    ensures Inv(Step(w, m).value)
  {
    var next := Step(w, m).value;
    var c := w.calls[m.key];
    assert CallOk(w, m.key, c);
    GateWithProof(w.shop, w.now, m.key, c.path, c.payload, c.theirs.proof);
    if next.runs != w.runs {
      RunsAppend(w, c.pid.value);
      ConsumedKeeps(w, next, m.key, c.pid.value);
    }
    OtherCallsKept(w, next, m.key);
  }

  lemma ConsumedKeeps(w: World, next: World, key: Key, p: PaymentId)
    requires Inv(w) && key in w.calls && CallOk(w, key, w.calls[key]) && w.calls[key].pid == Some(p) && w.calls[key].theirs.InFlight?
    requires next == SetCall(w.(shop := Consume(w.shop, p, key, w.calls[key].path), runs := w.runs + [p]), key,
                             w.calls[key].(theirs := Handling))
    requires forall q :: multiset(next.runs)[q] == if q in w.shop.seen || q == p then 1 else 0
    ensures LedgersOk(next) && CallOk(next, key, next.calls[key])
  {
  }

  lemma HandledKeeps(w: World, m: Move)
    requires Inv(w) && m.Handled? && Step(w, m).Some?
    ensures Inv(Step(w, m).value)
  {
    OtherCallsKept(w, Step(w, m).value, m.key);
  }

  /** Closing a waiting call and its own row. */
  lemma CloseKeeps(w: World, key: Key, c: Call, p: PaymentId, status: SpendStatus, how: Ending)
    requires Inv(w) && key in w.calls && w.calls[key] == c && c.pid == Some(p) && c.mine.Waiting?
    requires MineOk(c.(mine := Over(how)), status)
    ensures Inv(SetCall(SetStatus(w, p, status), key, c.(mine := Over(how))))
  {
    assert CallOk(w, key, c);
    OtherCallsKept(w, SetCall(SetStatus(w, p, status), key, c.(mine := Over(how))), key);
  }

  lemma EndKeeps(w: World, m: Move)
    requires Inv(w) && (m.Receive? || m.NetworkError? || m.Garbled?) && Step(w, m).Some?
    ensures Inv(Step(w, m).value)
  {
    var c := w.calls[m.key];
    assert CallOk(w, m.key, c);
    if c.mine.Waiting? {
      var p := c.pid.value;
      if m.Receive? {
        CloseKeeps(w, m.key, c, p, Decide(c.theirs.response), Received);
      } else if m.NetworkError? {
        CloseKeeps(w, m.key, c, p, Refunded, NetworkFailed);
      } else {
        CloseKeeps(w, m.key, c, p, Pending, Unreadable);
        assert w.spend[p := w.spend[p].(status := Pending)] == w.spend;
      }
    } else {
      OtherCallsKept(w, Step(w, m).value, m.key);
    }
  }

  lemma StepKeepsInv(w: World, m: Move)
    requires Inv(w) && Step(w, m).Some?
    ensures Inv(Step(w, m).value)
  {
    match m
    case Tick(_) => SameTablesKeep(w, Step(w, m).value);
    case SetAccount(_, _) => SameTablesKeep(w, Step(w, m).value);
    case Begin(_, _, _, _) => BeginKeeps(w, m);
    case FirstAnswer(_) => BeginKeeps(w, m);
    case Pay(_, _) => PayKeeps(w, m);
    case Arrive(_) => ArriveKeeps(w, m);
    case Handled(_, _, _) => HandledKeeps(w, m);
    case _ => EndKeeps(w, m);
  }

  lemma SameTablesKeep(w: World, next: World)
    requires Inv(w) && next.calls == w.calls && next.spend == w.spend && next.runs == w.runs
    requires next.shop.seen == w.shop.seen && next.shop.cache == w.shop.cache
    ensures Inv(next)
  {
    forall k | k in next.calls ensures CallOk(next, k, next.calls[k]) {
      assert CallOk(w, k, w.calls[k]);
    }
  }

  lemma {:induction false} RunKeepsInv(w: World, moves: seq<Move>)
    requires Inv(w) && Run(w, moves).Some?
    ensures Inv(Run(w, moves).value)
    decreases |moves|
  {
    if moves != [] {
      StepKeepsInv(w, moves[0]);
      RunKeepsInv(Step(w, moves[0]).value, moves[1..]);
    }
  }

  lemma ReachableInv(w: World)
    requires Reachable(w)
    ensures Inv(w)
  {
    var start, moves :| Fresh(start) && Run(start, moves) == Some(w);
    RunKeepsInv(start, moves);
  }
}
