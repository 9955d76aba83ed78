/** The mock chain is simulated, call by call, by the on-chain program. */
module ChainSimulation {
  import opened Catalog
  import opened Results
  import opened Sums
  import P = EscrowProgram
  import Safety = EscrowSafety
  import M = MockChain

  /** What a deployment fixes: the mock wallet and its token account, the accepted mint, and for each
      merchant the registered payout wallet and its token account. */
  datatype Deployment = Deployment(
    buyer: P.Address, source: P.Address, mint: P.Mint, wallets: map<P.U64, P.Address>, payouts: map<P.U64, P.Address>)

  ghost predicate Deployed(d: Deployment, s: P.State) {
    && d.buyer.External? && d.source.External? && d.source in s.tokens
    && s.tokens[d.source].owner == d.buyer && s.tokens[d.source].mint == d.mint
    && s.config.Some? && s.config.value.usdcMint == d.mint
    && s.merchantWallets == d.wallets && d.payouts.Keys == d.wallets.Keys
    && (forall m :: m in d.wallets ==> d.wallets[m].External?)
    && (forall m :: m in d.payouts ==>
          && d.payouts[m].External? && d.payouts[m] in s.tokens && d.payouts[m] != d.source
          && s.tokens[d.payouts[m]].owner == d.wallets[m] && s.tokens[d.payouts[m]].mint == d.mint)
  }

  /** The order on chain that a mock row stands for. */
  function OrderOf(e: M.Escrow): P.Order
    requires e.amount <= P.MAX_U64
  {
    P.Order(e.merchantId, e.buyer, e.amount, e.quoteHash, e.pickupCodeHash, e.fundedAt, e.releaseDeadline, e.state)
  }

  ghost predicate LedgerOk(s: P.State) {
    Safety.WellFormed(s) && Safety.VaultsExact(s) && Safety.SupplyFits(s)
  }

  /** Row `id` of the mock and order `id` on chain are the same order, held in the accepted mint. */
  ghost predicate RowMatches(d: Deployment, c: M.Chain, s: P.State, id: P.U64) {
    && (id in s.orders <==> c.Has(id))
    && (c.Has(id) ==>
          && c.Get(id).amount <= P.MAX_U64 && s.orders[id] == OrderOf(c.Get(id))
          && c.Get(id).buyer == d.buyer && c.Get(id).merchantId in d.wallets && !c.Get(id).state.Disputed?)
    && (P.VaultPda(id) in s.tokens ==> s.tokens[P.VaultPda(id)].mint == d.mint)
  }

  /** Same order ids, same orders, same states, same buyer balance. */
  ghost predicate Simulates(d: Deployment, c: M.Chain, s: P.State) {
    && Deployed(d, s) && LedgerOk(s)
    && s.tokens[d.source].balance == c.balance
    && s.config.value.nextOrderId == |c.escrows| + 1
    && forall id: P.U64 :: RowMatches(d, c, s, id)
  }

  /** The calls the simulation is promised for: funding from the mock wallet, of a positive amount,
      with a future deadline, for a registered merchant that is not scripted to fail. */
  ghost predicate Covered(d: Deployment, failSlugs: set<Slug>, now: int, op: M.Op) {
    if op.Fund? then
      var p := op.params;
      p.buyer == d.buyer && 0 < p.amount <= P.MAX_U64 && p.releaseDeadline > now && p.merchantId in d.wallets && p.merchantSlug !in failSlugs
    else 0 <= op.id <= P.MAX_U64
  }

  /** The transaction that corresponds to a mock call: sent by the buyer or by the order's own merchant. */
  ghost function Translate(d: Deployment, c: M.Chain, op: M.Op): P.Instruction
    requires if op.Fund? then op.params.amount <= P.MAX_U64 && |c.escrows| < P.MAX_U64 else 0 <= op.id <= P.MAX_U64
  {
    match op
    case Fund(p) =>
      P.Fund(p.buyer, p.merchantId, d.source, |c.escrows| + 1, p.amount, p.quoteHash, p.pickupCodeHash, p.releaseDeadline)
    case MarkPreparing(id) => P.MarkPreparing(MerchantOf(d, c, id).0, MerchantOf(d, c, id).1, id)
    case MarkReady(id) => P.MarkReady(MerchantOf(d, c, id).0, MerchantOf(d, c, id).1, id)
    case ConfirmPickup(id, codeHash) => P.ConfirmPickup(MerchantOf(d, c, id).0, MerchantOf(d, c, id).1, id, codeHash, PayoutAt(d, c, id))
    case Refund(id) => P.Refund(d.buyer, id, d.source)
    case UserRelease(id) => P.UserRelease(d.buyer, MerchantOf(d, c, id).1, id, PayoutAt(d, c, id))
  }

  function MerchantOf(d: Deployment, c: M.Chain, id: int): (P.Address, P.U64) {
    if c.Has(id) && c.Get(id).merchantId in d.wallets then (d.wallets[c.Get(id).merchantId], c.Get(id).merchantId)
    else (d.buyer, 0)
  }

  function PayoutAt(d: Deployment, c: M.Chain, id: int): P.Address {
    if c.Has(id) && c.Get(id).merchantId in d.payouts then d.payouts[c.Get(id).merchantId] else d.source
  }

  /** One call: the mock succeeds exactly when the program does, and the results correspond again. */
  lemma SimulateStep(d: Deployment, c: M.Chain, s: P.State, failSlugs: set<Slug>, now: int, op: M.Op)
    requires Simulates(d, c, s) && Covered(d, failSlugs, now, op) && |c.escrows| + 1 < P.MAX_U64
    ensures M.MockStep(c, failSlugs, now, op).Success? <==> P.Step(s, now, Translate(d, c, op)).Success?
    ensures Simulates(d, M.MockExecute(c, failSlugs, now, op), Safety.Execute(s, Safety.Tx(now, Translate(d, c, op))))
  {
    if op.Fund? {
      FundsTogether(d, c, s, failSlugs, now, op);
      if M.MockStep(c, failSlugs, now, op).Success? {
        SimulateFund(d, c, s, failSlugs, now, op);
      }
    } else if op.MarkPreparing? || op.MarkReady? {
      SimulateMark(d, c, s, failSlugs, now, op);
    } else {
      SettlesTogether(d, c, s, failSlugs, now, op);
      if M.MockStep(c, failSlugs, now, op).Success? {
        SimulateSettlement(d, c, s, failSlugs, now, op);
      }
    }
  }

  /** The part of the relation that every transaction paying a real wallet keeps. */
  lemma KeepsLedger(s: P.State, now: int, i: P.Instruction)
    requires LedgerOk(s) && P.Step(s, now, i).Success? && !Safety.PaysIntoVault(i)
    ensures LedgerOk(P.Step(s, now, i).value)
  {
    var t := P.Step(s, now, i).value;
    Safety.StepKeepsWellFormed(s, now, i);
    Safety.ExactnessStep(s, now, i);
    forall mint ensures Safety.Supply(t, mint) <= P.MAX_U64 {
      Safety.StepConserves(s, now, i, mint);
    }
  }

  lemma FundsTogether(d: Deployment, c: M.Chain, s: P.State, failSlugs: set<Slug>, now: int, op: M.Op)
    requires Simulates(d, c, s) && Covered(d, failSlugs, now, op) && |c.escrows| + 1 < P.MAX_U64 && op.Fund?
    ensures M.MockStep(c, failSlugs, now, op).Success? <==> P.Step(s, now, Translate(d, c, op)).Success?
  {
    var id: P.U64 := |c.escrows| + 1;
    assert RowMatches(d, c, s, id);
    assert P.VaultPda(id) !in s.tokens;
    if op.params.amount <= c.balance {
      var vault := P.TokenAccount(d.mint, P.OrderPda(id), 0);
      assert P.Transfer(s.tokens[P.VaultPda(id) := vault], d.source, P.VaultPda(id), op.params.amount).Success?;
    }
  }

  lemma SimulateFund(d: Deployment, c: M.Chain, s: P.State, failSlugs: set<Slug>, now: int, op: M.Op)
    requires Simulates(d, c, s) && Covered(d, failSlugs, now, op) && |c.escrows| + 1 < P.MAX_U64 && op.Fund?
    requires M.MockStep(c, failSlugs, now, op).Success? && P.Step(s, now, Translate(d, c, op)).Success?
    ensures Simulates(d, M.MockStep(c, failSlugs, now, op).value, P.Step(s, now, Translate(d, c, op)).value)
  {
    var i := Translate(d, c, op);
    var t := P.Step(s, now, i).value;
    var after := M.MockStep(c, failSlugs, now, op).value;
    KeepsLedger(s, now, i);
    Safety.FundStep(s, now, i);
    forall id: P.U64 ensures RowMatches(d, after, t, id) {
      assert RowMatches(d, c, s, id);
    }
  }

  lemma MarkStep(s: P.State, merchant: P.Address, m: P.U64, id: P.U64, before: P.OrderState, after: P.OrderState)
    requires id in s.orders && m in s.merchantWallets && s.merchantWallets[m] == merchant
    ensures P.ApplyMark(s, merchant, m, id, before, after).Success? <==> s.orders[id].state == before
    ensures s.orders[id].state == before ==>
              P.ApplyMark(s, merchant, m, id, before, after).value == s.(orders := s.orders[id := s.orders[id].(state := after)])
  {
  }

  lemma SimulateMark(d: Deployment, c: M.Chain, s: P.State, failSlugs: set<Slug>, now: int, op: M.Op)
    requires Simulates(d, c, s) && Covered(d, failSlugs, now, op) && (op.MarkPreparing? || op.MarkReady?)
    ensures M.MockStep(c, failSlugs, now, op).Success? <==> P.Step(s, now, Translate(d, c, op)).Success?
    ensures Simulates(d, M.MockExecute(c, failSlugs, now, op), Safety.Execute(s, Safety.Tx(now, Translate(d, c, op))))
  {
    var i := Translate(d, c, op);
    assert RowMatches(d, c, s, op.id);
    if c.Has(op.id) {
      var (merchant, m) := MerchantOf(d, c, op.id);
      var (before, next) := if op.MarkPreparing? then (P.Funded, P.Preparing) else (P.Preparing, P.Ready);
      MarkStep(s, merchant, m, op.id, before, next);
      if c.Get(op.id).state == before {
        KeepsLedger(s, now, i);
        OneRowChanges(d, c, s, op.id, next, P.Step(s, now, i).value, M.MockExecute(c, failSlugs, now, op));
      }
    }
  }

  /** Changing the same row's state on both sides keeps every row matching. */
  lemma OneRowChanges(d: Deployment, c: M.Chain, s: P.State, changed: P.U64, state: P.OrderState, t: P.State, after: M.Chain)
    requires forall id: P.U64 :: RowMatches(d, c, s, id)
    requires c.Has(changed) && changed in s.orders && !state.Disputed?
    requires t.orders == s.orders[changed := s.orders[changed].(state := state)]
    requires forall id: P.U64 :: P.VaultPda(id) in t.tokens ==> P.VaultPda(id) in s.tokens && t.tokens[P.VaultPda(id)] == s.tokens[P.VaultPda(id)]
    requires after.escrows == c.escrows[changed - 1 := c.Get(changed).(state := state)]
    ensures forall id: P.U64 :: RowMatches(d, after, t, id)
  {
    forall id: P.U64 ensures RowMatches(d, after, t, id) {
      assert RowMatches(d, c, s, id) && RowMatches(d, c, s, changed);
    }
  }

  /** The mock's rule for a settling call is the program's, for the sender that Translate picks. */
  lemma SettlesTogether(d: Deployment, c: M.Chain, s: P.State, failSlugs: set<Slug>, now: int, op: M.Op)
    requires Simulates(d, c, s) && Covered(d, failSlugs, now, op) && (op.ConfirmPickup? || op.Refund? || op.UserRelease?)
    ensures M.MockStep(c, failSlugs, now, op).Success? <==> P.Step(s, now, Translate(d, c, op)).Success?
  {
    var id: P.U64 := op.id;
    assert RowMatches(d, c, s, id);
    assert P.VaultPda(id) in s.tokens <==> Safety.Live(s, id);
    if P.VaultPda(id) in s.tokens {
      var payout := if op.Refund? then d.source else PayoutAt(d, c, id);
      Safety.TwoAccountsWithinSupply(s, payout, P.VaultPda(id));
      Safety.SettleSucceeds(s, id, payout, if op.Refund? then P.Refunded else P.Released);
    }
  }

  /** What the two sides do in a settling call that succeeds. */
  lemma SettlementEffects(d: Deployment, c: M.Chain, s: P.State, failSlugs: set<Slug>, now: int, op: M.Op)
    requires Simulates(d, c, s) && Covered(d, failSlugs, now, op) && (op.ConfirmPickup? || op.Refund? || op.UserRelease?)
    requires M.MockStep(c, failSlugs, now, op).Success? && P.Step(s, now, Translate(d, c, op)).Success?
    ensures var after, t := M.MockStep(c, failSlugs, now, op).value, P.Step(s, now, Translate(d, c, op)).value;
            var final := if op.Refund? then P.Refunded else P.Released;
            && c.Has(op.id) && op.id in s.orders && P.VaultPda(op.id) in s.tokens
            && after.escrows == c.escrows[op.id - 1 := c.Get(op.id).(state := final)]
            && t.orders == s.orders[op.id := s.orders[op.id].(state := final)]
            && t.config == s.config && t.merchantWallets == s.merchantWallets
            && (forall a :: a in t.tokens ==> a in s.tokens && t.tokens[a] == s.tokens[a].(balance := t.tokens[a].balance))
            && (forall id: P.U64 :: P.VaultPda(id) in t.tokens ==> t.tokens[P.VaultPda(id)] == s.tokens[P.VaultPda(id)])
            && d.source in t.tokens && t.tokens[d.source].balance == after.balance
            && (forall a :: a in s.tokens && a.External? ==> a in t.tokens)
  {
    var i := Translate(d, c, op);
    assert RowMatches(d, c, s, op.id);
    Safety.SettlingStep(s, now, i);
    Safety.SettleEffect(s, op.id, Safety.PayoutOf(i).value.1, Safety.FinalState(i));
  }

  lemma SimulateSettlement(d: Deployment, c: M.Chain, s: P.State, failSlugs: set<Slug>, now: int, op: M.Op)
    requires Simulates(d, c, s) && Covered(d, failSlugs, now, op) && (op.ConfirmPickup? || op.Refund? || op.UserRelease?)
    requires M.MockStep(c, failSlugs, now, op).Success? && P.Step(s, now, Translate(d, c, op)).Success?
    ensures Simulates(d, M.MockStep(c, failSlugs, now, op).value, P.Step(s, now, Translate(d, c, op)).value)
  {
    var final := if op.Refund? then P.Refunded else P.Released;
    SettlementEffects(d, c, s, failSlugs, now, op);
    KeepsLedger(s, now, Translate(d, c, op));
    OneRowChanges(d, c, s, op.id, final, P.Step(s, now, Translate(d, c, op)).value, M.MockStep(c, failSlugs, now, op).value);
  }

  // ---------------------------------------------------------------- whole runs

  datatype Call = Call(now: int, op: M.Op)

  function MockRun(c: M.Chain, failSlugs: set<Slug>, calls: seq<Call>): (r: M.Chain)
    ensures |r.escrows| <= |c.escrows| + |calls|
  {
    if calls == [] then c
    else M.MockExecute(MockRun(c, failSlugs, calls[..|calls| - 1]), failSlugs, calls[|calls| - 1].now, calls[|calls| - 1].op)
  }

  ghost predicate AllCovered(d: Deployment, failSlugs: set<Slug>, calls: seq<Call>) {
    forall k :: 0 <= k < |calls| ==> Covered(d, failSlugs, calls[k].now, calls[k].op)
  }

  /** The program run that answers a mock run: one transaction per call. */
  ghost function Translated(d: Deployment, c: M.Chain, failSlugs: set<Slug>, calls: seq<Call>): (txs: seq<Safety.Tx>)
    requires AllCovered(d, failSlugs, calls) && |c.escrows| + |calls| + 1 < P.MAX_U64
    ensures |txs| == |calls|
  {
    if calls == [] then []
    else
      var before := calls[..|calls| - 1];
      var last := calls[|calls| - 1];
      Translated(d, c, failSlugs, before) + [Safety.Tx(last.now, Translate(d, MockRun(c, failSlugs, before), last.op))]
  }

  /** After every mock run the program, having run the corresponding transactions, has the same
      order ids with the same orders and states, and the buyer the same balance. */
  lemma {:induction false} RunsCorrespond(d: Deployment, c: M.Chain, s: P.State, failSlugs: set<Slug>, calls: seq<Call>)
    requires Simulates(d, c, s)
    requires AllCovered(d, failSlugs, calls) && |c.escrows| + |calls| + 1 < P.MAX_U64
    ensures Simulates(d, MockRun(c, failSlugs, calls), Safety.Run(s, Translated(d, c, failSlugs, calls)))
  {
    if calls != [] {
      var before := calls[..|calls| - 1];
      var last := calls[|calls| - 1];
      RunsCorrespond(d, c, s, failSlugs, before);
      var txs := Translated(d, c, failSlugs, calls);
      assert txs[..|txs| - 1] == Translated(d, c, failSlugs, before);
      assert Covered(d, failSlugs, calls[|calls| - 1].now, calls[|calls| - 1].op);
      SimulateStep(d, MockRun(c, failSlugs, before), Safety.Run(s, txs[..|txs| - 1]), failSlugs, last.now, last.op);
    }
  }

  /** A freshly deployed program, however it was set up, matches a fresh mock provider. */
  lemma {:induction false} FreshDeployment(d: Deployment, g: P.State, txs: seq<Safety.Tx>)
    requires Safety.Genesis(g) && Safety.SupplyFits(g)
    requires var s := Safety.Run(g, txs);
             Deployed(d, s) && s.orders == map[] && s.config.value.nextOrderId == 1 && s.tokens[d.source].balance == M.INITIAL_WALLET_MICRO
    ensures Simulates(d, M.Chain(M.INITIAL_WALLET_MICRO, []), Safety.Run(g, txs))
  {
    Safety.GenesisIsWellFormed(g);
    Safety.RunKeepsWellFormed(g, txs);
    Safety.SupplyFitsInEveryRun(g, txs);
  }
}
