/** Safety and progress of the escrow program over every run: any transactions, any signers. */
module EscrowSafety {
  import opened Results
  import opened Sums
  import opened EscrowProgram

  // ---------------------------------------------------------------- runs

  datatype Tx = Tx(now: int, instruction: Instruction)

  /** A failing transaction is reverted. */
  function Execute(s: State, tx: Tx): State {
    match Step(s, tx.now, tx.instruction)
    case Success(t) => t
    case Failure(_) => s
  }

  function Run(s: State, txs: seq<Tx>): State {
    if txs == [] then s else Execute(Run(s, txs[..|txs| - 1]), txs[|txs| - 1])
  }

  /** Nothing initialised yet; wallets already hold tokens. */
  ghost predicate Genesis(s: State) {
    && s.config.None? && s.merchantWallets == map[] && s.orders == map[]
    && forall a :: a in s.tokens ==> a.External?
  }

  // ---------------------------------------------------------------- invariant

  ghost predicate Live(s: State, id: U64) {
    id in s.orders && !s.orders[id].state.Settled()
  }

  ghost predicate OrdersOk(s: State) {
    forall id :: id in s.orders ==>
      && s.config.Some? && 1 <= id < s.config.value.nextOrderId
      && s.orders[id].buyer.External? && s.orders[id].amount > 0
      && s.orders[id].merchantId in s.merchantWallets
  }

  /** A vault exists exactly while its order is live, belongs to it and covers it. */
  ghost predicate VaultsOk(s: State) {
    && (forall id: U64 :: VaultPda(id) in s.tokens <==> Live(s, id))
    && (forall id: U64 :: VaultPda(id) in s.tokens ==>
          && s.tokens[VaultPda(id)].owner == OrderPda(id)
          && s.tokens[VaultPda(id)].balance >= s.orders[id].amount)
  }

  ghost predicate WellFormed(s: State) {
    && (s.config.Some? ==> s.config.value.nextOrderId >= 1)
    && OrdersOk(s)
    && VaultsOk(s)
    && (forall a :: a in s.tokens ==> !a.OrderPda?)
  }

  /** The stronger statement: each live vault holds exactly its order's amount. */
  ghost predicate VaultsExact(s: State) {
    forall id: U64 :: VaultPda(id) in s.tokens && id in s.orders ==> s.tokens[VaultPda(id)].balance == s.orders[id].amount
  }

  /** The vault of a live order holds exactly the order's amount. */
  ghost predicate ExactVault(s: State, id: U64) {
    id in s.orders && VaultPda(id) in s.tokens && s.tokens[VaultPda(id)].balance == s.orders[id].amount
  }

  function HeldIn(mint: Mint): TokenAccount -> int {
    (a: TokenAccount) => if a.mint == mint then a.balance else 0
  }

  ghost function Supply(s: State, mint: Mint): int {
    MapSum(s.tokens, HeldIn(mint))
  }

  // ---------------------------------------------------------------- what a settlement does

  /** The order life cycle. */
  predicate Follows(before: OrderState, after: OrderState) {
    match before
    case Funded => !after.Ready? && !after.Funded?
    case Preparing => !after.Preparing? && !after.Funded?
    case Ready => !after.Preparing? && !after.Funded? && !after.Ready?
    case Disputed => after.Settled()
    case Released => false
    case Refunded => false
  }

  /** The account a settling instruction pays, if it is one. */
  function PayoutOf(i: Instruction): Option<(U64, Address)> {
    match i
    case ConfirmPickup(_, _, id, _, payout) => Some((id, payout))
    case UserRelease(_, _, id, payout) => Some((id, payout))
    case Refund(_, id, payout) => Some((id, payout))
    case Resolve(_, _, id, toBuyer, toMerchant, release) => Some((id, if release then toMerchant else toBuyer))
    case _ => None
  }

  /** The state a settling instruction leaves its order in. */
  function FinalState(i: Instruction): OrderState {
    if i.Refund? || (i.Resolve? && !i.release) then Refunded else Released
  }

  /** The owner a settling instruction demands of its payout account. */
  function PayeeOf(s: State, i: Instruction): Address
    requires PayoutOf(i).Some? && PayoutOf(i).value.0 in s.orders
  {
    match i
    case ConfirmPickup(merchant, _, _, _, _) => merchant
    case UserRelease(_, m, id, _) => if m in s.merchantWallets then s.merchantWallets[m] else s.orders[id].buyer
    case Refund(_, id, _) => s.orders[id].buyer
    case Resolve(_, m, id, _, _, release) => if release && m in s.merchantWallets then s.merchantWallets[m] else s.orders[id].buyer
  }

  predicate PaysIntoVault(i: Instruction) {
    PayoutOf(i).Some? && PayoutOf(i).value.1.VaultPda?
  }

  /** A settlement can only happen when the vault holds exactly the amount; it removes the vault,
      adds the amount to the payout account and touches no other account and no other order. */
  lemma SettleEffect(s: State, id: U64, payout: Address, final: OrderState)
    requires WellFormed(s) && id in s.orders && final.Settled()
    requires Settle(s, id, payout, final).Success?
    ensures var t := Settle(s, id, payout, final).value;
            && payout in s.tokens && payout != VaultPda(id) && VaultPda(id) in s.tokens
            && s.tokens[payout].mint == s.tokens[VaultPda(id)].mint
            && s.tokens[VaultPda(id)].balance == s.orders[id].amount
            && t.tokens == (s.tokens - {VaultPda(id)})[payout := s.tokens[payout].(balance := s.tokens[payout].balance + s.orders[id].amount)]
            && t.orders == s.orders[id := s.orders[id].(state := final)]
            && t.config == s.config && t.merchantWallets == s.merchantWallets
  {
  }

  /** Exactly when the settlement in `i` succeeds, in terms of the accounts it names. */
  lemma SettleSucceeds(s: State, id: U64, payout: Address, final: OrderState)
    requires WellFormed(s) && Live(s, id)
    requires payout in s.tokens && payout != VaultPda(id) && s.tokens[payout].mint == s.tokens[VaultPda(id)].mint
    ensures Settle(s, id, payout, final).Success? <==>
            s.tokens[VaultPda(id)].balance == s.orders[id].amount &&
            s.tokens[payout].balance + s.orders[id].amount <= MAX_U64
  {
    assert VaultPda(id) in s.tokens;
  }

  // ---------------------------------------------------------------- the invariant holds in every run

  lemma SettleKeepsWellFormed(s: State, id: U64, payout: Address, final: OrderState)
    requires WellFormed(s) && id in s.orders && final.Settled()
    requires Settle(s, id, payout, final).Success?
    ensures WellFormed(Settle(s, id, payout, final).value)
  {
    SettleEffect(s, id, payout, final);
  }

  /** Every settling handler is its own checks followed by the same settlement. */
  lemma SettlingStep(s: State, now: int, i: Instruction)
    requires Step(s, now, i).Success? && PayoutOf(i).Some?
    ensures var (id, payout) := PayoutOf(i).value;
            && id in s.orders && Step(s, now, i) == Settle(s, id, payout, FinalState(i))
            && CheckPayout(s, id, payout, PayeeOf(s, i)).Pass?
  {
    match i {
      case ConfirmPickup(_, _, _, _, _) =>
      case UserRelease(_, _, _, _) =>
      case Refund(_, _, _) =>
      case Resolve(_, _, _, _, _, _) =>
    }
  }

  lemma FundStep(s: State, now: int, i: Instruction)
    requires Step(s, now, i).Success? && i.Fund?
    ensures var t := Step(s, now, i).value;
            && s.config.Some? && i.merchantId in s.merchantWallets && i.buyer.External? && i.amount > 0 && i.releaseDeadline > now
            && i.orderId !in s.orders && VaultPda(i.orderId) !in s.tokens && i.orderId == s.config.value.nextOrderId
            && i.source in s.tokens && s.tokens[i.source].owner == i.buyer && s.tokens[i.source].balance >= i.amount
            && t.config == Some(s.config.value.(nextOrderId := i.orderId + 1))
            && t.merchantWallets == s.merchantWallets
            && t.orders == s.orders[i.orderId := Order(i.merchantId, i.buyer, i.amount, i.quoteHash, i.pickupCodeHash, now, i.releaseDeadline, Funded)]
            && t.tokens == s.tokens[i.source := s.tokens[i.source].(balance := s.tokens[i.source].balance - i.amount)]
                                   [VaultPda(i.orderId) := TokenAccount(s.config.value.usdcMint, OrderPda(i.orderId), i.amount)]
  {
    var vault := VaultPda(i.orderId);
    var withVault := s.tokens[vault := TokenAccount(s.config.value.usdcMint, OrderPda(i.orderId), 0)];
    var paid := Transfer(withVault, i.source, vault, i.amount).value;
    assert paid == s.tokens[i.source := s.tokens[i.source].(balance := s.tokens[i.source].balance - i.amount)]
                           [vault := TokenAccount(s.config.value.usdcMint, OrderPda(i.orderId), i.amount)];
  }

  /** The instructions that move no tokens of the program: they keep balances of vaults and set of accounts. */
  lemma OtherStep(s: State, now: int, i: Instruction)
    requires Step(s, now, i).Success? && PayoutOf(i).None? && !i.Fund?
    ensures var t := Step(s, now, i).value;
            && (s.config.Some? ==> t.config.Some? && t.config.value.nextOrderId == s.config.value.nextOrderId)
            && (t.config.Some? && s.config.None? ==> t.config.value.nextOrderId == 1)
            && t.orders.Keys == s.orders.Keys
            && t.merchantWallets.Keys >= s.merchantWallets.Keys
            && (forall id :: id in s.orders ==>
                  && t.orders[id] == s.orders[id].(state := t.orders[id].state)
                  && (t.orders[id].state == s.orders[id].state || (!t.orders[id].state.Settled() && Follows(s.orders[id].state, t.orders[id].state))))
            && (forall a :: a in s.tokens ==> a in t.tokens && t.tokens[a].owner == s.tokens[a].owner && t.tokens[a].mint == s.tokens[a].mint)
            && (forall a :: a in t.tokens && !a.External? ==> a in s.tokens && t.tokens[a] == s.tokens[a])
  {
    match i {
      case Dispute(_, _, _) =>
      case MarkPreparing(_, _, _) =>
      case MarkReady(_, _, _) =>
      case WalletTransfer(_, _, _, _) =>
      case OpenTokenAccount(_, _, _) =>
      case _ =>
    }
  }

  lemma StepKeepsWellFormed(s: State, now: int, i: Instruction)
    requires WellFormed(s) && Step(s, now, i).Success?
    ensures WellFormed(Step(s, now, i).value)
  {
    if PayoutOf(i).Some? {
      SettlingStep(s, now, i);
      SettleKeepsWellFormed(s, PayoutOf(i).value.0, PayoutOf(i).value.1, FinalState(i));
    } else if i.Fund? {
      FundKeepsWellFormed(s, now, i, Step(s, now, i).value);
    } else {
      OtherKeepsWellFormed(s, now, i, Step(s, now, i).value);
    }
  }

  lemma FundKeepsWellFormed(s: State, now: int, i: Instruction, t: State)
    requires WellFormed(s) && Step(s, now, i) == Success(t) && i.Fund?
    ensures WellFormed(t)
  {
    FundStep(s, now, i);
    assert i.source.External? by {
      assert VaultsOk(s);
    }
  }

  lemma OtherKeepsWellFormed(s: State, now: int, i: Instruction, t: State)
    requires WellFormed(s) && Step(s, now, i) == Success(t) && PayoutOf(i).None? && !i.Fund?
    ensures WellFormed(t)
  {
    OtherStep(s, now, i);
    forall id: U64
      ensures VaultPda(id) in t.tokens <==> Live(t, id)
      ensures VaultPda(id) in t.tokens ==> t.tokens[VaultPda(id)].owner == OrderPda(id) && t.tokens[VaultPda(id)].balance >= t.orders[id].amount
    {
      assert VaultPda(id) in s.tokens <==> Live(s, id);
    }
  }

  lemma {:induction false} RunKeepsWellFormed(s: State, txs: seq<Tx>)
    requires WellFormed(s)
    ensures WellFormed(Run(s, txs))
  {
    if txs != [] {
      var before := txs[..|txs| - 1];
      RunKeepsWellFormed(s, before);
      var tx := txs[|txs| - 1];
      if Step(Run(s, before), tx.now, tx.instruction).Success? {
        StepKeepsWellFormed(Run(s, before), tx.now, tx.instruction);
      }
    }
  }

  lemma GenesisIsWellFormed(s: State)
    requires Genesis(s)
    ensures WellFormed(s) && VaultsExact(s)
  {
  }

  // ---------------------------------------------------------------- conservation

  lemma {:induction false} TransferConserves(tokens: map<Address, TokenAccount>, source: Address, target: Address, amount: nat, mint: Mint)
    requires Transfer(tokens, source, target, amount).Success?
    ensures MapSum(Transfer(tokens, source, target, amount).value, HeldIn(mint)) == MapSum(tokens, HeldIn(mint))
  {
    var debited := tokens[source := tokens[source].(balance := tokens[source].balance - amount)];
    MapSumReplace(tokens, source, debited[source], HeldIn(mint));
    MapSumReplace(debited, target, debited[target].(balance := debited[target].balance + amount), HeldIn(mint));
  }

  lemma SettleConserves(s: State, id: U64, payout: Address, final: OrderState, mint: Mint)
    requires WellFormed(s) && id in s.orders && final.Settled()
    requires Settle(s, id, payout, final).Success?
    ensures Supply(Settle(s, id, payout, final).value, mint) == Supply(s, mint)
  {
    var paid := Transfer(s.tokens, VaultPda(id), payout, s.orders[id].amount).value;
    TransferConserves(s.tokens, VaultPda(id), payout, s.orders[id].amount, mint);
    MapSumRemove(paid, VaultPda(id), HeldIn(mint));
  }

  lemma StepConserves(s: State, now: int, i: Instruction, mint: Mint)
    requires WellFormed(s) && Step(s, now, i).Success?
    ensures Supply(Step(s, now, i).value, mint) == Supply(s, mint)
  {
    if PayoutOf(i).Some? {
      SettlingStep(s, now, i);
      SettleConserves(s, PayoutOf(i).value.0, PayoutOf(i).value.1, FinalState(i), mint);
    } else if i.Fund? {
      var vault := TokenAccount(s.config.value.usdcMint, OrderPda(i.orderId), 0);
      MapSumInsert(s.tokens, VaultPda(i.orderId), vault, HeldIn(mint));
      TransferConserves(s.tokens[VaultPda(i.orderId) := vault], i.source, VaultPda(i.orderId), i.amount, mint);
    } else if i.OpenTokenAccount? {
      MapSumInsert(s.tokens, i.at, TokenAccount(i.mint, i.owner, 0), HeldIn(mint));
    } else if i.WalletTransfer? {
      TransferConserves(s.tokens, i.source, i.target, i.amount, mint);
    } else {
      assert Step(s, now, i).value.tokens == s.tokens;
    }
  }

  /** No run creates or destroys tokens of any mint, whatever mint the config points at meanwhile. */
  lemma {:induction false} RunConserves(s: State, txs: seq<Tx>, mint: Mint)
    requires WellFormed(s)
    ensures Supply(Run(s, txs), mint) == Supply(s, mint)
  {
    if txs != [] {
      var before := txs[..|txs| - 1];
      var tx := txs[|txs| - 1];
      RunKeepsWellFormed(s, before);
      RunConserves(s, before, mint);
      if Step(Run(s, before), tx.now, tx.instruction).Success? {
        StepConserves(Run(s, before), tx.now, tx.instruction, mint);
      }
    }
  }

  // ---------------------------------------------------------------- vaults hold exactly the amount

  /** From exact vaults, a step keeps them exact if and only if it does not pay into a vault. */
  lemma ExactnessStep(s: State, now: int, i: Instruction)
    requires WellFormed(s) && VaultsExact(s) && Step(s, now, i).Success?
    ensures VaultsExact(Step(s, now, i).value) <==> !PaysIntoVault(i)
  {
    if PayoutOf(i).Some? {
      SettlingStep(s, now, i);
      ExactnessSettle(s, PayoutOf(i).value.0, PayoutOf(i).value.1, FinalState(i));
    } else if i.Fund? {
      FundStep(s, now, i);
    } else {
      OtherStep(s, now, i);
    }
  }

  lemma ExactnessSettle(s: State, id: U64, payout: Address, final: OrderState)
    requires WellFormed(s) && VaultsExact(s) && id in s.orders && final.Settled()
    requires Settle(s, id, payout, final).Success?
    ensures VaultsExact(Settle(s, id, payout, final).value) <==> !payout.VaultPda?
  {
    SettleEffect(s, id, payout, final);
    var t := Settle(s, id, payout, final).value;
    if payout.VaultPda? {
      assert payout in t.tokens && t.tokens[payout].balance == s.tokens[payout].balance + s.orders[id].amount;
    }
  }

  /** The administrator registers only wallets that can hold a key, as every deployment script does. */
  ghost predicate RegistersWallets(txs: seq<Tx>) {
    forall k :: 0 <= k < |txs| && txs[k].instruction.SetMerchantWallet? ==> txs[k].instruction.wallet.External?
  }

  ghost predicate WalletsExternal(s: State) {
    forall m :: m in s.merchantWallets ==> s.merchantWallets[m].External?
  }

  lemma StepPaysWallets(s: State, now: int, i: Instruction)
    requires WellFormed(s) && WalletsExternal(s) && Step(s, now, i).Success?
    ensures !PaysIntoVault(i)
    ensures (i.SetMerchantWallet? ==> i.wallet.External?) ==> WalletsExternal(Step(s, now, i).value)
  {
    if PayoutOf(i).Some? {
      SettlingStep(s, now, i);
    }
  }

  /** In every run that registers real wallets, at every moment, each live order's vault holds
      exactly the order's amount and a settled order has no vault. */
  lemma {:induction false} VaultsExactInEveryRun(g: State, txs: seq<Tx>)
    requires Genesis(g) && RegistersWallets(txs)
    ensures VaultsExact(Run(g, txs)) && WalletsExternal(Run(g, txs))
    ensures forall id: U64 :: VaultPda(id) in Run(g, txs).tokens <==> Live(Run(g, txs), id)
  {
    GenesisIsWellFormed(g);
    RunKeepsWellFormed(g, txs);
    if txs != [] {
      var before := txs[..|txs| - 1];
      var tx := txs[|txs| - 1];
      RunKeepsWellFormed(g, before);
      VaultsExactInEveryRun(g, before);
      assert txs[|txs| - 1] == tx;
      if Step(Run(g, before), tx.now, tx.instruction).Success? {
        StepPaysWallets(Run(g, before), tx.now, tx.instruction);
        ExactnessStep(Run(g, before), tx.now, tx.instruction);
      }
    }
  }

  // ---------------------------------------------------------------- single settlement

  /** The order an instruction names. */
  function Named(i: Instruction): Option<U64> {
    match i
    case Fund(_, _, _, id, _, _, _, _) => Some(id)
    case MarkPreparing(_, _, id) => Some(id)
    case MarkReady(_, _, id) => Some(id)
    case Dispute(_, _, id) => Some(id)
    case _ => if PayoutOf(i).Some? then Some(PayoutOf(i).value.0) else None
  }

  lemma OtherOrdersStay(s: State, now: int, i: Instruction)
    requires Step(s, now, i).Success?
    ensures forall x :: x in s.orders && Named(i) != Some(x) ==> x in Step(s, now, i).value.orders && Step(s, now, i).value.orders[x] == s.orders[x]
  {
    if PayoutOf(i).Some? {
      SettlingStep(s, now, i);
    } else if i.Fund? {
      FundStep(s, now, i);
    }
  }

  /** A step keeps every order's terms, and moves at most one order, the one it names, along the life
      cycle. */
  lemma StepMovesAlong(s: State, now: int, i: Instruction, id: U64)
    requires WellFormed(s) && Step(s, now, i).Success? && id in s.orders
    ensures var t := Step(s, now, i).value;
            && id in t.orders
            && (t.orders[id] == s.orders[id] ||
                (t.orders[id] == s.orders[id].(state := t.orders[id].state) && Follows(s.orders[id].state, t.orders[id].state)))
            && (t.orders[id] != s.orders[id] ==> Named(i) == Some(id))
    ensures Step(s, now, i).value.orders[id] != s.orders[id] ==>
              forall x :: x in s.orders && x != id ==> x in Step(s, now, i).value.orders && Step(s, now, i).value.orders[x] == s.orders[x]
  {
    OtherOrdersStay(s, now, i);
    if PayoutOf(i).Some? {
      SettlingStep(s, now, i);
      SettleEffect(s, PayoutOf(i).value.0, PayoutOf(i).value.1, FinalState(i));
      assert VaultPda(PayoutOf(i).value.0) in s.tokens;
    } else if i.Fund? {
      FundStep(s, now, i);
    } else {
      OtherStep(s, now, i);
    }
  }

  /** The transactions of a run that settle order `id`. */
  function Settlements(g: State, txs: seq<Tx>, id: U64): nat {
    if txs == [] then 0
    else
      var before := Run(g, txs[..|txs| - 1]);
      var after := Run(g, txs);
      Settlements(g, txs[..|txs| - 1], id)
      + if id in before.orders && !before.orders[id].state.Settled() && id in after.orders && after.orders[id].state.Settled()
        then 1 else 0
  }

  /** Each order settles at most once in every run, and exactly once if and only if it ends settled. */
  lemma {:induction false} SettlesAtMostOnce(g: State, txs: seq<Tx>, id: U64)
    requires Genesis(g)
    ensures Settlements(g, txs, id) == if id in Run(g, txs).orders && Run(g, txs).orders[id].state.Settled() then 1 else 0
  {
    if txs != [] {
      var before := txs[..|txs| - 1];
      var tx := txs[|txs| - 1];
      GenesisIsWellFormed(g);
      RunKeepsWellFormed(g, before);
      SettlesAtMostOnce(g, before, id);
      var s := Run(g, before);
      if Step(s, tx.now, tx.instruction).Success? {
        if id in s.orders {
          StepMovesAlong(s, tx.now, tx.instruction, id);
        } else {
          NewOrdersAreFunded(s, tx.now, tx.instruction, id);
        }
      }
    }
  }

  lemma NewOrdersAreFunded(s: State, now: int, i: Instruction, id: U64)
    requires WellFormed(s) && Step(s, now, i).Success? && id !in s.orders
    ensures id in Step(s, now, i).value.orders ==>
              i.Fund? && i.orderId == id && Step(s, now, i).value.orders[id].state.Funded?
  {
    if PayoutOf(i).Some? {
      SettlingStep(s, now, i);
    } else if i.Fund? {
      FundStep(s, now, i);
    } else {
      OtherStep(s, now, i);
    }
  }

  // ---------------------------------------------------------------- who is paid, and when a refund may happen

  /** A settling step pays the vault's whole amount to one account: of a registered wallet when the
      order is released, of the order's buyer when it is refunded. */
  lemma SettlementPaysTheRightParty(s: State, now: int, i: Instruction, id: U64)
    requires WellFormed(s) && Live(s, id) && Step(s, now, i).Success?
    requires Step(s, now, i).value.orders[id].state.Settled()
    ensures PayoutOf(i).Some? && PayoutOf(i).value.0 == id
    ensures var t := Step(s, now, i).value; var payout := PayoutOf(i).value.1;
            && payout in s.tokens && payout in t.tokens
            && t.tokens[payout].balance == s.tokens[payout].balance + s.orders[id].amount
            && t.tokens[payout].mint == s.tokens[VaultPda(id)].mint
            && (t.orders[id].state.Refunded? ==> t.tokens[payout].owner == s.orders[id].buyer)
            && (t.orders[id].state.Released? ==> t.tokens[payout].owner in s.merchantWallets.Values)
            && (forall a :: a in s.tokens && a != payout && a != VaultPda(id) ==> a in t.tokens && t.tokens[a] == s.tokens[a])
  {
    if PayoutOf(i).Some? {
      SettlingStep(s, now, i);
      SettleEffect(s, PayoutOf(i).value.0, PayoutOf(i).value.1, FinalState(i));
      PayeeIsRegistered(s, now, i);
    } else if i.Fund? {
      FundStep(s, now, i);
    } else {
      OtherStep(s, now, i);
    }
  }

  lemma PayeeIsRegistered(s: State, now: int, i: Instruction)
    requires Step(s, now, i).Success? && PayoutOf(i).Some? && PayoutOf(i).value.0 in s.orders
    ensures if FinalState(i).Refunded? then PayeeOf(s, i) == s.orders[PayoutOf(i).value.0].buyer
            else PayeeOf(s, i) in s.merchantWallets.Values
  {
    if i.ConfirmPickup? || i.UserRelease? || i.Resolve? {
      assert s.merchantWallets[i.merchantId] in s.merchantWallets.Values;
    }
  }

  ghost predicate RefundCause(s: State, tx: Tx, id: U64) {
    && id in s.orders
    && var i := tx.instruction;
       || (i.Refund? && i.orderId == id && i.caller == s.orders[id].buyer && s.orders[id].state.Funded?)
       || (i.Refund? && i.orderId == id && tx.now >= s.orders[id].releaseDeadline && !s.orders[id].state.Disputed?)
       || (i.Resolve? && i.orderId == id && !i.release && s.config.Some? && i.arbiter == s.config.value.arbiter && s.orders[id].state.Disputed?)
  }

  lemma BecomesRefunded(s: State, tx: Tx, id: U64)
    requires WellFormed(s) && id in Execute(s, tx).orders && Execute(s, tx).orders[id].state.Refunded?
    requires !(id in s.orders && s.orders[id].state.Refunded?)
    ensures RefundCause(s, tx, id)
  {
    var i := tx.instruction;
    if id !in s.orders {
      NewOrdersAreFunded(s, tx.now, i, id);
    } else if PayoutOf(i).Some? {
      SettlingStep(s, tx.now, i);
      SettleEffect(s, PayoutOf(i).value.0, PayoutOf(i).value.1, FinalState(i));
    } else if i.Fund? {
      FundStep(s, tx.now, i);
    } else {
      OtherStep(s, tx.now, i);
    }
  }

  /** A refunded order in any run was refunded at one moment by its buyer while still Funded, by
      anyone after the deadline, or by the arbiter after a dispute. */
  lemma {:induction false} RefundsHaveACause(g: State, txs: seq<Tx>, id: U64) returns (k: nat)
    requires Genesis(g) && id in Run(g, txs).orders && Run(g, txs).orders[id].state.Refunded?
    ensures k < |txs| && RefundCause(Run(g, txs[..k]), txs[k], id)
  {
    if txs == [] {
      assert false;
    } else {
      var before := txs[..|txs| - 1];
      var s := Run(g, before);
      GenesisIsWellFormed(g);
      RunKeepsWellFormed(g, before);
      var tx := txs[|txs| - 1];
      if id in s.orders && s.orders[id].state.Refunded? {
        k := RefundsHaveACause(g, before, id);
        assert before[..k] == txs[..k];
      } else {
        k := |txs| - 1;
        assert txs[..k] == before;
        BecomesRefunded(s, tx, id);
      }
    }
  }

  // ---------------------------------------------------------------- no stuck funds

  lemma {:induction false} HeldIsNonNegative(tokens: map<Address, TokenAccount>, mint: Mint)
    ensures MapSum(tokens, HeldIn(mint)) >= 0
    decreases |tokens|
  {
    if tokens != map[] {
      var a :| a in tokens;
      MapSumRemove(tokens, a, HeldIn(mint));
      HeldIsNonNegative(tokens - {a}, mint);
    }
  }

  lemma TwoAccountsWithinSupply(s: State, a: Address, b: Address)
    requires a in s.tokens && b in s.tokens && a != b && s.tokens[a].mint == s.tokens[b].mint
    ensures s.tokens[a].balance + s.tokens[b].balance <= Supply(s, s.tokens[a].mint)
  {
    var mint := s.tokens[a].mint;
    MapSumRemove(s.tokens, a, HeldIn(mint));
    MapSumRemove(s.tokens - {a}, b, HeldIn(mint));
    HeldIsNonNegative(s.tokens - {a} - {b}, mint);
  }

  ghost predicate SupplyFits(s: State) {
    forall mint :: Supply(s, mint) <= MAX_U64
  }

  /** Opening an account at a fresh address, so that a payout has somewhere to go. */
  lemma FreshAccount(s: State, now: int, mint: Mint, owner: Address) returns (at: Address)
    requires WellFormed(s)
    ensures at.External? && at !in s.tokens
    ensures Step(s, now, OpenTokenAccount(at, mint, owner)).Success?
  {
    var key := FreshKey(s.tokens.Keys);
    at := External(key);
  }

  lemma {:induction false} FreshKey(used: set<Address>) returns (key: nat)
    ensures forall k: nat :: External(k) in used ==> k < key
  {
    if used == {} {
      key := 0;
    } else {
      var a :| a in used;
      key := FreshKey(used - {a});
      assert forall k: nat :: External(k) in used ==> External(k) in used - {a} || External(k) == a;
      if a.External? && a.key >= key {
        key := a.key + 1;
      }
    }
  }

  /** All of the instructions succeed in a row, and the order ends in the given state. */
  ghost predicate Reaches(s: State, now: int, instructions: seq<Instruction>, id: U64, final: OrderState)
    decreases |instructions|
  {
    if instructions == [] then id in s.orders && s.orders[id].state == final
    else
      match Step(s, now, instructions[0])
      case Success(t) => Reaches(t, now, instructions[1..], id, final)
      case Failure(_) => false
  }

  lemma {:induction false} TwoReach(s: State, t: State, u: State, now: int, first: Instruction, second: Instruction, id: U64, final: OrderState)
    requires Step(s, now, first) == Success(t) && Step(t, now, second) == Success(u)
    requires id in u.orders && u.orders[id].state == final
    ensures Reaches(s, now, [first, second], id, final)
  {
    assert [first, second][1..] == [second] && [second][1..] == [];
    assert Reaches(u, now, [], id, final);
    assert Reaches(t, now, [second], id, final);
  }

  /** Opening an account of `owner` for the mint of the order's vault. */
  ghost function OpenFor(s: State, id: U64, at: Address, owner: Address): Instruction
    requires VaultPda(id) in s.tokens
  {
    OpenTokenAccount(at, s.tokens[VaultPda(id)].mint, owner)
  }

  /** Whatever happened before, the buyer alone can settle a live order whose vault holds its amount: open a token account for a
      registered wallet and release to it. */
  lemma BuyerCanAlwaysRelease(s: State, now: int, id: U64, merchantId: U64) returns (payout: Address)
    requires WellFormed(s) && ExactVault(s, id) && SupplyFits(s)
    requires Live(s, id) && merchantId in s.merchantWallets
    ensures Reaches(s, now, [OpenFor(s, id, payout, s.merchantWallets[merchantId]), UserRelease(s.orders[id].buyer, merchantId, id, payout)],
                    id, Released)
  {
    var mint, wallet := s.tokens[VaultPda(id)].mint, s.merchantWallets[merchantId];
    payout := FreshAccount(s, now, mint, wallet);
    var t := Step(s, now, OpenTokenAccount(payout, mint, wallet)).value;
    PayoutFits(s, t, now, id, payout, wallet);
    var release := UserRelease(s.orders[id].buyer, merchantId, id, payout);
    TwoReach(s, t, Step(t, now, release).value, now, OpenTokenAccount(payout, mint, wallet), release, id, Released);
  }

  /** After the deadline, anyone alone can refund a live order that is not disputed. */
  lemma AnyoneCanRefundAfterTheDeadline(s: State, now: int, id: U64, caller: Address) returns (payout: Address)
    requires WellFormed(s) && ExactVault(s, id) && SupplyFits(s)
    requires Live(s, id) && !s.orders[id].state.Disputed? && now >= s.orders[id].releaseDeadline && caller.External?
    ensures Reaches(s, now, [OpenFor(s, id, payout, s.orders[id].buyer), Refund(caller, id, payout)], id, Refunded)
  {
    var mint, buyer := s.tokens[VaultPda(id)].mint, s.orders[id].buyer;
    payout := FreshAccount(s, now, mint, buyer);
    var t := Step(s, now, OpenTokenAccount(payout, mint, buyer)).value;
    PayoutFits(s, t, now, id, payout, buyer);
    var refund := Refund(caller, id, payout);
    TwoReach(s, t, Step(t, now, refund).value, now, OpenTokenAccount(payout, mint, buyer), refund, id, Refunded);
  }

  /** And the arbiter can settle a disputed one either way. */
  lemma ArbiterCanResolve(s: State, now: int, id: U64, merchantId: U64, release: bool) returns (toBuyer: Address, toMerchant: Address)
    requires WellFormed(s) && ExactVault(s, id) && SupplyFits(s)
    requires Live(s, id) && s.orders[id].state.Disputed? && merchantId in s.merchantWallets
    requires s.config.Some? && s.config.value.arbiter.External?
    ensures Reaches(s, now, [OpenFor(s, id, toBuyer, s.orders[id].buyer), OpenFor(s, id, toMerchant, s.merchantWallets[merchantId]),
                             Resolve(s.config.value.arbiter, merchantId, id, toBuyer, toMerchant, release)],
                    id, if release then Released else Refunded)
  {
    var mint, buyer, wallet := s.tokens[VaultPda(id)].mint, s.orders[id].buyer, s.merchantWallets[merchantId];
    toBuyer := FreshAccount(s, now, mint, buyer);
    var first := OpenTokenAccount(toBuyer, mint, buyer);
    var t := Step(s, now, first).value;
    PayoutFits(s, t, now, id, toBuyer, buyer);
    toMerchant := FreshAccount(t, now, mint, wallet);
    var second := OpenTokenAccount(toMerchant, mint, wallet);
    var u := Step(t, now, second).value;
    PayoutFits(t, u, now, id, toMerchant, wallet);
    if !release {
      TwoAccountsWithinSupply(u, toBuyer, VaultPda(id));
      SettleSucceeds(u, id, toBuyer, Refunded);
    }
    var resolve := Resolve(s.config.value.arbiter, merchantId, id, toBuyer, toMerchant, release);
    TwoReach(t, u, Step(u, now, resolve).value, now, second, resolve, id, if release then Released else Refunded);
    assert [first, second, resolve][1..] == [second, resolve];
  }

  /** After opening a payout account, the settlement into it succeeds and the invariants still hold. */
  lemma PayoutFits(s: State, t: State, now: int, id: U64, payout: Address, owner: Address)
    requires WellFormed(s) && ExactVault(s, id) && SupplyFits(s) && Live(s, id)
    requires Step(s, now, OpenTokenAccount(payout, s.tokens[VaultPda(id)].mint, owner)) == Success(t)
    ensures WellFormed(t) && ExactVault(t, id) && SupplyFits(t) && Live(t, id)
    ensures Settle(t, id, payout, Released).Success? && Settle(t, id, payout, Refunded).Success?
  {
    var open := OpenTokenAccount(payout, s.tokens[VaultPda(id)].mint, owner);
    StepKeepsWellFormed(s, now, open);
    forall mint ensures Supply(t, mint) <= MAX_U64 {
      StepConserves(s, now, open, mint);
    }
    assert VaultPda(id) in s.tokens;
    TwoAccountsWithinSupply(t, payout, VaultPda(id));
    SettleSucceeds(t, id, payout, Released);
    SettleSucceeds(t, id, payout, Refunded);
  }

  lemma {:induction false} SupplyFitsInEveryRun(g: State, txs: seq<Tx>)
    requires WellFormed(g) && SupplyFits(g)
    ensures SupplyFits(Run(g, txs))
  {
    forall mint ensures Supply(Run(g, txs), mint) <= MAX_U64 {
      RunConserves(g, txs, mint);
    }
  }

  lemma {:induction false} RunTwoMore(g: State, txs: seq<Tx>, first: Tx, second: Tx)
    ensures Run(g, txs + [first, second]) == Execute(Execute(Run(g, txs), first), second)
  {
    var longer := txs + [first, second];
    assert longer[..|longer| - 1] == txs + [first];
    assert (txs + [first])[..|txs|] == txs;
  }

  ghost predicate EndsIn(s: State, id: U64, final: OrderState) {
    id in s.orders && s.orders[id].state == final
  }

  /** Two transactions, the first opening a token account and the second sent by `sender`. */
  ghost predicate TwoBy(txs: seq<Tx>, sender: Address) {
    |txs| == 2 && txs[0].instruction.OpenTokenAccount? && txs[1].instruction.Signer() == sender
  }

  /** No stuck funds: every run in which a live order exists can be continued, by two transactions
      that its buyer can send at any clock, to one where the order is released. */
  lemma NoStuckFunds(g: State, txs: seq<Tx>, id: U64, now: int) returns (release: seq<Tx>)
    requires Genesis(g) && SupplyFits(g) && RegistersWallets(txs) && Live(Run(g, txs), id)
    ensures TwoBy(release, Run(g, txs).orders[id].buyer) && EndsIn(Run(g, txs + release), id, Released)
  {
    var s := Run(g, txs);
    ReachableIsSolvent(g, txs);
    var order := s.orders[id];
    var payout := BuyerCanAlwaysRelease(s, now, id, order.merchantId);
    release := [Tx(now, OpenFor(s, id, payout, s.merchantWallets[order.merchantId])),
                Tx(now, UserRelease(order.buyer, order.merchantId, id, payout))];
    RunReaches(g, txs, release[0], release[1], id, Released);
  }

  /** And from its deadline on, if it is not disputed, by two that anyone can send, to one where it is
      refunded. */
  lemma NoStuckFundsPastDeadline(g: State, txs: seq<Tx>, id: U64, now: int, anyone: Address) returns (refund: seq<Tx>)
    requires Genesis(g) && SupplyFits(g) && RegistersWallets(txs) && Live(Run(g, txs), id) && anyone.External?
    requires !Run(g, txs).orders[id].state.Disputed? && now >= Run(g, txs).orders[id].releaseDeadline
    ensures TwoBy(refund, anyone) && EndsIn(Run(g, txs + refund), id, Refunded)
  {
    var s := Run(g, txs);
    ReachableIsSolvent(g, txs);
    var back := AnyoneCanRefundAfterTheDeadline(s, now, id, anyone);
    refund := [Tx(now, OpenFor(s, id, back, s.orders[id].buyer)), Tx(now, Refund(anyone, id, back))];
    RunReaches(g, txs, refund[0], refund[1], id, Refunded);
  }

  /** A disputed order can be settled either way by three transactions, the last of them the arbiter's. */
  lemma DisputesCanBeResolved(g: State, txs: seq<Tx>, id: U64, now: int, release: bool) returns (more: seq<Tx>)
    requires Genesis(g) && SupplyFits(g) && RegistersWallets(txs) && Live(Run(g, txs), id)
    requires Run(g, txs).orders[id].state.Disputed?
    requires Run(g, txs).config.Some? && Run(g, txs).config.value.arbiter.External?
    ensures |more| == 3 && more[0].instruction.OpenTokenAccount? && more[1].instruction.OpenTokenAccount?
    ensures more[2].instruction.Signer() == Run(g, txs).config.value.arbiter
    ensures EndsIn(Run(g, txs + more), id, if release then Released else Refunded)
  {
    var s := Run(g, txs);
    ReachableIsSolvent(g, txs);
    var merchantId := s.orders[id].merchantId;
    var toBuyer, toMerchant := ArbiterCanResolve(s, now, id, merchantId, release);
    var first := Tx(now, OpenFor(s, id, toBuyer, s.orders[id].buyer));
    var second := Tx(now, OpenFor(s, id, toMerchant, s.merchantWallets[merchantId]));
    var third := Tx(now, Resolve(s.config.value.arbiter, merchantId, id, toBuyer, toMerchant, release));
    more := [first, second, third];
    var rest := [second.instruction, third.instruction];
    assert [first.instruction, second.instruction, third.instruction][1..] == rest;
    assert Run(g, txs + [first]) == Execute(s, first) by {
      assert (txs + [first])[..|txs|] == txs;
    }
    RunReaches(g, txs + [first], second, third, id, if release then Released else Refunded);
    assert txs + [first] + [second, third] == txs + more;
  }

  lemma {:induction false} RunConcat(g: State, first: seq<Tx>, second: seq<Tx>)
    ensures Run(g, first + second) == Run(Run(g, first), second)
  {
    if second == [] {
      assert first + second == first;
    } else {
      var init := second[..|second| - 1];
      assert (first + second)[..|first + second| - 1] == first + init;
      RunConcat(g, first, init);
    }
  }

  /** More in the vault than the order asks for, so that no settlement can empty it. */
  ghost predicate Overfull(s: State, id: U64) {
    Live(s, id) && VaultPda(id) in s.tokens && s.tokens[VaultPda(id)].balance > s.orders[id].amount
  }

  lemma OverfullStays(s: State, now: int, i: Instruction, id: U64)
    requires WellFormed(s) && Overfull(s, id) && Step(s, now, i).Success?
    ensures Overfull(Step(s, now, i).value, id)
  {
    if PayoutOf(i).Some? {
      SettlingStep(s, now, i);
      SettleEffect(s, PayoutOf(i).value.0, PayoutOf(i).value.1, FinalState(i));
    } else if i.Fund? {
      FundStep(s, now, i);
      assert s.tokens[VaultPda(id)].owner == OrderPda(id);
    } else {
      StepKeepsWellFormed(s, now, i);
      OtherStep(s, now, i);
    }
  }

  lemma {:induction false} OverfullForever(s: State, txs: seq<Tx>, id: U64)
    requires WellFormed(s) && Overfull(s, id)
    ensures Overfull(Run(s, txs), id)
  {
    if txs != [] {
      var before, tx := txs[..|txs| - 1], txs[|txs| - 1];
      OverfullForever(s, before, id);
      RunKeepsWellFormed(s, before);
      if Step(Run(s, before), tx.now, tx.instruction).Success? {
        OverfullStays(Run(s, before), tx.now, tx.instruction, id);
      }
    }
  }

  ghost predicate CanSettle(g: State, txs: seq<Tx>, id: U64) {
    exists more :: Closed(Run(g, txs + more), id)
  }

  ghost predicate Closed(s: State, id: U64) {
    id in s.orders && s.orders[id].state.Settled()
  }

  /** The exact condition, with no assumption on the registered wallets: a live order can still be settled
      if and only if its own vault holds exactly its amount. */
  lemma {:induction false} NoStuckFundsExactly(g: State, txs: seq<Tx>, id: U64)
    requires Genesis(g) && SupplyFits(g) && Live(Run(g, txs), id)
    ensures CanSettle(g, txs, id) <==> ExactVault(Run(g, txs), id)
  {
    var s := Run(g, txs);
    GenesisIsWellFormed(g);
    RunKeepsWellFormed(g, txs);
    assert VaultPda(id) in s.tokens;
    if ExactVault(s, id) {
      SupplyFitsInEveryRun(g, txs);
      var order := s.orders[id];
      var payout := BuyerCanAlwaysRelease(s, 0, id, order.merchantId);
      var release := [Tx(0, OpenFor(s, id, payout, s.merchantWallets[order.merchantId])),
                      Tx(0, UserRelease(order.buyer, order.merchantId, id, payout))];
      RunReaches(g, txs, release[0], release[1], id, Released);
      assert txs + release == txs + [release[0], release[1]];
      assert Closed(Run(g, txs + release), id);
    } else {
      forall more ensures !Closed(Run(g, txs + more), id) {
        RunConcat(g, txs, more);
        OverfullForever(s, more, id);
      }
    }
  }

  lemma {:induction false} ReachableIsSolvent(g: State, txs: seq<Tx>)
    requires Genesis(g) && SupplyFits(g) && RegistersWallets(txs)
    ensures WellFormed(Run(g, txs)) && VaultsExact(Run(g, txs)) && SupplyFits(Run(g, txs))
  {
    GenesisIsWellFormed(g);
    RunKeepsWellFormed(g, txs);
    VaultsExactInEveryRun(g, txs);
    SupplyFitsInEveryRun(g, txs);
  }

  lemma {:induction false} RunReaches(g: State, txs: seq<Tx>, first: Tx, second: Tx, id: U64, final: OrderState)
    requires first.now == second.now && Reaches(Run(g, txs), first.now, [first.instruction, second.instruction], id, final)
    ensures EndsIn(Run(g, txs + [first, second]), id, final)
  {
    RunTwoMore(g, txs, first, second);
    assert [first.instruction, second.instruction][1..] == [second.instruction] && [second.instruction][1..] == [];
    var t := Step(Run(g, txs), first.now, first.instruction).value;
    assert Reaches(t, first.now, [second.instruction], id, final);
    assert Reaches(Step(t, first.now, second.instruction).value, first.now, [], id, final);
  }

  /** The condition in ExactnessStep matters, and the state in which it fails is reached: once a program
      address is registered as a payout wallet, a release can land in another order's vault, which then
      no longer holds exactly its amount. */
  lemma PayoutIntoVaultBreaksExactness() returns (g: State, txs: seq<Tx>, i: Instruction)
    ensures Genesis(g) && VaultsExact(Run(g, txs)) && Step(Run(g, txs), 0, i).Success?
    ensures !VaultsExact(Step(Run(g, txs), 0, i).value)
    ensures SupplyFits(g) && Live(Step(Run(g, txs), 0, i).value, 2) && !ExactVault(Step(Run(g, txs), 0, i).value, 2)
  {
    var s;
    g, txs, s := DemoRun();
    i := UserRelease(External(5), 1, 1, VaultPda(2));
    FourIsWellFormed(s);
    ExactnessStep(s, 0, i);
    OneAccountFits(g, External(9));
    SecondIsOverfull(s, i);
  }

  /** Two funded orders of one buyer, and the second order's address registered as payout wallet. */
  lemma DemoRun() returns (g: State, txs: seq<Tx>, s: State)
    ensures Genesis(g) && g.tokens == map[External(9) := TokenAccount(7, External(5), 200)] && Run(g, txs) == s
    ensures s.config == Some(Config(External(1), External(2), 7, 3)) && s.merchantWallets == map[1 as U64 := OrderPda(2)]
    ensures s.orders == map[1 := DEMO_ORDER, 2 := DEMO_ORDER]
    ensures s.tokens == map[External(9) := TokenAccount(7, External(5), 0), VaultPda(1) := TokenAccount(7, OrderPda(1), 100),
                            VaultPda(2) := TokenAccount(7, OrderPda(2), 100)]
  {
    var buyer, source := External(5), External(9);
    g := State(None, map[], map[], map[source := TokenAccount(7, buyer, 200)]);
    txs := [Tx(0, Initialize(External(1), External(2), 7)), Tx(0, SetMerchantWallet(External(1), 1, OrderPda(2))),
            Tx(0, Fund(buyer, 1, source, 1, 100, 0, 0, 10)), Tx(0, Fund(buyer, 1, source, 2, 100, 0, 0, 10))];
    var s2 := State(Some(Config(External(1), External(2), 7, 1)), map[1 := OrderPda(2)], map[], g.tokens);
    var s3 := AfterDemoFund(s2, 1);
    s := AfterDemoFund(s3, 2);
    DemoSetup(g, s2);
    DemoFund(s2, 1);
    DemoFund(s3, 2);
    RunOfFour(g, txs, g.(config := s2.config), s2, s3, s);
  }

  /** So the money of the other order is stuck: no transactions at all can settle it any more. */
  lemma PayoutIntoVaultSticks() returns (g: State, txs: seq<Tx>)
    ensures Genesis(g) && SupplyFits(g) && Live(Run(g, txs), 2) && !CanSettle(g, txs, 2)
  {
    var before, i;
    g, before, i := PayoutIntoVaultBreaksExactness();
    txs := before + [Tx(0, i)];
    assert txs[..|before|] == before;
    NoStuckFundsExactly(g, txs, 2);
  }

  lemma OneAccountFits(g: State, at: Address)
    requires g.tokens == map[at := TokenAccount(7, External(5), 200)]
    ensures SupplyFits(g)
  {
    forall mint ensures Supply(g, mint) <= MAX_U64 {
      MapSumRemove(g.tokens, at, HeldIn(mint));
      assert g.tokens - {at} == map[];
    }
  }

  lemma SecondIsOverfull(s: State, i: Instruction)
    requires WellFormed(s) && Step(s, 0, i).Success? && i == UserRelease(External(5), 1, 1, VaultPda(2))
    requires 1 in s.orders && 2 in s.orders && s.orders[1] == s.orders[2] == DEMO_ORDER
    requires VaultPda(2) in s.tokens && s.tokens[VaultPda(2)].balance == 100
    ensures Live(Step(s, 0, i).value, 2) && !ExactVault(Step(s, 0, i).value, 2)
  {
    SettlingStep(s, 0, i);
    SettleEffect(s, 1, VaultPda(2), Released);
  }

  const DEMO_ORDER := Order(1, External(5), 100, 0, 0, 0, 10, Funded)

  function AfterDemoFund(s: State, id: U64): State
    requires id < MAX_U64 && External(9) in s.tokens && s.tokens[External(9)].balance >= 100
  {
    State(Some(Config(External(1), External(2), 7, id + 1)), s.merchantWallets, s.orders[id := DEMO_ORDER],
          s.tokens[External(9) := s.tokens[External(9)].(balance := s.tokens[External(9)].balance - 100)]
                  [VaultPda(id) := TokenAccount(7, OrderPda(id), 100)])
  }

  lemma DemoSetup(g: State, s2: State)
    requires g == State(None, map[], map[], map[External(9) := TokenAccount(7, External(5), 200)])
    requires s2 == State(Some(Config(External(1), External(2), 7, 1)), map[1 := OrderPda(2)], map[], g.tokens)
    ensures Execute(g, Tx(0, Initialize(External(1), External(2), 7))) == g.(config := s2.config)
    ensures Execute(g.(config := s2.config), Tx(0, SetMerchantWallet(External(1), 1, OrderPda(2)))) == s2
  {
  }

  lemma DemoFund(s: State, id: U64)
    requires id < MAX_U64 && s.config == Some(Config(External(1), External(2), 7, id)) && 1 in s.merchantWallets
    requires id !in s.orders && VaultPda(id) !in s.tokens
    requires External(9) in s.tokens && s.tokens[External(9)].mint == 7 && s.tokens[External(9)].owner == External(5)
    requires s.tokens[External(9)].balance >= 100
    ensures Execute(s, Tx(0, Fund(External(5), 1, External(9), id, 100, 0, 0, 10))) == AfterDemoFund(s, id)
  {
    FundStep(s, 0, Fund(External(5), 1, External(9), id, 100, 0, 0, 10));
  }

  lemma FourIsWellFormed(s: State)
    requires s.config == Some(Config(External(1), External(2), 7, 3)) && s.merchantWallets == map[1 as U64 := OrderPda(2)]
    requires s.orders == map[1 := DEMO_ORDER, 2 := DEMO_ORDER]
    requires s.tokens == map[External(9) := TokenAccount(7, External(5), 0), VaultPda(1) := TokenAccount(7, OrderPda(1), 100),
                             VaultPda(2) := TokenAccount(7, OrderPda(2), 100)]
    ensures WellFormed(s) && VaultsExact(s)
    ensures Step(s, 0, UserRelease(External(5), 1, 1, VaultPda(2))).Success?
  {
  }

  lemma {:induction false} RunOfFour(g: State, txs: seq<Tx>, s1: State, s2: State, s3: State, s4: State)
    requires |txs| == 4 && Execute(g, txs[0]) == s1 && Execute(s1, txs[1]) == s2
    requires Execute(s2, txs[2]) == s3 && Execute(s3, txs[3]) == s4
    ensures Run(g, txs) == s4
  {
    assert txs[..3][..2] == txs[..2] && txs[..2][..1] == txs[..1] && txs[..1][..0] == [];
    assert Run(g, txs[..1]) == s1;
    assert Run(g, txs[..2]) == s2;
    assert Run(g, txs[..3]) == s3;
  }
}
