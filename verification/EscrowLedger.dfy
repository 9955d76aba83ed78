/** The program's accounts as mutable state. Every handler below writes fields step by step, as its
    counterpart in the program does, and is proved against `Step` of EscrowProgram: on failure
    everything it wrote is rolled back. */
module EscrowLedger {
  import opened Results
  import opened EscrowProgram
  import opened EscrowSafety

  class Ledger {
    var config: Option<Config>
    var merchantWallets: map<U64, Address>
    var orders: map<U64, Order>
    var tokens: map<Address, TokenAccount>

    constructor (balances: map<Address, TokenAccount>)
      ensures View() == State(None, map[], map[], balances)
    {
      config, merchantWallets, orders, tokens := None, map[], map[], balances;
    }

    function View(): State
      reads this
    {
      State(config, merchantWallets, orders, tokens)
    }

    /** `r` and the current accounts are what `spec` prescribes from the accounts `before`. */
    ghost predicate Agrees(before: State, spec: Result<State, EscrowError>, r: Results.Outcome<EscrowError>)
      reads this
    {
      match spec
      case Success(after) => r.Pass? && View() == after
      case Failure(e) => r == Fail(e) && View() == before
    }

    method Initialize(authority: Address, arbiter: Address, mint: Mint, now: int) returns (r: Results.Outcome<EscrowError>)
      modifies this
      ensures Agrees(old(View()), Step(old(View()), now, Instruction.Initialize(authority, arbiter, mint)), r)
    {
      if !authority.External? { return Fail(MissingSigner); }
      if config.Some? { return Fail(AccountConstraint); }
      config := Some(Config(authority, arbiter, mint, 1));
      return Pass;
    }

    method SetUsdcMint(authority: Address, mint: Mint, now: int) returns (r: Results.Outcome<EscrowError>)
      modifies this
      ensures Agrees(old(View()), Step(old(View()), now, Instruction.SetUsdcMint(authority, mint)), r)
    {
      if !authority.External? { return Fail(MissingSigner); }
      if config.None? { return Fail(AccountConstraint); }
      if config.value.authority != authority { return Fail(Unauthorized); }
      config := Some(config.value.(usdcMint := mint));
      return Pass;
    }

    method SetMerchantWallet(authority: Address, merchantId: U64, wallet: Address, now: int) returns (r: Results.Outcome<EscrowError>)
      modifies this
      ensures Agrees(old(View()), Step(old(View()), now, Instruction.SetMerchantWallet(authority, merchantId, wallet)), r)
    {
      if !authority.External? { return Fail(MissingSigner); }
      if config.None? { return Fail(AccountConstraint); }
      if config.value.authority != authority { return Fail(Unauthorized); }
      merchantWallets := merchantWallets[merchantId := wallet];
      return Pass;
    }

    /** The token program's transfer, on the accounts in place. */
    method TransferTokens(source: Address, target: Address, amount: nat) returns (r: Results.Outcome<EscrowError>)
      modifies this`tokens
      ensures match Transfer(old(tokens), source, target, amount)
              case Success(moved) => r.Pass? && tokens == moved
              case Failure(e) => r == Fail(e) && tokens == old(tokens)
    {
      if source !in tokens || target !in tokens { return Fail(AccountConstraint); }
      if tokens[source].mint != tokens[target].mint { return Fail(WrongTokenAccountMint); }
      if tokens[source].balance < amount { return Fail(InsufficientFunds); }
      var saved := tokens;
      tokens := tokens[source := tokens[source].(balance := tokens[source].balance - amount)];
      if tokens[target].balance + amount > MAX_U64 {
        tokens := saved;
        return Fail(Overflow);
      }
      tokens := tokens[target := tokens[target].(balance := tokens[target].balance + amount)];
      return Pass;
    }

    /** Vault to payout account, close the vault, record the final state; all or nothing. */
    method PayOut(orderId: U64, payout: Address, final: OrderState) returns (r: Results.Outcome<EscrowError>)
      requires orderId in orders
      modifies this
      ensures Agrees(old(View()), Settle(old(View()), orderId, payout, final), r)
    {
      var vault := VaultPda(orderId);
      var saved := tokens;
      r := TransferTokens(vault, payout, orders[orderId].amount);
      if r.Fail? { return; }
      if tokens[vault].balance != 0 {
        tokens := saved;
        return Fail(VaultNotEmpty);
      }
      tokens := tokens - {vault};
      orders := orders[orderId := orders[orderId].(state := final)];
    }

    method Fund(buyer: Address, merchantId: U64, source: Address, orderId: U64, amount: U64,
                quoteHash: Digest, pickupCodeHash: Digest, releaseDeadline: int, now: int) returns (r: Results.Outcome<EscrowError>)
      modifies this
      ensures Agrees(old(View()), Step(old(View()), now,
                Instruction.Fund(buyer, merchantId, source, orderId, amount, quoteHash, pickupCodeHash, releaseDeadline)), r)
    {
      if !buyer.External? { return Fail(MissingSigner); }
      if config.None? || merchantId !in merchantWallets || source !in tokens { return Fail(AccountConstraint); }
      if orderId in orders || VaultPda(orderId) in tokens { return Fail(AccountConstraint); }
      if tokens[source].mint != config.value.usdcMint { return Fail(WrongTokenAccountMint); }
      if tokens[source].owner != buyer { return Fail(WrongTokenAccountOwner); }
      if amount == 0 { return Fail(ZeroAmount); }
      if releaseDeadline <= now { return Fail(DeadlineInPast); }
      if orderId != config.value.nextOrderId { return Fail(OrderIdMismatch); }
      if config.value.nextOrderId == MAX_U64 { return Fail(Overflow); }
      var savedConfig, savedOrders, savedTokens := config, orders, tokens;
      tokens := tokens[VaultPda(orderId) := TokenAccount(config.value.usdcMint, OrderPda(orderId), 0)];
      config := Some(config.value.(nextOrderId := config.value.nextOrderId + 1));
      orders := orders[orderId := Order(merchantId, buyer, amount, quoteHash, pickupCodeHash, now, releaseDeadline, Funded)];
      r := TransferTokens(source, VaultPda(orderId), amount);
      if r.Fail? {
        config, orders, tokens := savedConfig, savedOrders, savedTokens;
      }
    }

    method MarkPreparing(merchant: Address, merchantId: U64, orderId: U64, now: int) returns (r: Results.Outcome<EscrowError>)
      modifies this
      ensures Agrees(old(View()), Step(old(View()), now, Instruction.MarkPreparing(merchant, merchantId, orderId)), r)
    {
      if !merchant.External? { return Fail(MissingSigner); }
      if merchantId !in merchantWallets || orderId !in orders { return Fail(AccountConstraint); }
      if merchantWallets[merchantId] != merchant { return Fail(NotMerchant); }
      if !orders[orderId].state.Funded? { return Fail(WrongState); }
      orders := orders[orderId := orders[orderId].(state := Preparing)];
      return Pass;
    }

    method MarkReady(merchant: Address, merchantId: U64, orderId: U64, now: int) returns (r: Results.Outcome<EscrowError>)
      modifies this
      ensures Agrees(old(View()), Step(old(View()), now, Instruction.MarkReady(merchant, merchantId, orderId)), r)
    {
      if !merchant.External? { return Fail(MissingSigner); }
      if merchantId !in merchantWallets || orderId !in orders { return Fail(AccountConstraint); }
      if merchantWallets[merchantId] != merchant { return Fail(NotMerchant); }
      if !orders[orderId].state.Preparing? { return Fail(WrongState); }
      orders := orders[orderId := orders[orderId].(state := Ready)];
      return Pass;
    }

    method ConfirmPickup(merchant: Address, merchantId: U64, orderId: U64, codeHash: Digest, payout: Address, now: int)
      returns (r: Results.Outcome<EscrowError>)
      modifies this
      ensures Agrees(old(View()), Step(old(View()), now, Instruction.ConfirmPickup(merchant, merchantId, orderId, codeHash, payout)), r)
    {
      if !merchant.External? { return Fail(MissingSigner); }
      if merchantId !in merchantWallets { return Fail(AccountConstraint); }
      if merchantWallets[merchantId] != merchant { return Fail(NotMerchant); }
      r := CheckPayout(View(), orderId, payout, merchant);
      if r.Fail? { return; }
      var order := orders[orderId];
      if !order.state.Ready? && !order.state.Preparing? { return Fail(WrongState); }
      if codeHash != order.pickupCodeHash { return Fail(WrongPickupCode); }
      r := PayOut(orderId, payout, Released);
    }

    method UserRelease(buyer: Address, merchantId: U64, orderId: U64, payout: Address, now: int) returns (r: Results.Outcome<EscrowError>)
      modifies this
      ensures Agrees(old(View()), Step(old(View()), now, Instruction.UserRelease(buyer, merchantId, orderId, payout)), r)
    {
      if !buyer.External? { return Fail(MissingSigner); }
      if orderId !in orders || merchantId !in merchantWallets { return Fail(AccountConstraint); }
      if orders[orderId].buyer != buyer { return Fail(NotBuyer); }
      r := CheckPayout(View(), orderId, payout, merchantWallets[merchantId]);
      if r.Fail? { return; }
      if orders[orderId].state.Settled() { return Fail(WrongState); }
      r := PayOut(orderId, payout, Released);
    }

    method Refund(caller: Address, orderId: U64, payout: Address, now: int) returns (r: Results.Outcome<EscrowError>)
      modifies this
      ensures Agrees(old(View()), Step(old(View()), now, Instruction.Refund(caller, orderId, payout)), r)
    {
      if !caller.External? { return Fail(MissingSigner); }
      if orderId !in orders { return Fail(AccountConstraint); }
      var order := orders[orderId];
      r := CheckPayout(View(), orderId, payout, order.buyer);
      if r.Fail? { return; }
      if order.state.Settled() || order.state.Disputed? { return Fail(WrongState); }
      var buyerCancel := caller == order.buyer && order.state.Funded?;
      var pastDeadline := now >= order.releaseDeadline;
      if !buyerCancel && !pastDeadline { return Fail(RefundNotAllowed); }
      r := PayOut(orderId, payout, Refunded);
    }

    method Dispute(caller: Address, merchantId: U64, orderId: U64, now: int) returns (r: Results.Outcome<EscrowError>)
      modifies this
      ensures Agrees(old(View()), Step(old(View()), now, Instruction.Dispute(caller, merchantId, orderId)), r)
    {
      if !caller.External? { return Fail(MissingSigner); }
      if orderId !in orders || merchantId !in merchantWallets { return Fail(AccountConstraint); }
      var order := orders[orderId];
      if caller != order.buyer && caller != merchantWallets[merchantId] { return Fail(Unauthorized); }
      if !order.state.Funded? && !order.state.Preparing? && !order.state.Ready? { return Fail(WrongState); }
      orders := orders[orderId := order.(state := Disputed)];
      return Pass;
    }

    method Resolve(arbiter: Address, merchantId: U64, orderId: U64, toBuyer: Address, toMerchant: Address, release: bool, now: int)
      returns (r: Results.Outcome<EscrowError>)
      modifies this
      ensures Agrees(old(View()), Step(old(View()), now, Instruction.Resolve(arbiter, merchantId, orderId, toBuyer, toMerchant, release)), r)
    {
      if !arbiter.External? { return Fail(MissingSigner); }
      if config.None? || orderId !in orders || merchantId !in merchantWallets { return Fail(AccountConstraint); }
      if config.value.arbiter != arbiter { return Fail(NotArbiter); }
      r := CheckPayout(View(), orderId, toBuyer, orders[orderId].buyer);
      if r.Fail? { return; }
      r := CheckPayout(View(), orderId, toMerchant, merchantWallets[merchantId]);
      if r.Fail? { return; }
      if !orders[orderId].state.Disputed? { return Fail(WrongState); }
      var destination := if release then toMerchant else toBuyer;
      if release {
        r := PayOut(orderId, destination, Released);
      } else {
        r := PayOut(orderId, destination, Refunded);
      }
    }

    method OpenTokenAccount(at: Address, mint: Mint, owner: Address) returns (r: Results.Outcome<EscrowError>)
      modifies this`tokens
      ensures Agrees(old(View()), ApplyOpenTokenAccount(old(View()), at, mint, owner), r)
    {
      if !at.External? || at in tokens { return Fail(AccountConstraint); }
      tokens := tokens[at := TokenAccount(mint, owner, 0)];
      return Pass;
    }

    method WalletTransfer(owner: Address, source: Address, target: Address, amount: U64, now: int) returns (r: Results.Outcome<EscrowError>)
      modifies this`tokens
      ensures Agrees(old(View()), Step(old(View()), now, Instruction.WalletTransfer(owner, source, target, amount)), r)
    {
      if !owner.External? { return Fail(MissingSigner); }
      if source !in tokens || tokens[source].owner != owner || !source.External? || !target.External? { return Fail(AccountConstraint); }
      r := TransferTokens(source, target, amount);
    }

    /** Entry point of the program: dispatches on the instruction. */
    method Invoke(tx: Tx) returns (r: Results.Outcome<EscrowError>)
      modifies this
      ensures Agrees(old(View()), Step(old(View()), tx.now, tx.instruction), r)
    {
      var now := tx.now;
      match tx.instruction {
        case Initialize(authority, arbiter, mint) => r := Initialize(authority, arbiter, mint, now);
        case SetUsdcMint(authority, mint) => r := SetUsdcMint(authority, mint, now);
        case SetMerchantWallet(authority, merchantId, wallet) => r := SetMerchantWallet(authority, merchantId, wallet, now);
        case Fund(buyer, merchantId, source, orderId, amount, quoteHash, codeHash, deadline) =>
          r := Fund(buyer, merchantId, source, orderId, amount, quoteHash, codeHash, deadline, now);
        case MarkPreparing(merchant, merchantId, orderId) => r := MarkPreparing(merchant, merchantId, orderId, now);
        case MarkReady(merchant, merchantId, orderId) => r := MarkReady(merchant, merchantId, orderId, now);
        case ConfirmPickup(merchant, merchantId, orderId, codeHash, payout) =>
          r := ConfirmPickup(merchant, merchantId, orderId, codeHash, payout, now);
        case UserRelease(buyer, merchantId, orderId, payout) => r := UserRelease(buyer, merchantId, orderId, payout, now);
        case Refund(caller, orderId, payout) => r := Refund(caller, orderId, payout, now);
        case Dispute(caller, merchantId, orderId) => r := Dispute(caller, merchantId, orderId, now);
        case Resolve(arbiter, merchantId, orderId, toBuyer, toMerchant, release) =>
          r := Resolve(arbiter, merchantId, orderId, toBuyer, toMerchant, release, now);
        case OpenTokenAccount(at, mint, owner) => r := OpenTokenAccount(at, mint, owner);
        case WalletTransfer(owner, source, target, amount) => r := WalletTransfer(owner, source, target, amount, now);
      }
    }

    /** Any transactions in a row: the accounts go through the run of the program's model, so they keep its
        invariant, and no mint gains or loses a token. */
    method Process(txs: seq<Tx>)
      modifies this
      ensures View() == Run(old(View()), txs)
      ensures WellFormed(old(View())) ==>
        WellFormed(View()) && forall mint :: Supply(View(), mint) == Supply(old(View()), mint)
    {
      for k := 0 to |txs|
        invariant View() == Run(old(View()), txs[..k])
      {
        assert txs[..k + 1][..k] == txs[..k];
        var _ := Invoke(txs[k]);
      }
      assert txs[..|txs|] == txs;
      if WellFormed(old(View())) {
        RunKeepsWellFormed(old(View()), txs);
        forall mint ensures Supply(View(), mint) == Supply(old(View()), mint) {
          RunConserves(old(View()), txs, mint);
        }
      }
    }
  }
}
