/** The order_escrow program: one handler per instruction over config, orders and token accounts.

    A transaction either applies every effect of its handler or none of them. Amounts and order
    ids are 64-bit. A pickup code is represented by its keccak digest. */
module EscrowProgram {
  import opened Results
  import opened Sums

  const MAX_U64: nat := 0xFFFF_FFFF_FFFF_FFFF

  type U64 = n: int | 0 <= n <= MAX_U64

  /** Only an external address has a private key and can sign; the other two are derived
      from an order id and belong to the program. */
  datatype Address = External(key: nat) | OrderPda(id: U64) | VaultPda(id: U64)

  type Mint = nat
  type Digest = nat

  datatype TokenAccount = TokenAccount(mint: Mint, owner: Address, balance: nat)

  datatype OrderState = Funded | Preparing | Ready | Released | Refunded | Disputed {
    predicate Settled() {
      Released? || Refunded?
    }
  }

  datatype Order = Order(
    merchantId: U64, buyer: Address, amount: U64, quoteHash: Digest, pickupCodeHash: Digest,
    fundedAt: int, releaseDeadline: int, state: OrderState)

  datatype Config = Config(authority: Address, arbiter: Address, usdcMint: Mint, nextOrderId: U64)

  datatype State = State(
    config: Option<Config>,
    merchantWallets: map<U64, Address>,
    orders: map<U64, Order>,
    tokens: map<Address, TokenAccount>)

  datatype EscrowError =
    | AccountConstraint | MissingSigner | Unauthorized | NotArbiter | OrderIdMismatch | Overflow
    | ZeroAmount | DeadlineInPast | WrongState | NotBuyer | NotMerchant | WrongPickupCode
    | RefundNotAllowed | WrongTokenAccountOwner | WrongTokenAccountMint
    | InsufficientFunds | VaultNotEmpty

  datatype Instruction =
    | Initialize(authority: Address, arbiter: Address, mint: Mint)
    | SetUsdcMint(authority: Address, mint: Mint)
    | SetMerchantWallet(authority: Address, merchantId: U64, wallet: Address)
    | Fund(buyer: Address, merchantId: U64, source: Address, orderId: U64, amount: U64,
           quoteHash: Digest, pickupCodeHash: Digest, releaseDeadline: int)
    | MarkPreparing(merchant: Address, merchantId: U64, orderId: U64)
    | MarkReady(merchant: Address, merchantId: U64, orderId: U64)
    | ConfirmPickup(merchant: Address, merchantId: U64, orderId: U64, codeHash: Digest, payout: Address)
    | UserRelease(buyer: Address, merchantId: U64, orderId: U64, payout: Address)
    | Refund(caller: Address, orderId: U64, payout: Address)
    | Dispute(caller: Address, merchantId: U64, orderId: U64)
    | Resolve(arbiter: Address, merchantId: U64, orderId: U64, toBuyer: Address, toMerchant: Address, release: bool)
    // The two token-program steps that wallets take on their own accounts.
    | OpenTokenAccount(at: Address, mint: Mint, owner: Address)
    | WalletTransfer(owner: Address, source: Address, target: Address, amount: U64)
  {
    function Signer(): Address {
      match this
      case Initialize(a, _, _) => a
      case SetUsdcMint(a, _) => a
      case SetMerchantWallet(a, _, _) => a
      case Fund(b, _, _, _, _, _, _, _) => b
      case MarkPreparing(m, _, _) => m
      case MarkReady(m, _, _) => m
      case ConfirmPickup(m, _, _, _, _) => m
      case UserRelease(b, _, _, _) => b
      case Refund(c, _, _) => c
      case Dispute(c, _, _) => c
      case Resolve(a, _, _, _, _, _) => a
      case OpenTokenAccount(_, _, o) => External(0)
      case WalletTransfer(o, _, _, _) => o
    }
  }

  type Outcome = Result<State, EscrowError>

  // ---------------------------------------------------------------- token program

  /** The token program's transfer: same mint, enough funds, no 64-bit overflow at the target. */
  function Transfer(tokens: map<Address, TokenAccount>, source: Address, target: Address, amount: nat)
    : Result<map<Address, TokenAccount>, EscrowError>
  {
    if !(source in tokens && target in tokens) then Failure(AccountConstraint)
    else
      :- Need(tokens[source].mint == tokens[target].mint, WrongTokenAccountMint);
      :- Need(amount <= tokens[source].balance, InsufficientFunds);
      var debited := tokens[source := tokens[source].(balance := tokens[source].balance - amount)];
      :- Need(debited[target].balance + amount <= MAX_U64, Overflow);
      Success(debited[target := debited[target].(balance := debited[target].balance + amount)])
  }

  /** Closing needs an empty account. */
  function CloseAccount(tokens: map<Address, TokenAccount>, at: Address)
    : Result<map<Address, TokenAccount>, EscrowError>
  {
    if at !in tokens then Failure(AccountConstraint)
    else
      :- Need(tokens[at].balance == 0, VaultNotEmpty);
      Success(tokens - {at})
  }

  /** Pays the order's amount out of its vault, closes the vault and records the final state. */
  function Settle(s: State, orderId: U64, payout: Address, final: OrderState): Outcome
    requires orderId in s.orders
  {
    var order := s.orders[orderId];
    var paid :- Transfer(s.tokens, VaultPda(orderId), payout, order.amount);
    var closed :- CloseAccount(paid, VaultPda(orderId));
    Success(s.(tokens := closed, orders := s.orders[orderId := order.(state := final)]))
  }

  // ---------------------------------------------------------------- handlers

  /** Account checks shared by every settling handler: order, vault and payout accounts exist,
      the payout account holds the vault's mint and belongs to `owner`. */
  function CheckPayout(s: State, orderId: U64, payout: Address, owner: Address): Results.Outcome<EscrowError> {
    if orderId !in s.orders || VaultPda(orderId) !in s.tokens || payout !in s.tokens then Fail(AccountConstraint)
    else if s.tokens[payout].mint != s.tokens[VaultPda(orderId)].mint then Fail(WrongTokenAccountMint)
    else if s.tokens[payout].owner != owner then Fail(WrongTokenAccountOwner)
    else Pass
  }

  function ApplyInitialize(s: State, authority: Address, arbiter: Address, mint: Mint): Outcome {
    if s.config.Some? then Failure(AccountConstraint)
    else
      Success(s.(config := Some(Config(authority, arbiter, mint, 1))))
  }

  function ApplySetUsdcMint(s: State, authority: Address, mint: Mint): Outcome {
    if s.config.None? then Failure(AccountConstraint)
    else
      :- Need(s.config.value.authority == authority, Unauthorized);
      Success(s.(config := Some(s.config.value.(usdcMint := mint))))
  }

  function ApplySetMerchantWallet(s: State, authority: Address, merchantId: U64, wallet: Address): Outcome {
    if s.config.None? then Failure(AccountConstraint)
    else
      :- Need(s.config.value.authority == authority, Unauthorized);
      Success(s.(merchantWallets := s.merchantWallets[merchantId := wallet]))
  }

  function ApplyFund(s: State, now: int, buyer: Address, merchantId: U64, source: Address, orderId: U64,
                     amount: U64, quoteHash: Digest, pickupCodeHash: Digest, releaseDeadline: int): Outcome
  {
    if !(s.config.Some? && merchantId in s.merchantWallets && source in s.tokens) then Failure(AccountConstraint)
    else
      :- Need(orderId !in s.orders && VaultPda(orderId) !in s.tokens, AccountConstraint);
      var config := s.config.value;
      :- Need(s.tokens[source].mint == config.usdcMint, WrongTokenAccountMint);
      :- Need(s.tokens[source].owner == buyer, WrongTokenAccountOwner);
      :- Need(amount > 0, ZeroAmount);
      :- Need(releaseDeadline > now, DeadlineInPast);
      :- Need(orderId == config.nextOrderId, OrderIdMismatch);
      :- Need(config.nextOrderId < MAX_U64, Overflow);
      var order := Order(merchantId, buyer, amount, quoteHash, pickupCodeHash, now, releaseDeadline, Funded);
      var withVault := s.tokens[VaultPda(orderId) := TokenAccount(config.usdcMint, OrderPda(orderId), 0)];
      var paid :- Transfer(withVault, source, VaultPda(orderId), amount);
      Success(s.(config := Some(config.(nextOrderId := orderId + 1)),
                 orders := s.orders[orderId := order], tokens := paid))
  }

  /** The two merchant progress marks differ only in the states they go between. */
  function ApplyMark(s: State, merchant: Address, merchantId: U64, orderId: U64, before: OrderState, after: OrderState): Outcome {
    if !(merchantId in s.merchantWallets && orderId in s.orders) then Failure(AccountConstraint)
    else
      :- Need(s.merchantWallets[merchantId] == merchant, NotMerchant);
      :- Need(s.orders[orderId].state == before, WrongState);
      Success(s.(orders := s.orders[orderId := s.orders[orderId].(state := after)]))
  }

  function ApplyConfirmPickup(s: State, merchant: Address, merchantId: U64, orderId: U64, codeHash: Digest, payout: Address): Outcome {
    if merchantId !in s.merchantWallets then Failure(AccountConstraint)
    else
      :- Need(s.merchantWallets[merchantId] == merchant, NotMerchant);
      :- CheckPayout(s, orderId, payout, merchant);
      :- Need(s.orders[orderId].state.Ready? || s.orders[orderId].state.Preparing?, WrongState);
      :- Need(codeHash == s.orders[orderId].pickupCodeHash, WrongPickupCode);
      Settle(s, orderId, payout, Released)
  }

  function ApplyUserRelease(s: State, buyer: Address, merchantId: U64, orderId: U64, payout: Address): Outcome {
    if !(orderId in s.orders && merchantId in s.merchantWallets) then Failure(AccountConstraint)
    else
      :- Need(s.orders[orderId].buyer == buyer, NotBuyer);
      :- CheckPayout(s, orderId, payout, s.merchantWallets[merchantId]);
      :- Need(!s.orders[orderId].state.Settled(), WrongState);
      Settle(s, orderId, payout, Released)
  }

  function ApplyRefund(s: State, now: int, caller: Address, orderId: U64, payout: Address): Outcome {
    if orderId !in s.orders then Failure(AccountConstraint)
    else
      var order := s.orders[orderId];
      :- CheckPayout(s, orderId, payout, order.buyer);
      :- Need(!order.state.Settled() && !order.state.Disputed?, WrongState);
      var buyerCancel := caller == order.buyer && order.state.Funded?;
      var pastDeadline := now >= order.releaseDeadline;
      :- Need(buyerCancel || pastDeadline, RefundNotAllowed);
      Settle(s, orderId, payout, Refunded)
  }

  function ApplyDispute(s: State, caller: Address, merchantId: U64, orderId: U64): Outcome {
    if !(orderId in s.orders && merchantId in s.merchantWallets) then Failure(AccountConstraint)
    else
      var order := s.orders[orderId];
      :- Need(caller == order.buyer || caller == s.merchantWallets[merchantId], Unauthorized);
      :- Need(order.state.Funded? || order.state.Preparing? || order.state.Ready?, WrongState);
      Success(s.(orders := s.orders[orderId := order.(state := Disputed)]))
  }

  function ApplyResolve(s: State, arbiter: Address, merchantId: U64, orderId: U64,
                        toBuyer: Address, toMerchant: Address, release: bool): Outcome
  {
    if !(s.config.Some? && orderId in s.orders && merchantId in s.merchantWallets) then Failure(AccountConstraint)
    else
      :- Need(s.config.value.arbiter == arbiter, NotArbiter);
      :- CheckPayout(s, orderId, toBuyer, s.orders[orderId].buyer);
      :- CheckPayout(s, orderId, toMerchant, s.merchantWallets[merchantId]);
      :- Need(s.orders[orderId].state.Disputed?, WrongState);
      Settle(s, orderId, if release then toMerchant else toBuyer, if release then Released else Refunded)
  }

  /** Anyone may open an empty token account at a fresh external address. */
  function ApplyOpenTokenAccount(s: State, at: Address, mint: Mint, owner: Address): Outcome {
    if !(at.External? && at !in s.tokens) then Failure(AccountConstraint)
    else
      Success(s.(tokens := s.tokens[at := TokenAccount(mint, owner, 0)]))
  }

  /** A wallet moves its own tokens; deposits into vaults from outside the program are not part of the model. */
  function ApplyWalletTransfer(s: State, owner: Address, source: Address, target: Address, amount: U64): Outcome {
    if !(source in s.tokens && s.tokens[source].owner == owner && source.External? && target.External?) then Failure(AccountConstraint)
    else
      var moved :- Transfer(s.tokens, source, target, amount);
      Success(s.(tokens := moved))
  }

  /** One transaction at clock `now`. */
  function Step(s: State, now: int, i: Instruction): Outcome {
    if !i.Signer().External? then Failure(MissingSigner) else
    match i
    case Initialize(authority, arbiter, mint) => ApplyInitialize(s, authority, arbiter, mint)
    case SetUsdcMint(authority, mint) => ApplySetUsdcMint(s, authority, mint)
    case SetMerchantWallet(authority, merchantId, wallet) => ApplySetMerchantWallet(s, authority, merchantId, wallet)
    case Fund(buyer, merchantId, source, orderId, amount, quoteHash, codeHash, deadline) =>
      ApplyFund(s, now, buyer, merchantId, source, orderId, amount, quoteHash, codeHash, deadline)
    case MarkPreparing(merchant, merchantId, orderId) => ApplyMark(s, merchant, merchantId, orderId, Funded, Preparing)
    case MarkReady(merchant, merchantId, orderId) => ApplyMark(s, merchant, merchantId, orderId, Preparing, Ready)
    case ConfirmPickup(merchant, merchantId, orderId, codeHash, payout) =>
      ApplyConfirmPickup(s, merchant, merchantId, orderId, codeHash, payout)
    case UserRelease(buyer, merchantId, orderId, payout) => ApplyUserRelease(s, buyer, merchantId, orderId, payout)
    case Refund(caller, orderId, payout) => ApplyRefund(s, now, caller, orderId, payout)
    case Dispute(caller, merchantId, orderId) => ApplyDispute(s, caller, merchantId, orderId)
    case Resolve(arbiter, merchantId, orderId, toBuyer, toMerchant, release) =>
      ApplyResolve(s, arbiter, merchantId, orderId, toBuyer, toMerchant, release)
    case OpenTokenAccount(at, mint, owner) => ApplyOpenTokenAccount(s, at, mint, owner)
    case WalletTransfer(owner, source, target, amount) => ApplyWalletTransfer(s, owner, source, target, amount)
  }
}
