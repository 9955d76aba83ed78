/** Who may do what to an order, and when: the rules of the escrow program as a table of its own, and the
    cause of every state an order is in. */
module EscrowRules {
  import opened Results
  import opened EscrowProgram
  import opened EscrowSafety

  // ---------------------------------------------------------------- the rules

  ghost predicate IsWalletOf(s: State, merchantId: U64, who: Address) {
    merchantId in s.merchantWallets && s.merchantWallets[merchantId] == who
  }

  ghost predicate Unsettled(s: State, id: U64) {
    id in s.orders && s.orders[id].state in {Funded, Preparing, Ready, Disputed}
  }

  /** Who may send an instruction. */
  ghost predicate Entitled(s: State, now: int, i: Instruction) {
    match i
    case Initialize(_, _, _) => true
    case SetUsdcMint(who, _) => s.config.Some? && s.config.value.authority == who
    case SetMerchantWallet(who, _, _) => s.config.Some? && s.config.value.authority == who
    case Fund(who, _, source, _, _, _, _, _) => source in s.tokens && s.tokens[source].owner == who
    case MarkPreparing(who, m, _) => IsWalletOf(s, m, who)
    case MarkReady(who, m, _) => IsWalletOf(s, m, who)
    case ConfirmPickup(who, m, id, hash, _) => IsWalletOf(s, m, who) && id in s.orders && s.orders[id].pickupCodeHash == hash
    case UserRelease(who, _, id, _) => id in s.orders && s.orders[id].buyer == who
    case Refund(who, id, _) =>
      id in s.orders && ((s.orders[id].buyer == who && s.orders[id].state == Funded) || s.orders[id].releaseDeadline <= now)
    case Dispute(who, m, id) => id in s.orders && (s.orders[id].buyer == who || IsWalletOf(s, m, who))
    case Resolve(who, _, _, _, _, _) => s.config.Some? && s.config.value.arbiter == who
    case OpenTokenAccount(_, _, _) => true
    case WalletTransfer(who, source, _, _) => source in s.tokens && s.tokens[source].owner == who
  }

  /** From which states of its order an instruction may go. */
  ghost predicate InState(s: State, now: int, i: Instruction) {
    match i
    case Initialize(_, _, _) => s.config.None?
    case Fund(_, m, _, id, amount, _, _, deadline) =>
      && s.config.Some? && m in s.merchantWallets && id == s.config.value.nextOrderId && id < MAX_U64
      && amount >= 1 && now < deadline
    case MarkPreparing(_, _, id) => id in s.orders && s.orders[id].state == Funded
    case MarkReady(_, _, id) => id in s.orders && s.orders[id].state == Preparing
    case ConfirmPickup(_, _, id, _, _) => id in s.orders && s.orders[id].state in {Preparing, Ready}
    case UserRelease(_, m, id, _) => Unsettled(s, id) && m in s.merchantWallets
    case Refund(_, id, _) => id in s.orders && s.orders[id].state in {Funded, Preparing, Ready}
    case Dispute(_, m, id) => id in s.orders && s.orders[id].state in {Funded, Preparing, Ready} && m in s.merchantWallets
    case Resolve(_, m, id, _, _, _) => id in s.orders && s.orders[id].state == Disputed && m in s.merchantWallets
    case OpenTokenAccount(at, _, _) => at.External? && at !in s.tokens
    case _ => true
  }

  /** An account of `owner` in the mint of the order's vault. */
  ghost predicate CanReceive(s: State, id: U64, at: Address, owner: Address) {
    && VaultPda(id) in s.tokens && at in s.tokens
    && s.tokens[at].mint == s.tokens[VaultPda(id)].mint && s.tokens[at].owner == owner
  }

  /** The money can move: the vault holds exactly the amount, and the receiver is another account with room
      for it. */
  ghost predicate CanPay(s: State, id: U64, at: Address) {
    && id in s.orders && VaultPda(id) in s.tokens && at in s.tokens && at != VaultPda(id)
    && s.tokens[VaultPda(id)].balance == s.orders[id].amount && s.tokens[at].balance + s.orders[id].amount <= MAX_U64
  }

  ghost predicate Funds(s: State, now: int, i: Instruction) {
    match i
    case Fund(_, _, source, _, amount, _, _, _) =>
      && s.config.Some? && source in s.tokens && s.tokens[source].mint == s.config.value.usdcMint && amount <= s.tokens[source].balance
    case ConfirmPickup(who, _, id, _, at) => CanReceive(s, id, at, who) && CanPay(s, id, at)
    case UserRelease(_, m, id, at) => m in s.merchantWallets && CanReceive(s, id, at, s.merchantWallets[m]) && CanPay(s, id, at)
    case Refund(_, id, at) => id in s.orders && CanReceive(s, id, at, s.orders[id].buyer) && CanPay(s, id, at)
    case Resolve(_, m, id, toBuyer, toMerchant, release) =>
      && id in s.orders && m in s.merchantWallets
      && CanReceive(s, id, toBuyer, s.orders[id].buyer) && CanReceive(s, id, toMerchant, s.merchantWallets[m])
      && CanPay(s, id, if release then toMerchant else toBuyer)
    case WalletTransfer(_, source, target, amount) =>
      && source in s.tokens && target in s.tokens && source.External? && target.External?
      && s.tokens[source].mint == s.tokens[target].mint && amount <= s.tokens[source].balance
      && (if source == target then s.tokens[source].balance else s.tokens[target].balance + amount) <= MAX_U64
    case _ => true
  }

  ghost predicate Permitted(s: State, now: int, i: Instruction) {
    i.Signer().External? && Entitled(s, now, i) && InState(s, now, i) && Funds(s, now, i)
  }

  // ---------------------------------------------------------------- exactly these succeed

  lemma SettlesExactly(s: State, id: U64, at: Address, owner: Address, final: OrderState)
    requires WellFormed(s) && Live(s, id) && CanReceive(s, id, at, owner)
    ensures Settle(s, id, at, final).Success? <==> CanPay(s, id, at)
  {
    if at != VaultPda(id) {
      SettleSucceeds(s, id, at, final);
    }
  }

  lemma VaultWhileLive(s: State, id: U64)
    requires WellFormed(s) && id in s.orders
    ensures VaultPda(id) in s.tokens <==> Live(s, id)
  {
  }

  lemma FundExactly(s: State, now: int, i: Instruction)
    requires WellFormed(s) && i.Fund?
    ensures Step(s, now, i).Success? <==> Permitted(s, now, i)
  {
    if i.buyer.External? && s.config.Some? && i.orderId == s.config.value.nextOrderId {
      assert i.orderId !in s.orders;
      assert VaultPda(i.orderId) !in s.tokens;
    }
  }

  lemma PlainExactly(s: State, now: int, i: Instruction)
    requires WellFormed(s) && PayoutOf(i).None? && !i.Fund?
    ensures Step(s, now, i).Success? <==> Permitted(s, now, i)
  {
  }

  lemma PayingExactly(s: State, now: int, i: Instruction)
    requires WellFormed(s) && PayoutOf(i).Some?
    ensures Step(s, now, i).Success? <==> Permitted(s, now, i)
  {
    var id := PayoutOf(i).value.0;
    if id in s.orders {
      VaultWhileLive(s, id);
    }
    if i.Signer().External? && Live(s, id) {
      match i
      case ConfirmPickup(who, _, _, _, at) => if CanReceive(s, id, at, who) { SettlesExactly(s, id, at, who, Released); }
      case UserRelease(_, m, _, at) =>
        if m in s.merchantWallets && CanReceive(s, id, at, s.merchantWallets[m]) {
          SettlesExactly(s, id, at, s.merchantWallets[m], Released);
        }
      case Refund(_, _, at) => if CanReceive(s, id, at, s.orders[id].buyer) { SettlesExactly(s, id, at, s.orders[id].buyer, Refunded); }
      case Resolve(_, m, _, toBuyer, toMerchant, release) =>
        if CanReceive(s, id, toBuyer, s.orders[id].buyer) && m in s.merchantWallets && CanReceive(s, id, toMerchant, s.merchantWallets[m]) {
          SettlesExactly(s, id, toBuyer, s.orders[id].buyer, Refunded);
          SettlesExactly(s, id, toMerchant, s.merchantWallets[m], Released);
        }
    }
  }

  /** An instruction succeeds if and only if its sender is entitled to it, its order is in a state for it, and
      the money is where it has to be. */
  lemma StepSucceedsExactly(s: State, now: int, i: Instruction)
    requires WellFormed(s)
    ensures Step(s, now, i).Success? <==> Permitted(s, now, i)
  {
    if PayoutOf(i).Some? {
      PayingExactly(s, now, i);
    } else if i.Fund? {
      FundExactly(s, now, i);
    } else {
      PlainExactly(s, now, i);
    }
  }

  // ---------------------------------------------------------------- every state has its cause

  /** What brought an order into a state: who signed it, in which state, and when. */
  ghost predicate Cause(s: State, tx: Tx, id: U64, after: OrderState) {
    var i, who := tx.instruction, tx.instruction.Signer();
    && who.External?
    && match after
       case Funded =>
         && i.Fund? && i.orderId == id && id !in s.orders && i.amount > 0 && tx.now < i.releaseDeadline
         && i.source in s.tokens && s.tokens[i.source].owner == who
       case Preparing =>
         && i.MarkPreparing? && i.orderId == id && IsWalletOf(s, i.merchantId, who) && id in s.orders && s.orders[id].state == Funded
       case Ready =>
         && i.MarkReady? && i.orderId == id && IsWalletOf(s, i.merchantId, who) && id in s.orders && s.orders[id].state == Preparing
       case Disputed =>
         && i.Dispute? && i.orderId == id && id in s.orders && s.orders[id].state in {Funded, Preparing, Ready}
         && (who == s.orders[id].buyer || IsWalletOf(s, i.merchantId, who))
       case Released =>
         && id in s.orders
         && (|| (i.UserRelease? && i.orderId == id && who == s.orders[id].buyer && s.orders[id].state in {Funded, Preparing, Ready, Disputed})
             || (&& i.ConfirmPickup? && i.orderId == id && IsWalletOf(s, i.merchantId, who)
                 && i.codeHash == s.orders[id].pickupCodeHash && s.orders[id].state in {Preparing, Ready})
             || (&& i.Resolve? && i.orderId == id && i.release && s.config.Some? && who == s.config.value.arbiter
                 && s.orders[id].state == Disputed))
       case Refunded => RefundCause(s, tx, id)
  }

  lemma StepHasCause(s: State, tx: Tx, id: U64)
    requires WellFormed(s) && id in Execute(s, tx).orders
    ensures var t := Execute(s, tx);
            (id in s.orders && t.orders[id] == s.orders[id]) || Cause(s, tx, id, t.orders[id].state)
  {
    var i := tx.instruction;
    if Step(s, tx.now, i).Success? {
      StepSucceedsExactly(s, tx.now, i);
      if id !in s.orders {
        NewOrdersAreFunded(s, tx.now, i, id);
      } else {
        StepMovesAlong(s, tx.now, i, id);
        if Execute(s, tx).orders[id] != s.orders[id] {
          StepEffect(s, tx.now, i, id);
        }
      }
    }
  }

  /** The state an instruction leaves its order in. */
  lemma StepEffect(s: State, now: int, i: Instruction, id: U64)
    requires WellFormed(s) && Step(s, now, i).Success? && id in s.orders && id in Step(s, now, i).value.orders
    requires Step(s, now, i).value.orders[id] != s.orders[id]
    ensures Named(i) == Some(id)
    ensures Step(s, now, i).value.orders[id].state ==
            match i
            case MarkPreparing(_, _, _) => Preparing
            case MarkReady(_, _, _) => Ready
            case Dispute(_, _, _) => Disputed
            case Refund(_, _, _) => Refunded
            case Resolve(_, _, _, _, _, release) => if release then Released else Refunded
            case _ => Released
    ensures !i.Fund? && !i.Initialize? && !i.SetUsdcMint? && !i.SetMerchantWallet? && !i.OpenTokenAccount? && !i.WalletTransfer?
  {
    StepMovesAlong(s, now, i, id);
    if PayoutOf(i).Some? {
      SettlingStep(s, now, i);
      SettleEffect(s, id, PayoutOf(i).value.1, FinalState(i));
    } else if i.Fund? {
      FundStep(s, now, i);
    }
  }

  /** The transaction of a run that last changed an order. */
  lemma {:induction false} LastChange(g: State, txs: seq<Tx>, id: U64) returns (k: nat)
    requires g.orders == map[] && id in Run(g, txs).orders
    ensures k < |txs| && id in Run(g, txs[..k + 1]).orders && Run(g, txs[..k + 1]).orders[id] == Run(g, txs).orders[id]
    ensures id in Run(g, txs[..k]).orders ==> Run(g, txs[..k]).orders[id] != Run(g, txs).orders[id]
  {
    assert txs != [];
    var before := txs[..|txs| - 1];
    if id in Run(g, before).orders && Run(g, txs).orders[id] == Run(g, before).orders[id] {
      k := LastChange(g, before, id);
      assert before[..k] == txs[..k] && before[..k + 1] == txs[..k + 1];
    } else {
      k := |before|;
      assert txs[..k + 1] == txs;
    }
  }

  /** In every run each order's state was brought about at some moment by someone entitled to it, and has
      stood since. */
  lemma StateHasCause(g: State, txs: seq<Tx>, id: U64) returns (k: nat)
    requires Genesis(g) && id in Run(g, txs).orders
    ensures k < |txs| && Cause(Run(g, txs[..k]), txs[k], id, Run(g, txs).orders[id].state)
    ensures id in Run(g, txs[..k + 1]).orders && Run(g, txs[..k + 1]).orders[id] == Run(g, txs).orders[id]
  {
    k := LastChange(g, txs, id);
    GenesisIsWellFormed(g);
    RunKeepsWellFormed(g, txs[..k]);
    assert txs[..k + 1][..k] == txs[..k];
    StepHasCause(Run(g, txs[..k]), txs[k], id);
  }

  /** An order that ends Released was released by its buyer, handed over by a registered wallet that showed its
      code, or awarded to the merchant by the arbiter after a dispute. */
  lemma ReleasesHaveACause(g: State, txs: seq<Tx>, id: U64) returns (k: nat)
    requires Genesis(g) && id in Run(g, txs).orders && Run(g, txs).orders[id].state == Released
    ensures k < |txs| && id in Run(g, txs[..k]).orders
    ensures var s, i := Run(g, txs[..k]), txs[k].instruction;
            var who, order := i.Signer(), s.orders[id];
            || (i.UserRelease? && i.orderId == id && who == order.buyer)
            || (&& i.ConfirmPickup? && i.orderId == id && IsWalletOf(s, i.merchantId, who)
                && i.codeHash == order.pickupCodeHash && order.state in {Preparing, Ready})
            || (&& i.Resolve? && i.orderId == id && i.release && s.config.Some? && who == s.config.value.arbiter
                && order.state == Disputed)
  {
    k := StateHasCause(g, txs, id);
  }

  /** A new order is exactly what its buyer funded. */
  lemma FundedAsSigned(s: State, now: int, i: Instruction)
    requires WellFormed(s) && i.Fund? && Step(s, now, i).Success?
    ensures var t := Step(s, now, i).value;
            && i.orderId in t.orders && s.config.Some? && i.orderId == s.config.value.nextOrderId
            && t.orders[i.orderId] ==
               Order(i.merchantId, i.Signer(), i.amount, i.quoteHash, i.pickupCodeHash, now, i.releaseDeadline, Funded)
            && i.source in s.tokens && i.source in t.tokens && VaultPda(i.orderId) in t.tokens
            && t.tokens[i.source].balance == s.tokens[i.source].balance - i.amount && t.tokens[VaultPda(i.orderId)].balance == i.amount
            && t.tokens[VaultPda(i.orderId)].mint == s.tokens[i.source].mint
            && t.config == Some(s.config.value.(nextOrderId := i.orderId + 1))
  {
    FundStep(s, now, i);
    StepSucceedsExactly(s, now, i);
  }

  // ---------------------------------------------------------------- settings

  /** The configuration is written once, by whoever comes first and becomes its authority; after that only the
      authority changes the mint, and a funding counts the next order id. Authority and arbiter stay. */
  lemma ConfigHasACause(s: State, now: int, i: Instruction)
    requires WellFormed(s) && Step(s, now, i).Success? && Step(s, now, i).value.config != s.config
    ensures var t := Step(s, now, i).value;
            t.config.Some?
            && match s.config
               case None => i.Initialize? && t.config == Some(Config(i.Signer(), i.arbiter, i.mint, 1))
               case Some(c) =>
                 || (i.SetUsdcMint? && i.Signer() == c.authority && t.config == Some(c.(usdcMint := i.mint)))
                 || (i.Fund? && i.orderId == c.nextOrderId && t.config == Some(c.(nextOrderId := c.nextOrderId + 1)))
  {
    if PayoutOf(i).Some? {
      SettlingStep(s, now, i);
    } else if i.Fund? {
      FundStep(s, now, i);
    }
  }

  /** A payout wallet is registered or replaced by the authority only, one at a time. */
  lemma WalletsHaveACause(s: State, now: int, i: Instruction)
    requires WellFormed(s) && Step(s, now, i).Success? && Step(s, now, i).value.merchantWallets != s.merchantWallets
    ensures i.SetMerchantWallet? && s.config.Some? && i.Signer() == s.config.value.authority
    ensures Step(s, now, i).value == s.(merchantWallets := s.merchantWallets[i.merchantId := i.wallet])
  {
    if PayoutOf(i).Some? {
      SettlingStep(s, now, i);
    } else if i.Fund? {
      FundStep(s, now, i);
    }
  }

  // ---------------------------------------------------------------- errors

  /** What an error says about the instruction. */
  ghost predicate Broken(s: State, now: int, i: Instruction, e: EscrowError) {
    match e
    case MissingSigner => !i.Signer().External?
    case Unauthorized => !Entitled(s, now, i) && (i.SetUsdcMint? || i.SetMerchantWallet? || i.Dispute?)
    case NotArbiter => i.Resolve? && !Entitled(s, now, i)
    case NotBuyer => i.UserRelease? && !Entitled(s, now, i)
    case NotMerchant => (i.MarkPreparing? || i.MarkReady? || i.ConfirmPickup?) && !IsWalletOf(s, i.merchantId, i.merchant)
    case WrongPickupCode => i.ConfirmPickup? && i.orderId in s.orders && s.orders[i.orderId].pickupCodeHash != i.codeHash
    case RefundNotAllowed => i.Refund? && !Entitled(s, now, i)
    case WrongState => !InState(s, now, i) && Named(i).Some? && !i.Fund?
    case OrderIdMismatch => i.Fund? && s.config.Some? && i.orderId != s.config.value.nextOrderId
    case ZeroAmount => i.Fund? && i.amount == 0
    case DeadlineInPast => i.Fund? && i.releaseDeadline <= now
    case WrongTokenAccountOwner => if i.Fund? then !Entitled(s, now, i) else !Funds(s, now, i)
    case Overflow => !Funds(s, now, i) || (i.Fund? && (i.orderId == MAX_U64 || i.amount > MAX_U64))
    case AccountConstraint => !Permitted(s, now, i)
    case _ => !Funds(s, now, i)
  }

  lemma PlainErrorsAreTrue(s: State, now: int, i: Instruction)
    requires Step(s, now, i).Failure? && PayoutOf(i).None? && !i.Fund?
    ensures Step(s, now, i).error != AccountConstraint ==> Broken(s, now, i, Step(s, now, i).error)
  {
    match i
    case SetUsdcMint(_, _) =>
    case MarkPreparing(_, _, _) =>
    case MarkReady(_, _, _) =>
    case Dispute(_, _, _) =>
    case WalletTransfer(_, _, _, _) =>
    case _ =>
  }

  lemma FundErrorsAreTrue(s: State, now: int, i: Instruction)
    requires Step(s, now, i).Failure? && i.Fund?
    ensures Step(s, now, i).error != AccountConstraint ==> Broken(s, now, i, Step(s, now, i).error)
  {
  }

  /** Why a settlement fails between accounts that belong to it. */
  lemma SettleErrorsAreTrue(s: State, id: U64, at: Address, final: OrderState)
    requires id in s.orders && Settle(s, id, at, final).Failure?
    ensures !CanPay(s, id, at) || s.tokens[at].mint != s.tokens[VaultPda(id)].mint
    ensures Settle(s, id, at, final).error in {AccountConstraint, WrongTokenAccountMint, InsufficientFunds, Overflow, VaultNotEmpty}
  {
  }

  lemma ReleaseErrorsAreTrue(s: State, now: int, i: Instruction)
    requires Step(s, now, i).Failure? && (i.ConfirmPickup? || i.UserRelease?)
    ensures Step(s, now, i).error != AccountConstraint ==> Broken(s, now, i, Step(s, now, i).error)
  {
    if i.orderId in s.orders && Settle(s, i.orderId, i.payout, Released).Failure? {
      SettleErrorsAreTrue(s, i.orderId, i.payout, Released);
    }
  }

  lemma RefundErrorsAreTrue(s: State, now: int, i: Instruction)
    requires Step(s, now, i).Failure? && i.Refund?
    ensures Step(s, now, i).error != AccountConstraint ==> Broken(s, now, i, Step(s, now, i).error)
  {
    if i.orderId in s.orders && Settle(s, i.orderId, i.payout, Refunded).Failure? {
      SettleErrorsAreTrue(s, i.orderId, i.payout, Refunded);
    }
  }

  lemma ResolveErrorsAreTrue(s: State, now: int, i: Instruction)
    requires Step(s, now, i).Failure? && i.Resolve?
    ensures Step(s, now, i).error != AccountConstraint ==> Broken(s, now, i, Step(s, now, i).error)
  {
    var at, final := if i.release then i.toMerchant else i.toBuyer, if i.release then Released else Refunded;
    if i.orderId in s.orders && Settle(s, i.orderId, at, final).Failure? {
      SettleErrorsAreTrue(s, i.orderId, at, final);
    }
  }

  /** Each error names a rule that was in fact broken. */
  lemma ErrorsAreTrue(s: State, now: int, i: Instruction)
    requires WellFormed(s) && Step(s, now, i).Failure?
    ensures Broken(s, now, i, Step(s, now, i).error)
  {
    if Step(s, now, i).error == AccountConstraint {
      StepSucceedsExactly(s, now, i);
    } else if i.ConfirmPickup? || i.UserRelease? {
      ReleaseErrorsAreTrue(s, now, i);
    } else if i.Refund? {
      RefundErrorsAreTrue(s, now, i);
    } else if i.Resolve? {
      ResolveErrorsAreTrue(s, now, i);
    } else if i.Fund? {
      FundErrorsAreTrue(s, now, i);
    } else {
      PlainErrorsAreTrue(s, now, i);
    }
  }

  /** A funding whose accounts exist is refused for the first thing wrong with it, in this order. */
  lemma FundingChecks(s: State, now: int, i: Instruction)
    requires WellFormed(s) && i.Fund? && i.buyer.External? && s.config.Some? && i.merchantId in s.merchantWallets
    requires i.source in s.tokens && i.orderId !in s.orders && VaultPda(i.orderId) !in s.tokens
    ensures var source, c := s.tokens[i.source], s.config.value;
            match Step(s, now, i)
            case Failure(WrongTokenAccountMint) => source.mint != c.usdcMint
            case Failure(WrongTokenAccountOwner) => source.mint == c.usdcMint && source.owner != i.buyer
            case Failure(e) =>
              && source.mint == c.usdcMint && source.owner == i.buyer
              && (e == ZeroAmount <==> i.amount == 0)
              && (e == DeadlineInPast <==> i.amount > 0 && i.releaseDeadline <= now)
              && (e == OrderIdMismatch <==> i.amount > 0 && now < i.releaseDeadline && i.orderId != c.nextOrderId)
              && (e == InsufficientFunds <==>
                    i.amount > 0 && now < i.releaseDeadline && i.orderId == c.nextOrderId < MAX_U64 && source.balance < i.amount)
            case Success(_) => Permitted(s, now, i)
  {
    StepSucceedsExactly(s, now, i);
  }

  /** What the instructions that move no order money leave behind. */
  lemma PlainEffects(s: State, now: int, i: Instruction)
    requires Step(s, now, i).Success? && PayoutOf(i).None? && !i.Fund? && !i.WalletTransfer?
    ensures var t := Step(s, now, i).value;
            match i
            case Initialize(who, arbiter, mint) => t == s.(config := Some(Config(who, arbiter, mint, 1)))
            case SetUsdcMint(_, mint) => s.config.Some? && t == s.(config := Some(s.config.value.(usdcMint := mint)))
            case SetMerchantWallet(_, m, wallet) => t == s.(merchantWallets := s.merchantWallets[m := wallet])
            case MarkPreparing(_, _, id) => id in s.orders && t == s.(orders := s.orders[id := s.orders[id].(state := Preparing)])
            case MarkReady(_, _, id) => id in s.orders && t == s.(orders := s.orders[id := s.orders[id].(state := Ready)])
            case Dispute(_, _, id) => id in s.orders && t == s.(orders := s.orders[id := s.orders[id].(state := Disputed)])
            case OpenTokenAccount(at, mint, owner) => at !in s.tokens && t == s.(tokens := s.tokens[at := TokenAccount(mint, owner, 0)])
            case _ => false
  {
  }

  /** In any state whatever, nothing settles an order a second time. */
  lemma SettlesOnlyUnsettled(s: State, now: int, i: Instruction)
    requires Step(s, now, i).Success? && PayoutOf(i).Some?
    ensures var id := PayoutOf(i).value.0;
            id in s.orders && s.orders[id].state != Released && s.orders[id].state != Refunded
            && id in Step(s, now, i).value.orders && Step(s, now, i).value.orders[id].state in {Released, Refunded}
  {
  }

  /** A wallet's own transfer moves the amount from account to account and nothing else. */
  lemma TransferMoves(s: State, now: int, i: Instruction, at: Address)
    requires i.WalletTransfer? && Step(s, now, i).Success?
    ensures var t := Step(s, now, i).value;
            && t == s.(tokens := t.tokens) && t.tokens.Keys == s.tokens.Keys
            && (at in s.tokens ==>
                  t.tokens[at] == s.tokens[at].(balance := s.tokens[at].balance - (if at == i.source then i.amount else 0)
                                                           + (if at == i.target then i.amount else 0)))
  {
  }
}
