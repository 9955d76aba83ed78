# MerchantMesh: its protocols in Dafny

MerchantMesh lets a shopping agent buy research, quotes and goods from merchant agents. Money moves in
integer micro-USDC through a few small deterministic protocols. This project models those protocols in
Dafny and proves what they keep, over all inputs and all runs.

| part | files | what it is about |
|---|---|---|
| Escrow program | `EscrowProgram`, `EscrowSafety`, `EscrowRules`, `EscrowLedger` | the Anchor program `order_escrow` as a multi-signer state machine over per-order token vaults |
| Mock chain | `MockChain`, `ChainSimulation` | the bridge's own chain, and the proof that it behaves like the program |
| Paid requests | `PaidRequests`, `GateRules`, `BudgetRules`, `PaymentAgreement`, `PaymentServices`, `SessionWallet` | the 402 handshake between bridge and merchants over a lossy network, the research budget, and the daily wallet limit |
| Stock | `Stock`, `StockInvariant`, `StockLaws`, `StockServices`, `StockRefinement` | Postgres counters with reservations and a movement log, and the SQLite counter that should agree with them |
| Pricing | `Pricing`, `SpreadLaws`, `Campaigns`, `Quoting`, `PricingLaws`, `Negotiation`, `QuoteLife` | spreading discounts with floors and minimums, campaigns, negotiation, and the life of a quote |
| Options | `Options`, `OptionLaws`, `GreedyRoute`, `GreedyGap`, `BuildOptions` | cheapest, best-quality and greedy pickup options |
| Funding and settlement | `Orders`, `OrderLaws`, `OrderDesk`, `MerchantDesk`, `FundingSaga`, `AlternativeRules`, `SagaRunner`, `SagaLaws`, `SagaAccounting`, `SagaCharges`, `SagaRefunds`, `Settlement`, `SettlementLaws`, `SagaSettlement` | the saga that funds an option, and what closed orders say about their escrows |
| Formats | `IdlCodec`, `CodecLaws`, `IdlRanking`, `Usdc`, `UsdcLaws` | the IDL-driven Borsh codec and the decimal printer and parser |
| Shared | `Results`, `Sums`, `Catalog` | result types, sums over sequences and maps, articles and priced lines |

`dafny verify dfyconfig.toml` checks the whole project.

Each protocol is a function from state and step to state. Code that updates tables in place is also a
class with those tables as fields, whose methods are proved equal to that function, loops included. The
lemmas about the functions and their runs are the results listed below. The modules whose names end in Rules
or Laws say of single operations exactly when they succeed and what they change, condition by condition.

## Where the code and its descriptions disagree

The model follows the code. These statements of comments and documentation do not hold, and each has a
lemma with a concrete input beside the exact statement that does hold:

- The session wallet's "rolling 24h" limit is a fixed window: spend in 24 hours can reach twice the limit
  (`SessionWallet.TwiceTheLimitIsReached`, `SessionWallet.DailyLimitExactly`).
- "Network failure, so the merchant never saw the payment" fails when only the response is lost
  (`PaymentAgreement.LostResponseIsNotRefunded`, `PaymentAgreement.CancelledWasSeenExactly`).
- The pickup route with the "fewest stops" is a greedy cover, which has the fewest for every market only up
  to three items (`GreedyGap.GreedyMissesFewestStops`, `GreedyGap.FewestStopsExactly`).
- The negotiation ceiling binds one round, not a negotiation (`Quoting.CapIsPerRound`,
  `Negotiation.CapHoldsExactly`).
- One negotiation can end in two orders when two requests overlap between check and write
  (`QuoteLife.OverlappingOrdersBothSucceed`, `QuoteLife.OrderOverlapsNegotiation`, `QuoteLife.NegotiationsOverlap`,
  `QuoteLife.CheckIsSafeExactly`).
- A shop whose escrow-funded webhook is lost counts as failed although its escrow is funded, so its items
  are bought twice (`SagaCharges.LostWebhookBuysTwice`, `SagaAccounting.ExactlyOnceIffAnnounced`).
- "Refunds everything" on cancellation leaves orders in preparation in escrow until their deadline
  (`SagaRefunds.PreparingStaysInEscrow`, `SagaRefunds.CancelRefundsExactly`).
- A failed order is rolled back in Postgres but not in SQLite (`StockRefinement.FailedOrderKeepsFirstLine`,
  `StockRefinement.FailedOrderUnchangedExactly`).

## Model

| member | source | states |
|---|---|---|
| `EscrowSafety.RunKeepsWellFormed` | solana/programs/order_escrow/src/state.rs:1-61 | over any run by any signers every unsettled order has its own vault of enough tokens, ids stay below the next id, and no vault belongs to a settled order |
| `EscrowSafety.RunConserves` | solana/programs/order_escrow/src/instructions/fund.rs:81-91 | no run of the program changes the total of any mint, even when the configured mint changes in the middle of it |
| `EscrowSafety.ExactnessStep` | solana/programs/order_escrow/src/instructions/user_release.rs:41-65 | from vaults that hold exactly their order amounts, a successful step keeps them exact if and only if it does not pay into a program-owned account |
| `EscrowSafety.VaultsExactInEveryRun` | solana/programs/order_escrow/src/instructions/fund.rs:59-91 | in every run that registers real payout wallets a live order has a vault holding exactly its amount and a settled order has none |
| `EscrowSafety.PayoutIntoVaultBreaksExactness` | solana/programs/order_escrow/src/instructions/set_merchant_wallet.rs:29-36 | a run from genesis that registers a program address as payout wallet, after which a release lands in another vault: the condition of ExactnessStep is needed |
| `EscrowSafety.StepMovesAlong` | solana/programs/order_escrow/src/state.rs:1-61 | a step keeps the terms of every order and moves at most one, the one it names, along Funded, Preparing, Ready, Disputed to a settled state |
| `EscrowSafety.SettlesAtMostOnce` | solana/programs/order_escrow/src/instructions/confirm_pickup.rs:34-77 | the number of settling steps of an order in any run is one if it ends settled and zero otherwise |
| `EscrowSafety.SettlementPaysTheRightParty` | solana/programs/order_escrow/src/instructions/resolve.rs:50-101 | a settling step moves the whole amount to one account: of the buyer for a refund, of a registered payout wallet for a release; no other account changes |
| `EscrowSafety.RefundsHaveACause` | solana/programs/order_escrow/src/instructions/refund.rs:28-71 | an order refunded in any run was cancelled by its buyer while Funded, or was past its deadline, or was resolved by the arbiter after a dispute |
| `EscrowSafety.BuyerCanAlwaysRelease` | solana/programs/order_escrow/src/instructions/user_release.rs:31-71 | in every live state the buyer has an enabled release to a registered wallet |
| `EscrowSafety.AnyoneCanRefundAfterTheDeadline` | solana/programs/order_escrow/src/instructions/refund.rs:30-39 | past the deadline anyone has an enabled refund of an undisputed live order |
| `EscrowSafety.DisputesCanBeResolved` | solana/programs/order_escrow/src/instructions/resolve.rs:50-101 | every run with a disputed order extends by three transactions, the last the arbiter's, to either outcome |
| `EscrowLedger.Ledger.Process` | solana/programs/order_escrow/src/lib.rs:24-77 | the handlers in any order over the same accounts go through the runs of the model, so they keep its invariant and the supply of every mint |
| `EscrowSafety.NoStuckFunds` | solana/programs/order_escrow/src/instructions/user_release.rs:31-71 | every run with a live order extends by two transactions of its buyer to a release |
| `EscrowSafety.NoStuckFundsPastDeadline` | solana/programs/order_escrow/src/instructions/refund.rs:28-71 | and past the deadline, when undisputed, by two of anyone to a refund |
| `EscrowSafety.NoStuckFundsExactly` | solana/programs/order_escrow/src/instructions/user_release.rs:41-65 | without any assumption on the registered wallets, a live order can still be settled if and only if its own vault holds exactly its amount |
| `EscrowSafety.PayoutIntoVaultSticks` | solana/programs/order_escrow/src/instructions/set_merchant_wallet.rs:29-36 | a run from genesis after which no transactions at all can settle a live order |
| `EscrowLedger.Ledger.Initialize` | solana/programs/order_escrow/src/instructions/initialize.rs:22-30 | writes the config once, with the first order id 1 |
| `EscrowLedger.Ledger.SetUsdcMint` | solana/programs/order_escrow/src/instructions/set_usdc_mint.rs:22-25 | changes the accepted mint for the authority only; vaults keep their own mint |
| `EscrowLedger.Ledger.SetMerchantWallet` | solana/programs/order_escrow/src/instructions/set_merchant_wallet.rs:29-36 | registers or replaces a payout wallet for the authority only |
| `EscrowLedger.Ledger.Fund` | solana/programs/order_escrow/src/instructions/fund.rs:51-101 | checks amount, deadline and order id in order, creates order and vault, advances the id counter and moves the tokens; any failure leaves every account as it was |
| `EscrowLedger.Ledger.MarkPreparing` | solana/programs/order_escrow/src/instructions/mark_preparing.rs:19-25 | Funded to Preparing by the registered merchant wallet only |
| `EscrowLedger.Ledger.MarkReady` | solana/programs/order_escrow/src/instructions/mark_ready.rs:19-25 | Preparing to Ready by the registered merchant wallet only |
| `EscrowLedger.Ledger.ConfirmPickup` | solana/programs/order_escrow/src/instructions/confirm_pickup.rs:34-77 | releases a Ready or Preparing order against its code hash and closes the vault |
| `EscrowLedger.Ledger.UserRelease` | solana/programs/order_escrow/src/instructions/user_release.rs:31-72 | the buyer releases any unsettled order and the vault is closed |
| `EscrowLedger.Ledger.Refund` | solana/programs/order_escrow/src/instructions/refund.rs:28-72 | refunds before preparation for the buyer and past the deadline for anyone, and closes the vault |
| `EscrowLedger.Ledger.Dispute` | solana/programs/order_escrow/src/instructions/dispute.rs:18-34 | buyer or merchant dispute an order that is Funded, Preparing or Ready |
| `EscrowLedger.Ledger.Resolve` | solana/programs/order_escrow/src/instructions/resolve.rs:50-101 | the arbiter settles a disputed order either way |
| `EscrowRules.StepSucceedsExactly` | solana/programs/order_escrow/src/lib.rs:24-77 | in every well-formed state an instruction succeeds if and only if its sender is entitled to it, its order is in a state for it and the money is where it has to be, each written out |
| `EscrowRules.ErrorsAreTrue` | solana/programs/order_escrow/src/error.rs:1-31 | the error of a refused instruction names a rule that it broke |
| `EscrowRules.StateHasCause` | solana/programs/order_escrow/src/state.rs:1-61 | in any run the state of each order was brought about at one moment by a party entitled to it (payer, registered wallet, buyer, arbiter) from a state it follows, and has stood since |
| `EscrowRules.ReleasesHaveACause` | solana/programs/order_escrow/src/instructions/user_release.rs:11-11 | an order that ends Released was released by its own buyer, picked up from a registered wallet with its code hash while Preparing or Ready, or awarded by the arbiter while Disputed |
| `EscrowRules.FundedAsSigned` | solana/programs/order_escrow/src/instructions/fund.rs:51-101 | a new order has the next id and exactly the terms its buyer signed, and its vault exactly what left the buyer's account, in the same mint |
| `EscrowRules.FundingChecks` | solana/programs/order_escrow/src/instructions/fund.rs:51-101 | a funding whose accounts exist is refused for the first thing wrong with it: mint, owner, amount, deadline, order id, funds |
| `EscrowRules.PlainEffects` | solana/programs/order_escrow/src/lib.rs:24-77 | what each instruction that moves no order money leaves behind, down to the whole state |
| `EscrowRules.ConfigHasACause` | solana/programs/order_escrow/src/instructions/set_usdc_mint.rs:22-25 | the settings are written once; afterwards only the authority changes the mint, a funding counts the order id, and authority and arbiter never change |
| `EscrowRules.WalletsHaveACause` | solana/programs/order_escrow/src/instructions/set_merchant_wallet.rs:29-36 | a payout wallet changes only by the authority, one at a time |
| `MockChain.WorthIsConstant` | apps/local-agent-bridge/src/chain.ts:133-247 | wallet balance plus unrefunded escrow amounts is unchanged by every call of the mock chain, whoever makes it |
| `MockChain.MockSettledIsFinal` | apps/local-agent-bridge/src/chain.ts:181-247 | escrow rows keep their terms and never leave a settled state |
| `MockChain.MockChainProvider.Debit` | apps/local-agent-bridge/src/chain.ts:133-139 | debits exactly when the balance covers the amount |
| `MockChain.MockChainProvider.Fund` | apps/local-agent-bridge/src/chain.ts:144-160 | scripted failures and overdrafts change nothing; otherwise the wallet pays and one row is appended |
| `MockChain.MockChainProvider.MarkPreparing` | apps/local-agent-bridge/src/chain.ts:195-201 | Funded to Preparing |
| `MockChain.MockChainProvider.MarkReady` | apps/local-agent-bridge/src/chain.ts:202-208 | Preparing to Ready |
| `MockChain.MockChainProvider.ConfirmPickup` | apps/local-agent-bridge/src/chain.ts:209-222 | releases a Ready or Preparing escrow against the code |
| `MockChain.MockChainProvider.Refund` | apps/local-agent-bridge/src/chain.ts:223-238 | refunds an unsettled escrow that is Funded or past its deadline, crediting the wallet once |
| `MockChain.MockChainProvider.UserRelease` | apps/local-agent-bridge/src/chain.ts:239-248 | releases any unsettled escrow |
| `ChainSimulation.SimulateStep` | apps/local-agent-bridge/src/chain.ts:144-247 | one mock call succeeds exactly when the corresponding program instruction does, and the states correspond again |
| `ChainSimulation.RunsCorrespond` | apps/local-agent-bridge/src/chain.ts:102-247 | every mock run is matched step by step by a run of the program with the same order ids, orders, states and buyer balance |
| `ChainSimulation.FreshDeployment` | apps/local-agent-bridge/src/chain.ts:102-131 | a freshly configured program corresponds to a fresh mock provider |
| `PaymentServices.PaymentGate.Check` | apps/merchant-agents/src/payments.ts:172-193 | the checks of the gate on a mock proof in their order; only a request that passes all of them leaves a trace, the row that spends its payment id |
| `PaymentServices.PaymentGate.MarkFeeRefunded` | apps/merchant-agents/src/payments.ts:206-213 | marks exactly that payment as refunded |
| `PaymentServices.PaymentGate.Respond` | apps/merchant-agents/src/payments.ts:195-213 | the refund mark and the cached answer, which an earlier answer under the key keeps |
| `PaymentServices.MockPaymentProvider.SumSpend` | apps/local-agent-bridge/src/paymentClient.ts:85-87 | settled plus pending spend of a task |
| `PaymentServices.MockPaymentProvider.BudgetOf` | apps/local-agent-bridge/src/paymentClient.ts:80-94 | budget and remaining amount of a known task |
| `PaymentServices.MockPaymentProvider.Pay` | apps/local-agent-bridge/src/paymentClient.ts:100-144 | refuses above the per-request cap or the remaining budget without any change, else books one pending row and issues its proof |
| `PaymentServices.MockPaymentProvider.SetStatus` | apps/local-agent-bridge/src/paymentClient.ts:133-142 | settle, cancel and refundFee change the status of one row only |
| `PaymentServices.MockPaymentProvider.Conclude` | apps/local-agent-bridge/src/paymentClient.ts:346-374 | a failed request, a refunded fee and a 402 give the credit back, anything else settles; the caller is told it paid exactly what was settled |
| `PaidRequests.GateWithProof` | apps/merchant-agents/src/payments.ts:61-87 | under a fresh key a paid request is answered 404 exactly for a missing or inactive shop, else runs the handler on its own payment or is refused with 402 |
| `PaidRequests.StepKeepsInv` | apps/local-agent-bridge/src/paymentClient.ts:316-374 | every step of bridge, merchant or network keeps the joint invariant of both ledgers |
| `PaidRequests.RunKeepsInv` | apps/merchant-agents/src/payments.ts:59-213 | the joint invariant holds over every interleaving of any number of calls with lost and late messages |
| `PaymentAgreement.SettledWasConsumed` | apps/local-agent-bridge/src/paymentClient.ts:358-366 | a settled payment was consumed exactly once, under its own key, in full and without fee refund, unless the shop was gone when the paid request arrived |
| `PaymentAgreement.SettledImpliesKept` | apps/merchant-agents/src/payments.ts:185-213 | with merchants that stay active, settled always means consumed once and kept |
| `PaymentAgreement.ReceivedCallsAgree` | apps/local-agent-bridge/src/paymentClient.ts:358-366 | for a call whose response came through, the bridge has settled if the merchant kept the payment and refunded if not |
| `PaymentAgreement.LosslessLedgersAgree` | apps/local-agent-bridge/src/paymentClient.ts:323-374 | with nothing lost the two ledgers agree payment by payment and in their sums |
| `PaymentAgreement.SettledSumAtMostEarned` | apps/local-agent-bridge/src/paymentClient.ts:323-374 | whatever is lost, the bridge never books more as settled than the merchants have earned |
| `PaymentAgreement.HandlerRunsOncePerPayment` | apps/merchant-agents/src/payments.ts:185-195 | handler runs and consumed payment ids are the same, one run each |
| `PaymentAgreement.FreshKeysNeverReplay` | apps/merchant-agents/src/payments.ts:76-87 | with fresh keys no call is answered by a replay or a conflict |
| `PaymentAgreement.RepeatIsAnsweredFromCache` | apps/merchant-agents/src/payments.ts:76-87 | a repeat under an answered key gets the cached status, or a conflict for another payload, with or without proof |
| `PaymentAgreement.LostResponseIsNotRefunded` | apps/local-agent-bridge/src/paymentClient.ts:346-356 | a concrete run in which a network failure credits the bridge although the merchant was paid |
| `PaymentAgreement.CancelledWasSeenExactly` | apps/local-agent-bridge/src/paymentClient.ts:353-356 | a payment cancelled after a network failure was consumed exactly when its request arrived, before or after the cancellation, at an active shop with the same wallet and secret within the age limit |
| `PaymentAgreement.SeenInRun` | apps/merchant-agents/src/payments.ts:172-193 | in any run a payment is consumed exactly by an admitted arrival of its own call |
| `PaymentAgreement.KeptWithinBudgetAndLost` | apps/local-agent-bridge/src/paymentClient.ts:346-366 | what merchants keep of a task is at most its budget plus the payments that were consumed and yet cancelled, all of them of calls whose response was lost |
| `PaymentAgreement.StepKeepsBudget` | apps/local-agent-bridge/src/paymentClient.ts:100-144 | every step keeps all tasks within their budgets and payments within the cap |
| `PaymentAgreement.BudgetIsHard` | apps/local-agent-bridge/src/paymentClient.ts:80-144 | under any interleaving of tasks and calls, non-refunded spend never exceeds the budget and no payment the per-request cap |
| `PaymentAgreement.ResearchWithinBudget` | apps/local-agent-bridge/src/orchestrator.ts:1245-1247 | the research total of a receipt is within the task budget |
| `GateRules.HandlerRunsExactly` | apps/merchant-agents/src/payments.ts:61-193 | for any request and any proof: the handler runs if and only if the shop is active, the key present and unanswered, and the proof's secret, amount, wallet, endpoint, key and age are those of this request and its id unspent |
| `GateRules.OtherAnswers` | apps/merchant-agents/src/payments.ts:61-184 | the answer in every other case: 404, 400, replay or conflict, the terms, or 402 |
| `GateRules.ProofFitsOneRequest` | apps/merchant-agents/src/payments.ts:172-184 | two requests that one proof pays for, at any two moments, are for the same endpoint of the same shop under the same key |
| `GateRules.ProofPaysOnce` | apps/merchant-agents/src/payments.ts:185-193 | once a payment has run a handler no later request runs one on it, whatever else has changed |
| `BudgetRules.PaysExactly` | apps/local-agent-bridge/src/paymentClient.ts:100-117 | a payment is issued if and only if the task is known, the amount within its cap, and the amount plus pending and settled spend within its budget; each refusal names its own reason |
| `BudgetRules.PayingBooks` | apps/local-agent-bridge/src/paymentClient.ts:119-144 | paying books one pending row and sends a proof of exactly the demanded amount, wallet, endpoint and key, and otherwise touches nothing |
| `BudgetRules.ClockRuns` | apps/merchant-agents/src/payments.ts:172-184 | the clock against which proofs age advances in any run by its ticks alone |
| `BudgetRules.CallMovesOn` | apps/local-agent-bridge/src/paymentClient.ts:316-374 | what each step of a call does to its two sides, and that no step changes what the call is for |
| `BudgetRules.CallsCanSucceed` | apps/local-agent-bridge/src/paymentClient.ts:316-374 | from any state in which the shop is open and the budget suffices a call can run to its end: paid in full, served once, answered and settled, with no other change in either ledger |
| `SessionWallet.Wallet.RecordSpend` | packages/db/src/repos/sessionWallet.ts:44-57 | adds to the counter, restarting the window first if it has elapsed; a frozen wallet throws |
| `SessionWallet.Wallet.Pay` | apps/local-agent-bridge/src/paymentClient.ts:227-276 | the limit check before the transfer and its bookkeeping after it; the transfer may fail, land at any moment in between, or land while the wallet is being frozen |
| `SessionWallet.PaysExactly` | apps/local-agent-bridge/src/paymentClient.ts:227-276 | a transfer goes out exactly when the wallet is not frozen, the amount fits what is left of the counter's day, and the chain takes it; and what is booked |
| `SessionWallet.FreezeStopsPayments` | packages/db/src/repos/sessionWallet.ts:44-57 | after a payment during which the wallet was frozen no further transfer goes out, whatever is asked |
| `SessionWallet.StepKeepsInv` | packages/db/src/repos/sessionWallet.ts:44-65 | one payment keeps the window invariant |
| `SessionWallet.DailyLimit` | apps/local-agent-bridge/src/paymentClient.ts:231-276 | spend since the last reset is at most the limit and spend landing in any half-open 24 hours at most twice the limit, at whatever moment between check and bookkeeping it lands |
| `SessionWallet.DailyLimitExactly` | packages/db/src/repos/sessionWallet.ts:44-65 | for any windows a run can have, the limit holds for a day in all such runs if and only if the day does not straddle the end of one window and the start of the next |
| `SessionWallet.TwiceTheLimitIsReached` | packages/db/src/repos/sessionWallet.ts:39-57 | for every limit two payments reach twice the limit within 24 hours: the window is fixed, not rolling |
| `StockServices.PostgresStock.ReserveInventoryAtomic` | packages/db/src/repos/merchant.ts:180-222 | reserves from available stock, or fails unchanged |
| `StockServices.PostgresStock.ReleaseHeldReservation` | packages/db/src/repos/merchant.ts:224-245 | gives a held reservation back once |
| `StockServices.PostgresStock.ReleaseExpiredReservations` | packages/db/src/repos/merchant.ts:248-257 | releases exactly the held reservations that have expired |
| `StockServices.PostgresStock.CommitLine` | packages/db/src/repos/merchant.ts:280-325 | consumes the first usable reservation or takes from available stock |
| `StockServices.PostgresStock.CommitStockForOrder` | packages/db/src/repos/merchant.ts:266-331 | all lines or none |
| `StockServices.PostgresStock.RestockAfterCancel` | packages/db/src/repos/merchant.ts:334-355 | puts every line back or none |
| `StockServices.PostgresStock.AdjustInventory` | packages/db/src/repos/merchantAdmin.ts:317-357 | changes physical and available together and logs it |
| `StockServices.SqliteMerchantStore.ReserveStock` | apps/merchant-agents/src/store.ts:86-101 | takes from the counter and holds, or fails unchanged |
| `StockServices.SqliteMerchantStore.CommitStockForOrder` | apps/merchant-agents/src/store.ts:103-127 | line by line, stopping at the first failure with the earlier lines kept |
| `StockServices.SqliteMerchantStore.Restock` | apps/merchant-agents/src/store.ts:129-133 | adds every line back |
| `StockServices.SqliteMerchantStore.ReleaseExpiredReservations` | apps/merchant-agents/src/store.ts:135-146 | returns expired holds to the counter |
| `StockInvariant.ApplyOk` | packages/db/src/repos/merchant.ts:180-355 | every operation keeps available = physical - reserved >= 0, reserved = sum of held reservations, and physical = initial plus logged physical movements |
| `StockInvariant.AdjustOk` | packages/db/src/repos/merchantAdmin.ts:317-357 | a manual adjustment violates a CHECK constraint exactly when it takes more than is available |
| `StockInvariant.ReachableStockOk` | packages/db/src/schema/market.ts:193-198 | the stock invariant holds in every reachable state, where only an adjustment can meet a CHECK constraint |
| `StockRefinement.CommitAgrees` | apps/merchant-agents/src/store.ts:103-127 | an order commits in SQLite exactly when it commits in Postgres, with the same error otherwise |
| `StockRefinement.OpAgrees` | apps/merchant-agents/src/store.ts:86-146 | from matching states every operation succeeds in both stores or fails in both, and success keeps the counter equal to the available quantity and the same reservations |
| `StockRefinement.StoresAgree` | packages/db/src/repos/merchant.ts:180-355 | the two stores agree over every run up to the first error |
| `StockRefinement.FailedOrderUnchangedExactly` | apps/merchant-agents/src/store.ts:103-127 | a failed SQLite order leaves the tables as they were if and only if its first line already fails |
| `StockRefinement.FailedOrderKeepsFirstLine` | apps/merchant-agents/src/store.ts:103-127 | a concrete failed order that keeps its first line |
| `StockInvariant.CountersAgree` | packages/db/src/schema/market.ts:193-198 | in every reachable state, product by product: available is physical less reserved, reserved is the sum of held reservations, none is negative, and physical is the opening stock with its movements |
| `StockLaws.ExpiryWorker` | packages/db/src/repos/merchant.ts:247-257 | in either store exactly the held reservations with expiresAt <= now end released, all others stay, and the free units of each product grow by exactly their quantities |
| `StockLaws.ReservationLasts` | apps/merchant-agents/src/store.ts:135-146 | a reservation is still held at every clock before its end, and from its end on the worker gives exactly its units back |
| `StockLaws.FirstUsableIsOldest` | apps/merchant-agents/src/store.ts:105-109 | the reservation an order line takes is held, for that product and not yet over, and no older one is |
| `StockLaws.LiteLineExactly` | apps/merchant-agents/src/store.ts:103-127 | an order line succeeds exactly when its oldest open reservation or the free stock is enough; the first gives its rest back, the second leaves every reservation |
| `StockLaws.ReservationServes` | apps/merchant-agents/src/store.ts:86-127 | an order placed in time on a reservation succeeds whatever is left in stock, and the free units end as if only the order had been placed |
| `Pricing.BuildQuoteItems` | apps/merchant-agents/src/quotes.ts:38-54 | catalog prices for all requested lines and their total, or the first line that cannot be quoted |
| `Pricing.MinTotalFor` | apps/merchant-agents/src/quotes.ts:149-157 | the minimum total, failing exactly for lines that are not stocked |
| `Pricing.SpreadDiscount` | apps/merchant-agents/src/quotes.ts:184-207 | fails exactly for lines that are not stocked, has no numeric result over a zero total, else returns the spread below |
| `Pricing.SpreadIsFair` | apps/merchant-agents/src/quotes.ts:184-207 | every unit price stays between its minimum and its old value, at most the clamped discount is given, and without a line at its minimum it falls short by strictly less than the number of units |
| `Pricing.SpreadRespectsMinimum` | apps/merchant-agents/src/quotes.ts:191-206 | whatever the prices and the amount asked, a spread ends with every line at or above its minimum |
| `Pricing.SpreadTotal` | apps/merchant-agents/src/quotes.ts:205-206 | the new total is the old sum of lines minus what the lines gave |
| `SpreadLaws.SpreadIsLeast` | apps/merchant-agents/src/quotes.ts:191-206 | for any prices and any amount asked each line ends at the least price that is not below its minimum and takes at most its proportional part |
| `SpreadLaws.SpreadIsTight` | apps/merchant-agents/src/quotes.ts:199-203 | so each line ends at its minimum or loses less than one unit of price to rounding |
| `SpreadLaws.ShortfallIsExplained` | apps/merchant-agents/src/quotes.ts:191-206 | the discount given falls short of the one to spread by less than the units of the lines above their minimum plus what the lines at their minimum could not give |
| `SpreadLaws.SpreadAddsUp` | apps/merchant-agents/src/quotes.ts:184-206 | there is no numeric result exactly for a total of zero over some lines; else total and discount are those of the lines |
| `PricingLaws.BaseItemsExactly` | apps/merchant-agents/src/quotes.ts:38-54 | every quoted line carries the list price; a request is refused exactly for its first line that is not stocked or exceeds the stock |
| `PricingLaws.RuleAsksMost` | apps/merchant-agents/src/campaignPricing.ts:63-71 | a rule asks for the greatest amount that neither its percentage or flat amount nor its maximum forbids |
| `PricingLaws.RuleSpreads` | apps/merchant-agents/src/campaignPricing.ts:63-79 | that amount is spread if the rule can be evaluated and asks for at least one unit, and kept if it lowers the total |
| `Campaigns.ApplyCampaignRules` | apps/merchant-agents/src/campaignPricing.ts:47-88 | the discounts of all steps add up to initial minus final total, and the listed campaigns are those that lowered it, up to an applied exclusive one |
| `Campaigns.ApplyOneCampaign` | apps/merchant-agents/src/campaignPricing.ts:63-79 | the rules of one campaign; it counts as applied exactly when the total went down |
| `Campaigns.EvaluableRules` | apps/merchant-agents/src/campaignPricing.ts:60-61 | keeps every rule that can be evaluated as often as it occurs, and no other |
| `Campaigns.UnevaluatedRulesDoNothing` | apps/merchant-agents/src/campaignPricing.ts:60-61 | filtering the rules first is the same as skipping them one by one |
| `Campaigns.ApplyAllConcat` | apps/merchant-agents/src/campaignPricing.ts:59-85 | two lists in a row are their concatenation, unless an exclusive campaign of the first has closed it |
| `Campaigns.NothingAfterExclusive` | apps/merchant-agents/src/campaignPricing.ts:81-84 | no campaign behind an applied exclusive one changes anything, whatever it is |
| `Campaigns.CampaignsKeepPrices` | apps/merchant-agents/src/campaignPricing.ts:47-88 | any list of campaigns keeps unit prices between minimum and base value and the total equal to the sum of lines |
| `Campaigns.CampaignsChangeOrStay` | apps/merchant-agents/src/campaignPricing.ts:72-78 | without assumptions on the prices, campaigns leave the basket as it was or lower it to one above every minimum |
| `Quoting.ApplyBoundedDiscount` | apps/merchant-agents/src/quotes.ts:218-230 | the applied bps are the request clamped between zero and the lower of the two caps, and the result is its spread |
| `Quoting.NegotiationTakesAtMost` | apps/merchant-agents/src/quotes.ts:226-229 | one negotiation step gives at most floor(total * bps / 10000) |
| `Quoting.CounterOffer` | apps/merchant-agents/src/quotes.ts:236-246 | concedes half of the request or of the cap, rounded down, and at most half of what the full cap would give |
| `PricingLaws.AppliedIsMost` | apps/merchant-agents/src/quotes.ts:226-227 | the bps applied are the greatest that the ceiling, the product ceiling and the request, if positive, allow |
| `Quoting.CapIsPerRound` | apps/merchant-agents/src/app.ts:448-500 | a merchant with a 10% ceiling has given more than 14% after three rounds on superseding quotes |
| `Negotiation.CapHoldsExactly` | apps/merchant-agents/src/quotes.ts:236-246 | the ceiling holds over n rounds for every basket if and only if the shares the rounds leave multiply to at least the share the ceiling leaves |
| `Negotiation.CapHoldsAtTotal` | apps/merchant-agents/src/quotes.ts:218-246 | at any given total the ceiling holds over n rounds for every basket if and only if it holds for that total alone, each round taking its whole floored share |
| `Negotiation.TwoRoundsStayWithin` | apps/merchant-agents/src/quotes.ts:236-246 | two rounds never exceed the ceiling |
| `Quoting.CreateQuote` | apps/merchant-agents/src/quotes.ts:80-82 | accepts exactly the stocked baskets at or above their minimum, and a total that is not a number |
| `Quoting.Quote` | apps/merchant-agents/src/app.ts:361-380 | base price, campaigns, proposal and guard; the guard fails exactly when the undiscounted basket is below its minimum and no proposal lifts it |
| `Quoting.PipelineGuard` | apps/merchant-agents/src/quotes.ts:80-82 | discounts never make the minimum guard fail |
| `Quoting.PipelineKeepsPrices` | apps/merchant-agents/src/app.ts:361-379 | the pipeline only lowers prices, never below a minimum, the negotiation takes at most the cap, and no numeric total results exactly when a proposal meets a zero total |
| `Quoting.BaseIsSound` | apps/merchant-agents/src/quotes.ts:38-54 | a catalog priced at or above its minimums gives a base basket above them |
| `Quoting.Negotiate` | apps/merchant-agents/src/app.ts:448-500 | the counter-offer is the spread of half the request or ceiling; it is accepted exactly when it saves at least the fee of the request, else refused with what it would save, and respects every minimum |
| `QuoteLife.QuoteTable.AssertUsable` | apps/merchant-agents/src/quotes.ts:141-147 | passes exactly for active quotes before their end |
| `QuoteLife.QuoteTable.Insert` | apps/merchant-agents/src/quotes.ts:96-105 | marks the superseded quote and adds the new one as active |
| `QuoteLife.QuoteTable.Consume` | apps/merchant-agents/src/app.ts:579-579 | marks one quote as consumed |
| `QuoteLife.QuoteTable.ExpireOverdue` | apps/merchant-agents/src/app.ts:905-909 | expires exactly the active quotes that are over |
| `QuoteLife.StepKeepsInv` | apps/merchant-agents/src/app.ts:537-600 | a step that does not overlap another request on the same quote keeps the invariant |
| `QuoteLife.OneOrderPerNegotiation` | apps/merchant-agents/src/quotes.ts:140-147 | while requests on a quote do not overlap every quote descends from a root and any two orders from different ones: a negotiation of any length ends in at most one order |
| `QuoteLife.CheckIsSafeExactly` | apps/merchant-agents/src/app.ts:546-579 | after a request has passed its check, a negotiation still ends in one order over all later runs without overlap if and only if no other request was at work on that quote |
| `QuoteLife.OverlapLeadsToTwo` | apps/merchant-agents/src/app.ts:448-579 | from any overlap, of two orders, two negotiations or one of each, a run without further overlap orders the quote or its successors twice |
| `QuoteLife.NegotiatedIsNotOrdered` | apps/merchant-agents/src/quotes.ts:141-142 | while requests on a quote do not overlap a superseded quote is never ordered |
| `QuoteLife.OrderOverlapsNegotiation` | apps/merchant-agents/src/app.ts:546-579 | an order that overlaps a negotiation of any usable quote: the quote and its successor are both ordered |
| `QuoteLife.NegotiationsOverlap` | apps/merchant-agents/src/app.ts:470-500 | two negotiations that overlap on any usable quote: both successors are ordered |
| `QuoteLife.OverlappingOrdersBothSucceed` | apps/merchant-agents/src/app.ts:546-579 | two overlapping order requests on any usable quote both succeed |
| `ShoppingOptions.CandidatesFor` | apps/local-agent-bridge/src/options.ts:27-34 | the offers for an item, in quote order |
| `ShoppingOptions.OffersAreTheSuppliers` | apps/local-agent-bridge/src/options.ts:26-34 | the offers are exactly the quotes that cover the planned quantity, each at its first line price |
| `ShoppingOptions.CheapestIsMinimal` | apps/local-agent-bridge/src/options.ts:107-113 | no assignment of the items to covering quotes costs less than the cheapest one |
| `ShoppingOptions.GroupByMerchant` | apps/local-agent-bridge/src/options.ts:37-41 | groups by slug in order of first appearance |
| `ShoppingOptions.BuildShops` | apps/local-agent-bridge/src/options.ts:36-63 | one shop per merchant with its lines and subtotal, essential shops first and then by distance |
| `ShoppingOptions.GroupingPreserves` | apps/local-agent-bridge/src/options.ts:36-63 | grouping keeps the total and the multiset of lines and makes one shop per merchant, sorted |
| `OptionLaws.CheapestChoice` | apps/local-agent-bridge/src/options.ts:107-113 | each item of the cheapest choice is at an offer that no supplier undercuts and that none at its price is nearer than |
| `OptionLaws.FinestChoice` | apps/local-agent-bridge/src/options.ts:115-122 | each item of the best-quality choice is at a merchant of the highest quality that supplies it, and none of that quality is cheaper |
| `OptionLaws.TiesGoToTheFirst` | apps/local-agent-bridge/src/options.ts:107-122 | among offers level in both respects the first in quote order is taken |
| `OptionLaws.ShopOrder` | apps/local-agent-bridge/src/options.ts:60-62 | essential shops stand before optional ones, and nearer before farther within each kind |
| `GreedyRoute.PickStop` | apps/local-agent-bridge/src/options.ts:131-145 | the stop that covers most open items, nearest on ties |
| `OptionLaws.NextStop` | apps/local-agent-bridge/src/options.ts:131-145 | no quote covers more open items than the stop picked, none that covers as many is nearer, and none at that distance stands before it |
| `GreedyRoute.PlanRoute` | apps/local-agent-bridge/src/options.ts:124-156 | the while loop terminates and computes the greedy route |
| `GreedyRoute.RouteSupplies` | apps/local-agent-bridge/src/options.ts:124-156 | the greedy route supplies every item exactly once, each from a quote that covers it |
| `GreedyRoute.GreedyWithinHarmonic` | apps/local-agent-bridge/src/options.ts:124-156 | greedy uses at most H(n) times the stops of any set of quotes covering all n items |
| `GreedyRoute.OneStopExactly` | apps/local-agent-bridge/src/options.ts:124-156 | greedy makes one stop exactly when one quote covers everything |
| `GreedyGap.GreedyMissesFewestStops` | apps/local-agent-bridge/src/options.ts:124-175 | for every number of items from four on, a plan and three quotes on which the greedy route visits all three although two cover the plan |
| `GreedyGap.FewestStopsExactly` | apps/local-agent-bridge/src/options.ts:124-175 | the greedy route has the fewest stops in every market if and only if at most three items are to be fulfilled |
| `BuildOptions.SplitItems` | apps/local-agent-bridge/src/options.ts:100-105 | splits the plan into items with and without offers |
| `OptionLaws.SplitExactly` | apps/local-agent-bridge/src/options.ts:100-106 | each item is bought or reported as unavailable, the latter exactly when no quote has enough of it on its first line for the article |
| `BuildOptions.ShownOptionsDiffer` | apps/local-agent-bridge/src/options.ts:178-188 | no two options shown agree in route and total, and one left out has the route of one shown |
| `BuildOptions.BuildOptions` | apps/local-agent-bridge/src/options.ts:97-188 | all options of a plan and the items nobody quoted |
| `BuildOptions.OptionIsComplete` | apps/local-agent-bridge/src/options.ts:65-85 | every option has exactly the fulfillable items with their quantities, and no plan is cheaper than the cheapest option |
| `BuildOptions.FirstOptionIsCheapest` | apps/local-agent-bridge/src/options.ts:180-188 | the first option is at most as expensive as each option shown |
| `BuildOptions.PickupStopsWithinHarmonic` | apps/local-agent-bridge/src/options.ts:171-177 | the stops of the pickup option are within H(n) of any covering set |
| `BuildOptions.PickupIsFewestExactly` | apps/local-agent-bridge/src/options.ts:170-178 | the pickup option as shown has the fewest stops in every market if and only if at most three items are to be fulfilled |
| `FundingSaga.PlaceOrder` | apps/merchant-agents/src/app.ts:556-580 | the whole quote, or the listed lines priced by the signed quote; refused if a line is missing, exceeds the quoted quantity, or the list is empty |
| `SagaLaws.OrderAcceptedExactly` | apps/merchant-agents/src/app.ts:556-573 | the merchant takes an order exactly when it asks for the whole quote, or lists at least one line and the quote's first line of each article has enough; and takes it at those prices, line by line |
| `SagaRunner.Orchestrator.HandleOrderEvent` | apps/local-agent-bridge/src/orchestrator.ts:1125-1158 | the event overwrites the state of that order and nothing else |
| `SagaRunner.Orchestrator.FundShop` | apps/local-agent-bridge/src/orchestrator.ts:970-1063 | one attempt with all its ways to fail, including a webhook that throws after the escrow is funded |
| `SagaRunner.Orchestrator.FindAlternativeShop` | apps/local-agent-bridge/src/orchestrator.ts:1066-1096 | the first usable quote of another merchant that covers the failed shop |
| `AlternativeRules.FindAlternativeExactly` | apps/local-agent-bridge/src/orchestrator.ts:1066-1096 | an alternative is found exactly when some quote is active, verified, of another merchant, in time, of a discovered peer and has each failed line in that quantity; it is made from the first such quote |
| `AlternativeRules.AlternativeIsAccepted` | apps/local-agent-bridge/src/orchestrator.ts:1078-1096 | its merchant accepts the alternative's order unchanged when its quote has one line per article |
| `AlternativeRules.FundedOnlyIfUsable` | apps/local-agent-bridge/src/orchestrator.ts:970-1010 | a row is added only for a discovered peer with a verified quote that has not ended, a valid signature and an accepted order of quoted lines |
| `AlternativeRules.FundingTerms` | apps/local-agent-bridge/src/orchestrator.ts:1011-1063 | an attempt succeeds exactly when the slug is not scripted to fail and the balance covers the total; the new escrow and the new row carry the peer, the priced total, the hashes and the deadline |
| `SagaRunner.Orchestrator.CancelTask` | apps/local-agent-bridge/src/orchestrator.ts:1099-1120 | tries to refund every row that is still open, in order |
| `SagaRunner.Orchestrator.ApprovePayment` | apps/local-agent-bridge/src/orchestrator.ts:560-616 | fund, alternative, drop or cancel, shop by shop |
| `SagaLaws.EndingsMean` | apps/local-agent-bridge/src/orchestrator.ts:560-616 | in progress: some row is open; failed: every row is cancelled or refunded; cancelled: the option has an essential shop; aborted: an order request got no answer |
| `SagaLaws.OnlyOptionalIsDropped` | apps/local-agent-bridge/src/orchestrator.ts:585-599 | only optional shops of the option are dropped |
| `SagaRunner.Orchestrator.UserRelease` | apps/local-agent-bridge/src/orchestrator.ts:1281-1302 | completes the order exactly when the chain releases its escrow |
| `SagaRunner.Orchestrator.MainTotalIfClosed` | apps/local-agent-bridge/src/orchestrator.ts:1160-1168 | a receipt total exists exactly when all rows are closed, and sums the completed ones |
| `SagaLaws.ReceiptSumsCompleted` | apps/local-agent-bridge/src/orchestrator.ts:1160-1168 | the sum behind a receipt is that of the completed rows |
| `SagaAccounting.AlternativeIsSameLines` | apps/local-agent-bridge/src/orchestrator.ts:1066-1096 | an alternative has the same articles and quantities at another merchant and is as essential |
| `SagaLaws.CancelRowExactly` | apps/local-agent-bridge/src/orchestrator.ts:1099-1120 | cancelling refunds a row exactly when it is paid, in preparation or ready and its escrow is funded, or unsettled past its deadline; the amount returns to the wallet |
| `SagaAccounting.MoneyIsConserved` | apps/local-agent-bridge/src/orchestrator.ts:970-1120 | however the saga ends and whatever happens meanwhile, wallet balance plus unrefunded escrows is unchanged and each row is backed by an escrow of its total |
| `SagaAccounting.InProgressAccountsForAll` | apps/local-agent-bridge/src/orchestrator.ts:560-616 | in_progress is reached only with every item, with its quantity, in one announced order or one dropped shop, none of them essential |
| `SagaAccounting.ExactlyOnceIffAnnounced` | apps/local-agent-bridge/src/orchestrator.ts:1006-1063 | every item is in exactly one funded order or dropped shop if and only if no escrow-funded call threw |
| `SagaCharges.LostWebhookBuysTwice` | apps/local-agent-bridge/src/orchestrator.ts:1032-1063 | one lost webhook call: one unit planned, two paid |
| `SagaCharges.ShownIsCharged` | apps/local-agent-bridge/src/orchestrator.ts:1011-1033 | each escrow holds exactly the sum of its row at the prices shown |
| `SagaCharges.OptionShopIsPriced` | apps/local-agent-bridge/src/options.ts:36-63 | every shop of every option built from one quote per merchant is priced by its quote, and the merchant accepts it at its subtotal |
| `SagaCharges.ApprovedOptionIsCharged` | apps/local-agent-bridge/src/orchestrator.ts:560-616 | so whichever option is approved, each escrow holds the sum of its lines at the prices shown |
| `SagaRefunds.CancelRefundsExactly` | apps/local-agent-bridge/src/orchestrator.ts:1099-1120 | cancelling an approved task, whatever has happened since, refunds each escrow exactly when its row is open and it is Funded or past the deadline, and leaves the others as they are |
| `SagaRefunds.CancelledSagaRefundsExactly` | apps/local-agent-bridge/src/orchestrator.ts:593-599 | the same for the cancellation by the saga itself |
| `SagaRefunds.PreparingStaysInEscrow` | apps/local-agent-bridge/src/orchestrator.ts:1099-1120 | a saga that ends cancelled with an order in preparation and its money in escrow |
| `SagaSettlement.FundShopIsSettlement` | apps/local-agent-bridge/src/orchestrator.ts:970-1063 | each attempt to fund a shop is a run of the settlement protocol on the task's rows |
| `SagaSettlement.CancelIsSettlement` | apps/local-agent-bridge/src/orchestrator.ts:1099-1120 | cancelling a task is a run of single cancellations of the settlement protocol |
| `Orders.OrderBook.CreateOrder` | apps/merchant-agents/src/orders.ts:32-64 | a new order awaits funding with its five states logged |
| `Orders.OrderBook.TransitionOrder` | apps/merchant-agents/src/orders.ts:71-81 | moves and logs a legal transition, refuses any other without a change |
| `Orders.OrderBook.EscrowFunded` | apps/merchant-agents/src/app.ts:609-626 | stores the escrow id and moves an order that awaits funding; the id stays stored when the transition throws |
| `OrderDesk.Counter.Order` | apps/merchant-agents/src/app.ts:556-592 | picks the lines, commits their stock and writes the order; a line out of stock refuses it and keeps what earlier lines took |
| `OrderDesk.Counter.Cancel` | apps/merchant-agents/src/app.ts:655-663 | an order awaiting funding gives its lines back to the stock and is cancelled; any other changes nothing |
| `OrderDesk.CancelUndoesOrder` | apps/merchant-agents/src/app.ts:574-663 | an order and its cancellation leave every product with as many units, free and reserved together |
| `Orders.OrderBook.EscrowReleased` | apps/merchant-agents/src/app.ts:668-678 | completes an order from paid, preparing, ready or disputed through the states between |
| `Orders.CreatedIsOk` | apps/merchant-agents/src/orders.ts:45-53 | the log of a new order is a legal path from quoted to awaiting funding |
| `Orders.HandlersKeepLog` | apps/merchant-agents/src/orders.ts:70-81 | every handler keeps the log a legal path and only appends to it |
| `OrderLaws.TransitionExactly` | packages/shared/src/schemas.ts:184-209 | a transition goes through exactly from the states its target is entered from, and changes nothing but the state and the end of the log |
| `OrderLaws.WebhooksExactly` | apps/merchant-agents/src/app.ts:609-678 | what each webhook adds to the log from each state: payment and cancellation only while the order awaits funding, a release every state up to completed |
| `Orders.LogIsBounded` | packages/shared/src/schemas.ts:184-199 | the transition table has no cycle and a log at most ten entries |
| `Orders.NoStateTwice` | packages/shared/src/schemas.ts:184-199 | no order enters a state twice |
| `Orders.NothingHappensBeforePayment` | packages/shared/src/schemas.ts:184-203 | no order gets beyond awaiting funding without having been paid into escrow |
| `Orders.FinalStatesStay` | packages/shared/src/schemas.ts:193-197 | no handler changes the state of a closed order |
| `MerchantDesk.Desk.TakePayment` | apps/merchant-agents/src/app.ts:609-624 | a funded escrow announced to the merchant pays order and escrow together, and a failed funding touches neither; the desk stays in lockstep |
| `MerchantDesk.Desk.AutoPrepare` | apps/merchant-agents/src/app.ts:207-225 | order and escrow enter preparation together |
| `MerchantDesk.Desk.MarkReady` | apps/merchant-agents/src/app.ts:811-823 | order and escrow become ready together |
| `MerchantDesk.Desk.VerifyPickup` | apps/merchant-agents/src/app.ts:844-871 | exactly the right code for a preparing or ready order completes it with its escrow released; otherwise nothing changes |
| `MerchantDesk.Desk.RefundOverdue` | apps/merchant-agents/src/app.ts:918-942 | refunds exactly the overdue paid and preparing orders together with their escrows |
| `MerchantDesk.LockstepMeans` | apps/merchant-agents/src/app.ts:207-225 | at the desk an order is paid, preparing, ready, completed or refunded exactly when its escrow is funded, preparing, ready, released or refunded, under the same code and deadline |
| `Settlement.StepKeepsInv` | apps/local-agent-bridge/src/orchestrator.ts:1099-1168 | every step of bridge, merchant, chain or message delivery keeps the settlement invariant |
| `Settlement.RunKeepsInv` | apps/merchant-agents/src/app.ts:609-678 | the settlement invariant holds over every run with lost, late, reordered and repeated messages |
| `Settlement.ClosedOrdersAreTrue` | apps/merchant-agents/src/app.ts:668-678 | an order completed at the merchant or the bridge has a Released escrow, a refunded one a Refunded escrow |
| `Settlement.NeverCompletedAndRefunded` | apps/local-agent-bridge/src/orchestrator.ts:1125-1160 | bridge and merchant never close the same order in opposite ways |
| `Settlement.SettledTotalIsReleased` | apps/local-agent-bridge/src/orchestrator.ts:1202-1248 | the main total of a settled task is the sum of its Released escrows, and stays so |
| `Settlement.OnlyLateEventsReopen` | apps/local-agent-bridge/src/orchestrator.ts:1125-1150 | a closed row is reopened exactly by a late preparing or ready notification, its escrow staying settled |
| `SettlementLaws.OrdersHaveACause` | apps/merchant-agents/src/app.ts:609-678 | an order at the merchant is placed awaiting funding and afterwards moves only by a message that was sent, from a state it may follow |
| `SettlementLaws.RowsHaveACause` | apps/local-agent-bridge/src/orchestrator.ts:1011-1158 | a row of the bridge appears only for an order of a saga at work whose total left the wallet, and afterwards takes only a state that a sent event names or that the bridge has just brought about on chain |
| `SettlementLaws.MessagesHaveACause` | apps/merchant-agents/src/app.ts:811-871 | each message is sent by the step that makes its content true |
| `SettlementLaws.TasksHaveACause` | apps/local-agent-bridge/src/orchestrator.ts:1160-1250 | who sets each task status: settled only by a stored receipt, which is made only in progress, with every row closed, over the completed rows |
| `SettlementLaws.TasksCanSettle` | apps/local-agent-bridge/src/orchestrator.ts:1160-1250 | from any state, a new task whose order the wallet can pay has a run that hands it over and settles at its total, and one that refunds it past its deadline, restores the wallet and settles at zero |
| `IdlCodec.RoundTrip` | packages/shared/src/solana/idlCodec.ts:129-213 | decoding the encoding of a well-typed value followed by any suffix gives back value and suffix, for every type of a ranked IDL |
| `IdlRanking.RankedExactlyWhenAcyclic` | packages/shared/src/solana/idlCodec.ts:129-213 | an IDL can be ranked if and only if no definition leads back to itself |
| `IdlCodec.FieldsRoundTrip` | packages/shared/src/solana/idlCodec.ts:165-167 | the same for the fields of a struct in declaration order |
| `IdlCodec.EncodingIsPrefixFree` | packages/shared/src/solana/idlCodec.ts:129-170 | no encoding of a type is a proper prefix of another |
| `IdlCodec.EncodeInstructionData` | packages/shared/src/solana/idlCodec.ts:216-226 | fills a fresh buffer with discriminator and encoded arguments |
| `IdlCodec.InstructionRoundTrip` | packages/shared/src/solana/idlCodec.ts:216-226 | the arguments decode back from behind the discriminator, leaving nothing |
| `IdlCodec.DecodeAccountData` | packages/shared/src/solana/idlCodec.ts:229-245 | compares the discriminator byte by byte, then decodes a struct |
| `IdlCodec.AccountRoundTrip` | packages/shared/src/solana/idlCodec.ts:229-245 | discriminator, encoded struct and reserved space decode to the struct |
| `CodecLaws.WireFormat` | packages/shared/src/solana/idlCodec.ts:129-213 | the bytes of each primitive: little-endian integers of their width with two's complement, one-byte booleans, length-prefixed texts, 32-byte addresses, byte arrays cut or filled to their length |
| `CodecLaws.AccountDecodesExactly` | packages/shared/src/solana/idlCodec.ts:228-245 | account data decodes exactly when it starts with the account's own discriminator and the rest decodes as its struct |
| `CodecLaws.OtherDiscriminatorIsRefused` | packages/shared/src/solana/idlCodec.ts:235-240 | data that is too short or differs from the discriminator in any byte is refused as a mismatch, and nothing else is |
| `UsdcLaws.ParsesExactly` | packages/shared/src/usdc.ts:9-18 | a string parses to an amount if and only if, up to ECMAScript white space around it, it is digits or digits, a point and one to six digits of that value within the safe integers; larger ones are out of range and every other string is invalid |
| `Usdc.PrintThenParse` | packages/shared/src/usdc.ts:9-28 | every safe amount prints in canonical form and parses back to itself |
| `Usdc.ParseThenPrint` | packages/shared/src/usdc.ts:9-28 | a canonical string is what its value prints as |
| `Usdc.PrintingCanonicalises` | packages/shared/src/usdc.ts:9-28 | printing a parsed valid string gives its canonical form, with two to six decimals and the same amount |

## Left out

- HTTP routing, server-sent events, web pages, SQL text, Redis, RPC polling, configuration and seeding. Each SQL transaction and each stretch of JavaScript without an await is one atomic step; clocks, fresh ids and the answers of other parties are parameters.
- Cryptography. Signatures, HMACs and hashes are compared as values; a proof is valid exactly when made with the merchant's secret, payload hashes are injective, and pickup codes are represented by their digests.
- The language model behind discounts is an arbitrary bps value or a failure; the in-memory rate limit is one of the reasons for a failure.
- Floating point. The divisions of a discount share are exact with the final floor; distances are natural numbers, and the average quality shown with an option is not computed. Numbers beyond 2^53 are not modelled except in the USDC parser and printer.
- A spread over a zero total with at least one line divides zero by zero; its result is None, and a quote total that is not a number passes the guard as in the code.
- Vault deposits from outside the program, rent and address derivation: vault tokens move only through the instructions.
- That a release goes to the order's own merchant: the program does not compare the merchant id, so the payee is the registered wallet passed in.
- The SolanaPaymentProvider apart from its wallet limit: its payment and merchant counts and concurrent calls.
- A wallet transfer that throws is taken not to have landed; one that lands although its confirmation fails is not modelled.
- PaymentGate.Check: models the mock proof only; the checks of a transaction proof read the chain.
- MakeOption: the average quality and the texts of an option are not produced, as they do not enter any choice.
- Idempotency keys are fresh for every call, as the bridge draws them; a caller that shares one key between overlapping calls is not modelled.
- The Postgres acceptance flow of the saga, its alternating alternatives, and the unchecked state updates of Postgres orders.
- Several warehouses per product and inactive products; duplicate articles in plans and duplicate quotes of a merchant are excluded where a result needs it. Reservations are taken in order of creation.
- One inventory snapshot serves a whole quote request; stock that changes between its awaits is not modelled.
- Settlement of tasks is modelled on values: the merchant's and the bridge's handlers are methods of `Orders.OrderBook`, `MerchantDesk.Desk` and `SagaRunner.Orchestrator`, and the protocol between them interleaves the same steps as functions; SagaSettlement shows that the saga's fundings and cancellations are runs of it.
- A state checked before an awaited chain call may be stale, so the settlement protocol requires no order state for such calls and so allows more runs than the code.
- Receipts on the chain, the merchant directory, feedback, sessions, nonces and quote ids.
- The library codecs under the IDL codec are taken by their wire format, texts and addresses by their bytes; conversions to and from UTF-8 and base58 are not modelled, so neither is that the text decoder drops zero characters. IDLs with cyclic definitions, on which the codec recurses without end, are excluded.
- StoresAgree: after the first failed order the two stores may differ, as FailedOrderKeepsFirstLine shows, so runs are compared up to the first error.
- Liveness under lost notifications: a task whose last notification is lost, or whose row a late one reopens, never settles; only OnlyLateEventsReopen is stated about it.
