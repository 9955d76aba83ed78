/** MockChainProvider: the escrow chain simulated inside the bridge's own database. */
module MockChain {
  import opened Results
  import opened Sums
  import opened Catalog
  import opened EscrowProgram

  /** One row of chain_escrows; its id is its position plus one (the table autoincrements and never deletes). */
  datatype Escrow = Escrow(
    merchantId: U64, merchantSlug: Slug, buyer: Address, amount: nat, quoteHash: Digest, pickupCodeHash: Digest,
    fundedAt: int, releaseDeadline: int, state: OrderState)

  datatype Chain = Chain(balance: nat, escrows: seq<Escrow>) {
    predicate Has(id: int) {
      1 <= id <= |escrows|
    }

    function Get(id: int): Escrow
      requires Has(id)
    {
      escrows[id - 1]
    }

    function Put(id: int, e: Escrow): Chain
      requires Has(id)
    {
      this.(escrows := escrows[id - 1 := e])
    }
  }

  datatype FundParams = FundParams(
    merchantId: U64, merchantSlug: Slug, buyer: Address, amount: nat, quoteHash: Digest, pickupCodeHash: Digest, releaseDeadline: int)

  datatype Op =
    | Fund(params: FundParams)
    | MarkPreparing(id: int)
    | MarkReady(id: int)
    | ConfirmPickup(id: int, codeHash: Digest)
    | Refund(id: int)
    | UserRelease(id: int)

  datatype MockError = ScriptedFailure | ExceedsBalance | NotFound | InvalidState | CodeMismatch | AlreadySettled | TooEarly

  const INITIAL_WALLET_MICRO: nat := 25_000_000

  /** One call at clock `now`; `failSlugs` are the shops whose funding is scripted to revert. */
  function MockStep(c: Chain, failSlugs: set<Slug>, now: int, op: Op): Result<Chain, MockError> {
    match op
    case Fund(p) =>
      :- Need(p.merchantSlug !in failSlugs, ScriptedFailure);
      :- Need(p.amount <= c.balance, ExceedsBalance);
      var row := Escrow(p.merchantId, p.merchantSlug, p.buyer, p.amount, p.quoteHash, p.pickupCodeHash, now, p.releaseDeadline, Funded);
      Success(Chain(c.balance - p.amount, c.escrows + [row]))
    case MarkPreparing(id) =>
      :- Need(c.Has(id), NotFound);
      :- Need(c.Get(id).state.Funded?, InvalidState);
      Success(c.Put(id, c.Get(id).(state := Preparing)))
    case MarkReady(id) =>
      :- Need(c.Has(id), NotFound);
      :- Need(c.Get(id).state.Preparing?, InvalidState);
      Success(c.Put(id, c.Get(id).(state := Ready)))
    case ConfirmPickup(id, codeHash) =>
      :- Need(c.Has(id), NotFound);
      :- Need(c.Get(id).state.Ready? || c.Get(id).state.Preparing?, InvalidState);
      :- Need(codeHash == c.Get(id).pickupCodeHash, CodeMismatch);
      Success(c.Put(id, c.Get(id).(state := Released)))
    case Refund(id) =>
      :- Need(c.Has(id), NotFound);
      :- Need(!c.Get(id).state.Settled(), AlreadySettled);
      :- Need(c.Get(id).state.Funded? || now >= c.Get(id).releaseDeadline, TooEarly);
      Success(c.Put(id, c.Get(id).(state := Refunded)).(balance := c.balance + c.Get(id).amount))
    case UserRelease(id) =>
      :- Need(c.Has(id), NotFound);
      :- Need(!c.Get(id).state.Settled(), AlreadySettled);
      Success(c.Put(id, c.Get(id).(state := Released)))
  }

  /** What a call leaves behind; a throwing call has changed nothing. */
  function MockExecute(c: Chain, failSlugs: set<Slug>, now: int, op: Op): Chain {
    match MockStep(c, failSlugs, now, op)
    case Success(after) => after
    case Failure(_) => c
  }

  // ---------------------------------------------------------------- money

  function Unrefunded(): Escrow -> int {
    (e: Escrow) => if e.state.Refunded? then 0 else e.amount
  }

  /** Wallet balance plus every escrow amount that has not come back. */
  function Worth(c: Chain): int {
    c.balance + SumBy(c.escrows, Unrefunded())
  }

  /** No call changes it, whoever calls and whenever: money leaves the wallet only into an
      escrow and comes back exactly once. */
  lemma WorthIsConstant(c: Chain, failSlugs: set<Slug>, now: int, op: Op)
    ensures Worth(MockExecute(c, failSlugs, now, op)) == Worth(c)
  {
    var after := MockExecute(c, failSlugs, now, op);
    if MockStep(c, failSlugs, now, op).Success? {
      if op.Fund? {
        SumByAppend(c.escrows, after.escrows[|c.escrows|], Unrefunded());
      } else {
        SumByUpdate(c.escrows, op.id - 1, after.escrows[op.id - 1], Unrefunded());
      }
    }
  }

  /** A settled escrow row never changes again, and rows never disappear or change their terms. */
  lemma MockSettledIsFinal(c: Chain, failSlugs: set<Slug>, now: int, op: Op, id: int)
    requires c.Has(id)
    ensures var after := MockExecute(c, failSlugs, now, op);
            && after.Has(id)
            && after.Get(id) == c.Get(id).(state := after.Get(id).state)
            && (c.Get(id).state.Settled() ==> after.Get(id) == c.Get(id))
  {
  }

  // ---------------------------------------------------------------- the provider

  class MockChainProvider {
    const failSlugs: set<Slug>
    const wallet: Address
    var balance: nat
    var escrows: seq<Escrow>

    constructor (failSlugs: set<Slug>, wallet: Address)
      ensures View() == Chain(INITIAL_WALLET_MICRO, []) && this.failSlugs == failSlugs && this.wallet == wallet
    {
      this.failSlugs := failSlugs;
      this.wallet := wallet;
      balance, escrows := INITIAL_WALLET_MICRO, [];
    }

    function View(): Chain
      reads this
    {
      Chain(balance, escrows)
    }

    /** The outcome and rows after a call are those of `MockStep`. */
    ghost predicate Agrees(before: Chain, now: int, op: Op, r: Results.Outcome<MockError>)
      reads this
    {
      match MockStep(before, failSlugs, now, op)
      case Success(after) => r.Pass? && View() == after
      case Failure(e) => r == Fail(e) && View() == before
    }

    method Debit(amount: nat) returns (r: Results.Outcome<MockError>)
      modifies this`balance
      ensures r.Pass? <==> amount <= old(balance)
      ensures r.Fail? ==> r.error == ExceedsBalance
      ensures balance == if r.Pass? then old(balance) - amount else old(balance)
    {
      if balance < amount { return Fail(ExceedsBalance); }
      balance := balance - amount;
      return Pass;
    }

    method SetState(id: int, state: OrderState)
      requires View().Has(id)
      modifies this`escrows
      ensures View() == old(View()).Put(id, old(View()).Get(id).(state := state))
    {
      escrows := escrows[id - 1 := escrows[id - 1].(state := state)];
    }

    method Fund(p: FundParams, now: int) returns (r: Results.Outcome<MockError>, escrowOrderId: int)
      modifies this
      ensures Agrees(old(View()), now, Op.Fund(p), r)
      ensures r.Pass? ==> escrowOrderId == |escrows| && View().Has(escrowOrderId) && View().Get(escrowOrderId).amount == p.amount
    {
      escrowOrderId := 0;
      if p.merchantSlug in failSlugs { return Fail(ScriptedFailure), 0; }
      r := Debit(p.amount);
      if r.Fail? { return; }
      escrows := escrows + [Escrow(p.merchantId, p.merchantSlug, p.buyer, p.amount, p.quoteHash, p.pickupCodeHash, now, p.releaseDeadline, Funded)];
      escrowOrderId := |escrows|;
    }

    method MarkPreparing(id: int, now: int) returns (r: Results.Outcome<MockError>)
      modifies this
      ensures Agrees(old(View()), now, Op.MarkPreparing(id), r)
    {
      if !View().Has(id) { return Fail(NotFound); }
      if !View().Get(id).state.Funded? { return Fail(InvalidState); }
      SetState(id, Preparing);
      return Pass;
    }

    method MarkReady(id: int, now: int) returns (r: Results.Outcome<MockError>)
      modifies this
      ensures Agrees(old(View()), now, Op.MarkReady(id), r)
    {
      if !View().Has(id) { return Fail(NotFound); }
      if !View().Get(id).state.Preparing? { return Fail(InvalidState); }
      SetState(id, Ready);
      return Pass;
    }

    method ConfirmPickup(id: int, codeHash: Digest, now: int) returns (r: Results.Outcome<MockError>)
      modifies this
      ensures Agrees(old(View()), now, Op.ConfirmPickup(id, codeHash), r)
    {
      if !View().Has(id) { return Fail(NotFound); }
      var escrow := View().Get(id);
      if !escrow.state.Ready? && !escrow.state.Preparing? { return Fail(InvalidState); }
      if codeHash != escrow.pickupCodeHash { return Fail(CodeMismatch); }
      SetState(id, Released);
      return Pass;
    }

    method Refund(id: int, now: int) returns (r: Results.Outcome<MockError>)
      modifies this
      ensures Agrees(old(View()), now, Op.Refund(id), r)
    {
      if !View().Has(id) { return Fail(NotFound); }
      var escrow := View().Get(id);
      if escrow.state.Settled() { return Fail(AlreadySettled); }
      if !escrow.state.Funded? && now < escrow.releaseDeadline { return Fail(TooEarly); }
      balance := balance + escrow.amount;
      SetState(id, Refunded);
      return Pass;
    }

    method UserRelease(id: int, now: int) returns (r: Results.Outcome<MockError>)
      modifies this
      ensures Agrees(old(View()), now, Op.UserRelease(id), r)
    {
      if !View().Has(id) { return Fail(NotFound); }
      if View().Get(id).state.Settled() { return Fail(AlreadySettled); }
      SetState(id, Released);
      return Pass;
    }
  }
}
