/** The two ends of the handshake as objects over their tables. Each method is proved to do what the
    corresponding function of module PaidRequests says. */
module PaymentServices {
  import opened Results
  import opened Sums
  import opened Catalog
  import opened PaidRequests

  /** The merchant's payment gate with its payments_seen and idempotency tables. */
  class PaymentGate {
    var accounts: map<Slug, Account>
    var seen: map<PaymentId, Seen>
    var cache: map<Key, Cached>
    const secret: nat

    constructor (accounts: map<Slug, Account>, secret: nat)
      ensures View() == Shop(accounts, map[], map[], secret)
    {
      this.accounts := accounts;
      this.secret := secret;
      seen, cache := map[], map[];
    }

    function View(): Shop
      reads this
    {
      Shop(accounts, seen, cache, secret)
    }

    /** Everything the gate does before the handler: exactly a request that passes every check leaves a
        trace, the row that makes its payment unusable from then on. */
    method Check(now: int, r: Request) returns (v: Verdict)
      modifies this`seen
      ensures v == Gate(old(View()), now, r)
      ensures v.RunHandler? ==> r.key.Some? && v.paymentId !in old(seen) && View() == Consume(old(View()), v.paymentId, r.key.value, r.path)
      ensures !v.RunHandler? ==> View() == old(View())
    {
      if r.path.slug !in accounts || !accounts[r.path.slug].active { return Plain(404); }
      var merchant := accounts[r.path.slug];
      if r.key.None? { return Plain(400); }
      var key := r.key.value;
      if key in cache {
        if cache[key].payload != r.payload { return Plain(409); }
        return Reply(Response(cache[key].status, false, true));
      }
      var amount := Price(r.path.endpoint);
      if r.proof.None? { return Challenge(Requirements(amount, merchant.wallet, r.path, key)); }
      var proof := r.proof.value;
      if proof.secret != secret { return Plain(402); }
      if proof.amount != amount || proof.payTo != merchant.wallet { return Plain(402); }
      if proof.path != r.path || proof.key != key { return Plain(402); }
      if Age(now, proof.issuedAt) > PROOF_MAX_AGE { return Plain(402); }
      if proof.paymentId in seen { return Plain(402); }
      seen := seen[proof.paymentId := Seen(key, amount, false)];
      v := RunHandler(proof.paymentId);
    }

    method MarkFeeRefunded(pid: PaymentId)
      modifies this`seen
      ensures seen.Keys == old(seen).Keys
      ensures forall p :: p in seen ==> seen[p] == if p == pid then old(seen)[p].(refunded := true) else old(seen)[p]
    {
      if pid in seen {
        seen := seen[pid := seen[pid].(refunded := true)];
      }
    }

    /** From the end of the handler on: the refund mark it may have asked for, then the cached answer. */
    method Respond(pid: PaymentId, key: Key, payload: Payload, status: int, refunded: bool) returns (r: Response)
      modifies this`seen, this`cache
      ensures View() == Finish(old(View()), pid, key, payload, status, refunded)
      ensures r == Response(status, refunded, false)
    {
      if refunded {
        MarkFeeRefunded(pid);
      }
      if key !in cache {
        cache := cache[key := Cached(payload, status)];
      }
      r := Response(status, refunded, false);
    }
  }

  datatype Snapshot = Snapshot(total: nat, perRequest: nat, spent: int, remaining: int)

  /** The mock provider with its spend table; enforces the budget before a payment is issued. */
  class MockPaymentProvider {
    var budgets: map<TaskId, Budget>
    var spend: map<PaymentId, Spend>
    const secret: nat

    constructor (budgets: map<TaskId, Budget>, secret: nat)
      ensures this.budgets == budgets && this.secret == secret && spend == map[]
    {
      this.budgets := budgets;
      this.secret := secret;
      spend := map[];
    }

    method SumSpend(task: TaskId) returns (total: int)
      ensures total == Spent(spend, task)
    {
      total := 0;
      var left := spend;
      while left != map[]
        invariant total + Spent(left, task) == Spent(spend, task)
        decreases |left|
      {
        var p :| p in left;
        MapSumRemove(left, p, Counted(task));
        if left[p].task == task && left[p].status != Refunded {
          total := total + left[p].amount;
        }
        left := left - {p};
      }
    }

    method BudgetOf(task: TaskId) returns (r: Option<Snapshot>)
      ensures r.Some? <==> task in budgets
      ensures r.Some? ==> r.value == Snapshot(budgets[task].total, budgets[task].perRequest, Spent(spend, task),
                                              budgets[task].total - Spent(spend, task))
    {
      if task !in budgets { return None; }
      var spent := SumSpend(task);
      r := Some(Snapshot(budgets[task].total, budgets[task].perRequest, spent, budgets[task].total - spent));
    }

    /** Books a pending row and signs its proof, or reports why the budget forbids it. */
    method Pay(task: TaskId, q: Requirements, slug: Slug, pid: PaymentId, now: int) returns (r: Result<Proof, BudgetError>)
      requires pid !in spend
      modifies this`spend
      ensures var check := PayCheck(budgets, old(spend), task, q.amount);
              match check
              case Fail(e) => r == Failure(e) && spend == old(spend)
              case Pass => r == Success(Proof(pid, q.amount, q.payTo, q.path, q.key, now, secret))
                           && spend == old(spend)[pid := Spend(task, q.amount, slug, Pending, q.key)]
    {
      var b := BudgetOf(task);
      if b.None? { return Failure(UnknownTask); }
      if q.amount > b.value.perRequest { return Failure(PerRequest); }
      if q.amount > b.value.remaining { return Failure(Total); }
      spend := spend[pid := Spend(task, q.amount, slug, Pending, q.key)];
      r := Success(Proof(pid, q.amount, q.payTo, q.path, q.key, now, secret));
    }

    method SetStatus(pid: PaymentId, status: SpendStatus)
      modifies this`spend
      ensures spend == if pid in old(spend) then old(spend)[pid := old(spend)[pid].(status := status)] else old(spend)
    {
      if pid in spend {
        spend := spend[pid := spend[pid].(status := status)];
      }
    }

    /** The end of paidFetch; None stands for a failed request. Also what the caller is told it paid. */
    method Conclude(pid: PaymentId, amount: nat, second: Option<Response>) returns (paid: Option<nat>)
      requires pid in spend
      modifies this`spend
      ensures var status := if second.Some? then Decide(second.value) else Refunded;
              spend == old(spend)[pid := old(spend)[pid].(status := status)]
      ensures paid.Some? <==> second.Some?
      ensures paid.Some? ==> paid.value == if spend[pid].status == Settled then amount else 0
    {
      if second.None? {
        SetStatus(pid, Refunded);
        return None;
      }
      var response := second.value;
      if response.feeRefunded {
        SetStatus(pid, Refunded);
      } else if response.status == 402 {
        SetStatus(pid, Refunded);
      } else {
        SetStatus(pid, Settled);
      }
      paid := Some(if response.feeRefunded || response.status == 402 then 0 else amount);
    }
  }
}
