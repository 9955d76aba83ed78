/** What the payment gate says to an arbitrary request with an arbitrary proof, and what one proof is good for. */
module GateRules {
  import opened Results
  import opened Catalog
  import opened PaidRequests

  ghost predicate Open(s: Shop, r: Request) {
    && r.path.slug in s.accounts && s.accounts[r.path.slug].active
    && r.key.Some? && r.key.value !in s.cache
  }

  /** A proof made by the merchant's secret for this endpoint, in full, to this wallet, for this call, within
      ten minutes of now, and not yet spent. */
  ghost predicate Pays(s: Shop, now: int, r: Request, p: Proof)
    requires Open(s, r)
  {
    && p.secret == s.secret && p.paymentId !in s.seen
    && p.path.slug == r.path.slug && p.path.endpoint == r.path.endpoint && p.key == r.key.value
    && p.amount == Price(r.path.endpoint) && p.payTo == s.accounts[r.path.slug].wallet
    && -600 <= now - p.issuedAt <= 600
  }

  /** The handler runs if and only if an open request carries a proof that pays for it, and on that proof's
      payment. */
  lemma HandlerRunsExactly(s: Shop, now: int, r: Request, pid: PaymentId)
    ensures Gate(s, now, r) == RunHandler(pid) <==>
            Open(s, r) && r.proof.Some? && Pays(s, now, r, r.proof.value) && pid == r.proof.value.paymentId
  {
  }

  /** The other answers: unknown shop, missing key, conflict or replay of an answered key, the terms for a
      request without a proof, and a refusal of any other proof. */
  lemma OtherAnswers(s: Shop, now: int, r: Request)
    ensures var known := r.path.slug in s.accounts && s.accounts[r.path.slug].active;
            && (!known ==> Gate(s, now, r) == Plain(404))
            && (known && r.key.None? ==> Gate(s, now, r) == Plain(400))
            && (known && r.key.Some? && r.key.value in s.cache ==>
                  Gate(s, now, r) == if s.cache[r.key.value].payload == r.payload then Reply(Response(s.cache[r.key.value].status, false, true))
                                     else Plain(409))
            && (Open(s, r) && r.proof.None? ==>
                  Gate(s, now, r) == Challenge(Requirements(Price(r.path.endpoint), s.accounts[r.path.slug].wallet, r.path, r.key.value)))
            && (Open(s, r) && r.proof.Some? && !Pays(s, now, r, r.proof.value) ==> Gate(s, now, r) == Plain(402))
  {
  }

  /** What an open request without a proof is asked to pay, in micro-USDC. */
  lemma PublishedPrices(s: Shop, now: int, r: Request)
    requires Open(s, r) && r.proof.None?
    ensures Gate(s, now, r).Challenge?
    ensures Gate(s, now, r).requirements.amount ==
            match r.path.endpoint
            case Ask => 200
            case Inventory => 300
            case Quote => 500
            case QuoteBasket => 500
            case Negotiate => 2_000
            case Reserve => 1_000
  {
  }

  // ---------------------------------------------------------------- what one proof is good for

  /** Two requests that a proof pays for, at whatever states of the shop and times, are for the same endpoint
      of the same shop under the same key. */
  lemma ProofFitsOneRequest(s: Shop, t: Shop, now: int, later: int, r: Request, q: Request, pid: PaymentId)
    requires Gate(s, now, r) == RunHandler(pid) && Gate(t, later, q) == RunHandler(pid) && r.proof == q.proof
    ensures r.path == q.path && r.key == q.key && later - now <= 1_200
  {
    HandlerRunsExactly(s, now, r, pid);
    HandlerRunsExactly(t, later, q, pid);
  }

  /** And it pays once: whatever happens to accounts, cache and refund marks, a consumed payment never runs a
      handler again. */
  lemma ProofPaysOnce(s: Shop, t: Shop, now: int, later: int, r: Request, q: Request, pid: PaymentId)
    requires Gate(s, now, r) == RunHandler(pid) && r.key.Some?
    requires Consume(s, pid, r.key.value, r.path).seen.Keys <= t.seen.Keys
    ensures Gate(t, later, q) != RunHandler(pid)
    ensures Consume(s, pid, r.key.value, r.path).seen[pid] == Seen(r.key.value, Price(r.path.endpoint), false)
  {
    HandlerRunsExactly(t, later, q, pid);
  }

  /** Answering never unspends a payment, and the answer to a key is the first one. */
  lemma FinishKeeps(s: Shop, pid: PaymentId, key: Key, payload: Payload, status: int, refunded: bool)
    ensures var t := Finish(s, pid, key, payload, status, refunded);
            && t.seen.Keys == s.seen.Keys && t.accounts == s.accounts && t.secret == s.secret
            && t.cache == (if key in s.cache then s.cache else s.cache[key := Cached(payload, status)])
            && forall p :: p in s.seen ==> t.seen[p] == if p == pid && refunded then s.seen[p].(refunded := true) else s.seen[p]
  {
  }
}
