/** Which shop stands in for a failed one, and that its merchant can deliver; and what funding a shop takes. */
module AlternativeRules {
  import opened Results
  import opened Sums
  import opened Catalog
  import opened ShoppingOptions
  import opened FundingSaga
  import A = SagaAccounting
  import P = EscrowProgram
  import C = MockChain
  import O = Orders

  ghost predicate Discovered(peers: seq<Peer>, slug: Slug) {
    exists p :: p in peers && p.slug == slug
  }

  ghost predicate HasLine(quoted: seq<QuoteItem>, sku: Sku, qty: Qty) {
    exists q :: q in quoted && q.sku == sku && qty <= q.qty
  }

  /** A quote that can take over a failed shop at a given time. */
  ghost predicate StandsIn(ctx: Context, failed: Shop, now: int, q: SeenQuote) {
    && q.active && q.verified && q.slug != failed.slug && now < q.validUntil && Discovered(ctx.peers, q.slug)
    && forall i :: i in failed.items ==> HasLine(q.items, i.sku, i.qty)
  }

  lemma {:induction false} FindPeerFindsFirst(peers: seq<Peer>, slug: Slug)
    ensures FindPeer(peers, slug).Some? <==> Discovered(peers, slug)
    ensures FindPeer(peers, slug).Some? ==>
              exists k :: 0 <= k < |peers| && peers[k] == FindPeer(peers, slug).value && peers[k].slug == slug
                          && forall j :: 0 <= j < k ==> peers[j].slug != slug
    decreases |peers|
  {
    if peers != [] {
      FindPeerFindsFirst(peers[1..], slug);
      if peers[0].slug == slug {
        assert peers[0] in peers;
      } else {
        if Discovered(peers, slug) {
          var p :| p in peers && p.slug == slug;
          assert p in peers[1..];
        }
        if FindPeer(peers[1..], slug).Some? {
          var k :| 0 <= k < |peers[1..]| && peers[1..][k] == FindPeer(peers[1..], slug).value && peers[1..][k].slug == slug
                   && forall j :: 0 <= j < k ==> peers[1..][j].slug != slug;
          assert peers[k + 1] == FindPeer(peers, slug).value;
          forall j | 0 <= j < k + 1 ensures peers[j].slug != slug {
            if j > 0 {
              assert peers[1..][j - 1].slug != slug;
            }
          }
        }
      }
    }
  }

  lemma StandsInExactly(ctx: Context, failed: Shop, now: int, q: SeenQuote)
    ensures IsAlternative(ctx, failed, now, q) <==> StandsIn(ctx, failed, now, q)
  {
    FindPeerFindsFirst(ctx.peers, q.slug);
    if IsAlternative(ctx, failed, now, q) {
      forall i | i in failed.items ensures HasLine(q.items, i.sku, i.qty) {
      }
    }
    if StandsIn(ctx, failed, now, q) {
      forall i | i in failed.items ensures exists l :: l in q.items && l.sku == i.sku && l.qty >= i.qty {
        assert HasLine(q.items, i.sku, i.qty);
      }
    }
  }

  ghost predicate FirstStandIn(ctx: Context, failed: Shop, now: int, quotes: seq<SeenQuote>, k: nat) {
    && k < |quotes| && StandsIn(ctx, failed, now, quotes[k])
    && forall j :: 0 <= j < k ==> !StandsIn(ctx, failed, now, quotes[j])
  }

  /** What the alternative from a quote looks like: its peer, its quote, the failed shop's lines at its prices. */
  ghost predicate ShopFrom(ctx: Context, failed: Shop, q: SeenQuote, shop: Shop) {
    && (exists p :: p in ctx.peers && p.slug == q.slug && shop.merchantId == p.merchantId && shop.distance == p.distance)
    && shop.slug == q.slug && shop.quoteId == q.quoteId && shop.essential == failed.essential
    && shop.subtotal == BasketTotal(shop.items) && |shop.items| == |failed.items|
    && forall k :: 0 <= k < |shop.items| ==>
         && shop.items[k].sku == failed.items[k].sku && shop.items[k].qty == failed.items[k].qty
         && FindQuoteItem(q.items, failed.items[k].sku).Some?
         && shop.items[k].unitPrice == FindQuoteItem(q.items, failed.items[k].sku).value.unitPrice
  }

  lemma {:induction false} FindsLine(quoted: seq<QuoteItem>, sku: Sku)
    ensures (exists q :: q in quoted && q.sku == sku) ==> FindQuoteItem(quoted, sku).Some?
    ensures FindQuoteItem(quoted, sku).Some? ==> FindQuoteItem(quoted, sku).value in quoted && FindQuoteItem(quoted, sku).value.sku == sku
  {
    if quoted != [] {
      FindsLine(quoted[1..], sku);
      assert forall q :: q in quoted <==> q == quoted[0] || q in quoted[1..];
    }
  }

  lemma {:induction false} RepricedAt(quoted: seq<QuoteItem>, items: seq<QuoteItem>, k: nat)
    requires k < |items|
    ensures |Repriced(quoted, items)| == |items|
    ensures Repriced(quoted, items)[k].sku == items[k].sku && Repriced(quoted, items)[k].qty == items[k].qty
    ensures FindQuoteItem(quoted, items[k].sku).Some? ==>
              Repriced(quoted, items)[k].unitPrice == FindQuoteItem(quoted, items[k].sku).value.unitPrice
  {
    var init := items[..|items| - 1];
    if init != [] {
      RepricedAt(quoted, init, if k < |init| then k else 0);
    }
  }

  lemma AlternativeLooks(ctx: Context, failed: Shop, now: int, q: SeenQuote)
    requires StandsIn(ctx, failed, now, q) && FindPeer(ctx.peers, q.slug).Some?
    ensures ShopFrom(ctx, failed, q, AlternativeFrom(ctx, failed, q))
  {
    var shop := AlternativeFrom(ctx, failed, q);
    FindPeerFindsFirst(ctx.peers, q.slug);
    assert FindPeer(ctx.peers, q.slug).value in ctx.peers;
    if failed.items != [] {
      RepricedAt(q.items, failed.items, 0);
    }
    forall k | 0 <= k < |failed.items|
      ensures |shop.items| == |failed.items|
      ensures shop.items[k].sku == failed.items[k].sku && shop.items[k].qty == failed.items[k].qty
      ensures FindQuoteItem(q.items, failed.items[k].sku).Some?
      ensures shop.items[k].unitPrice == FindQuoteItem(q.items, failed.items[k].sku).value.unitPrice
    {
      assert failed.items[k] in failed.items && HasLine(q.items, failed.items[k].sku, failed.items[k].qty);
      FindsLine(q.items, failed.items[k].sku);
      RepricedAt(q.items, failed.items, k);
    }
  }

  /** An alternative is found if and only if some quote can take over the failed shop, and then it is made of
      the first such quote. */
  lemma {:induction false} FindAlternativeExactly(ctx: Context, failed: Shop, now: int, quotes: seq<SeenQuote>)
    ensures match FindAlternative(ctx, failed, now, quotes)
            case None => forall q :: q in quotes ==> !StandsIn(ctx, failed, now, q)
            case Some(shop) => exists k: nat :: FirstStandIn(ctx, failed, now, quotes, k) && ShopFrom(ctx, failed, quotes[k], shop)
  {
    if quotes != [] {
      StandsInExactly(ctx, failed, now, quotes[0]);
      if IsAlternative(ctx, failed, now, quotes[0]) {
        AlternativeLooks(ctx, failed, now, quotes[0]);
        assert FirstStandIn(ctx, failed, now, quotes, 0);
      } else {
        FindAlternativeExactly(ctx, failed, now, quotes[1..]);
        match FindAlternative(ctx, failed, now, quotes[1..])
        case None =>
          forall q | q in quotes ensures !StandsIn(ctx, failed, now, q) {
            assert q == quotes[0] || q in quotes[1..];
          }
        case Some(shop) =>
          var k: nat :| FirstStandIn(ctx, failed, now, quotes[1..], k) && ShopFrom(ctx, failed, quotes[1..][k], shop);
          forall j | 0 <= j < k + 1 ensures !StandsIn(ctx, failed, now, quotes[j]) {
            if j > 0 {
              assert quotes[1..][j - 1] == quotes[j];
            }
          }
          assert quotes[k + 1] == quotes[1..][k];
          assert FirstStandIn(ctx, failed, now, quotes, k + 1);
      }
    }
  }

  // ---------------------------------------------------------------- its merchant can deliver

  /** A quote with one line for each article. */
  ghost predicate OneLineEach(quoted: seq<QuoteItem>) {
    forall a, b :: a in quoted && b in quoted && a.sku == b.sku ==> a == b
  }

  lemma {:induction false} RepricedIsAccepted(quoted: seq<QuoteItem>, items: seq<QuoteItem>)
    requires OneLineEach(quoted) && forall i :: i in items ==> HasLine(quoted, i.sku, i.qty)
    ensures OrderItems(quoted, Repriced(quoted, items)) == Some(Repriced(quoted, items))
  {
    if items != [] {
      var init, last := items[..|items| - 1], items[|items| - 1];
      assert last in items && forall i :: i in init ==> i in items;
      RepricedIsAccepted(quoted, init);
      assert HasLine(quoted, last.sku, last.qty);
      FindsLine(quoted, last.sku);
      var priced := last.(unitPrice := FindQuoteItem(quoted, last.sku).value.unitPrice);
      var all := Repriced(quoted, items);
      assert all == Repriced(quoted, init) + [priced];
      assert all[..|all| - 1] == Repriced(quoted, init) && all[|all| - 1] == priced;
    }
  }

  /** The merchant of an alternative accepts its order unchanged, when its quote has one line per article. */
  lemma AlternativeIsAccepted(ctx: Context, failed: Shop, now: int, q: SeenQuote)
    requires StandsIn(ctx, failed, now, q) && OneLineEach(q.items) && FindPeer(ctx.peers, q.slug).Some?
    ensures OrderItems(q.items, AlternativeFrom(ctx, failed, q).items) == Some(AlternativeFrom(ctx, failed, q).items)
  {
    RepricedIsAccepted(q.items, failed.items);
  }

  // ---------------------------------------------------------------- what funding takes

  /** A shop gains a row only with a known peer, a recorded and verified quote that has not ended, a valid
      signature, an accepted order whose lines the quote has, and enough money; the new escrow is the
      buyer's, for the priced lines, on the peer's terms. */
  lemma FundedOnlyIfUsable(ctx: Context, t: Task, shop: Shop, a: Answers)
    requires |FundShop(ctx, t, shop, a).0.orders| > |t.orders|
    ensures Discovered(ctx.peers, shop.slug) && a.signatureOk && a.reply.Accepted? && shop.items != []
    ensures exists q :: q in ctx.quotes && q.quoteId == shop.quoteId && q.verified && a.now < q.validUntil
                        && OrderItems(q.items, shop.items).Some?
    ensures shop.slug !in ctx.failSlugs
  {
    FindPeerFindsFirst(ctx.peers, shop.slug);
    FindQuoteFinds(ctx.quotes, shop.quoteId);
    var quote := Usable(ctx, shop, a);
    if quote.Some? {
      A.HappenAllContinues(ctx.failSlugs, t, a.before);
      var t1 := HappenAll(ctx.failSlugs, t, a.before);
      var items := OrderItems(quote.value.items, shop.items);
      if a.reply.Accepted? && shop.items != [] && items.Some? {
        var params := FundParamsOf(ctx, FindPeer(ctx.peers, shop.slug).value, quote.value, OrderTotal(items.value), a);
        assert C.MockStep(t1.chain, ctx.failSlugs, a.fundedAt, C.Fund(params)).Success?;
        FindPeerSlug(ctx.peers, shop.slug);
      }
    }
  }

  lemma {:induction false} FindPeerSlug(peers: seq<Peer>, slug: Slug)
    requires FindPeer(peers, slug).Some?
    ensures FindPeer(peers, slug).value.slug == slug
  {
    FindPeerFindsFirst(peers, slug);
  }

  lemma {:induction false} FindQuoteFinds(quotes: seq<SeenQuote>, id: QuoteId)
    ensures FindQuote(quotes, id).Some? <==> exists q :: q in quotes && q.quoteId == id
    ensures FindQuote(quotes, id).Some? ==> FindQuote(quotes, id).value in quotes && FindQuote(quotes, id).value.quoteId == id
  {
    if quotes != [] {
      FindQuoteFinds(quotes[1..], id);
      assert forall q :: q in quotes <==> q == quotes[0] || q in quotes[1..];
    }
  }

  /** The escrow and the row of a funding. */
  lemma FundingTerms(ctx: Context, t: Task, shop: Shop, quote: SeenQuote, total: nat, a: Answers)
    requires a.reply.Accepted? && FindPeer(ctx.peers, shop.slug).Some? && a.after == []
    ensures var (u, r) := FundOrder(ctx, t, shop, quote, total, a);
            var ok := shop.slug !in ctx.failSlugs && total <= t.chain.balance;
            && (ok <==> |u.orders| > |t.orders|) && (r.Funded? <==> ok && a.announced) && !r.Threw?
            && (!ok ==> u == t)
            && (ok ==>
                  && u.chain.balance == t.chain.balance - total && |u.chain.escrows| == |t.chain.escrows| + 1
                  && u.dropped == t.dropped
                  && (exists p :: p in ctx.peers && p.slug == shop.slug
                                  && u.chain.escrows == t.chain.escrows
                                     + [C.Escrow(p.merchantId, shop.slug, ctx.wallet, total, quote.hash, a.pickupCodeHash, a.fundedAt,
                                                 a.reply.releaseDeadline, P.Funded)])
                  && u.orders == t.orders + [TaskOrder(a.reply.orderId, shop.slug, shop.quoteId, shop.items, total, O.PaidInEscrow,
                                                       shop.essential, |u.chain.escrows|, a.announced)])
  {
    FindPeerFindsFirst(ctx.peers, shop.slug);
    var p := FindPeer(ctx.peers, shop.slug).value;
    assert p in ctx.peers && p.slug == shop.slug;
  }
}
