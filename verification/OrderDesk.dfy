/** A merchant's order and cancel-order handlers over its stock and its order table. The products of the
    store are the merchant's articles. */
module OrderDesk {
  import opened Results
  import opened Sums
  import opened Catalog
  import opened Stock
  import opened StockServices
  import F = FundingSaga
  import O = Orders

  /** The articles and quantities of an order. */
  function StockLines(items: seq<QuoteItem>): seq<Item> {
    if items == [] then []
    else StockLines(items[..|items| - 1]) + [Item(items[|items| - 1].sku, items[|items| - 1].qty)]
  }

  /** They are those of its lines, in order. */
  lemma {:induction false} StockLinesExactly(items: seq<QuoteItem>)
    ensures |StockLines(items)| == |items|
    ensures forall k :: 0 <= k < |items| ==> StockLines(items)[k] == Item(items[k].sku, items[k].qty)
  {
    if items != [] {
      StockLinesExactly(items[..|items| - 1]);
    }
  }

  datatype Refusal = NotInQuote | OutOfStock(error: StockError)

  class Counter {
    const book: O.OrderBook
    const store: SqliteMerchantStore

    constructor (book: O.OrderBook, store: SqliteMerchantStore)
      ensures this.book == book && this.store == store
    {
      this.book, this.store := book, store;
    }

    method ToStock(items: seq<QuoteItem>) returns (lines: seq<Item>)
      ensures lines == StockLines(items)
    {
      lines := [];
      for k := 0 to |items|
        invariant lines == StockLines(items[..k])
      {
        assert items[..k + 1][..k] == items[..k];
        lines := lines + [Item(items[k].sku, items[k].qty)];
      }
      assert items[..|items|] == items;
    }

    /** The order handler behind a usable quote: pick the lines, commit their stock, write the order. A line
        out of stock refuses the order and leaves what the earlier lines took. */
    method Order(id: O.OrderId, task: O.TaskId, quoted: seq<QuoteItem>, requested: Option<seq<QuoteItem>>,
                 codeHash: nat, deadline: int, now: int) returns (r: Result<nat, Refusal>)
      requires id !in book.orders
      modifies book, store
      ensures var items := F.OrderedItems(quoted, requested);
              if items.None? then r == Failure(NotInQuote) && book.orders == old(book.orders) && store.View() == old(store.View())
              else
                var (stock, stopped) := LiteCommit(old(store.View()), now, StockLines(items.value));
                && store.View() == stock
                && (stopped.Some? ==> r == Failure(OutOfStock(stopped.value)) && book.orders == old(book.orders))
                && (stopped.None? ==> r.Success? && r.value == BasketTotal(items.value)
                                      && book.orders == old(book.orders)[id := O.Created(task, items.value, r.value, codeHash, deadline)])
    {
      var items, total := F.PlaceOrder(quoted, requested);
      if items.None? { return Failure(NotInQuote); }
      var lines := ToStock(items.value);
      var stopped := store.CommitStockForOrder(now, lines);
      if stopped.Some? { return Failure(OutOfStock(stopped.value)); }
      book.CreateOrder(id, task, items.value, total, codeHash, deadline);
      r := Success(total);
    }

    /** The cancel-order handler: an order still awaiting funding gives its stock back and is cancelled. */
    method Cancel(id: O.OrderId) returns (r: Result<O.OrderState, O.OrderError>)
      modifies book, store
      ensures r.Success? <==> id in old(book.orders) && old(book.orders)[id].state == O.AwaitingFunding
      ensures r.Success? ==>
        && r.value == O.Cancelled && book.orders == old(book.orders)[id := O.OnCancel(old(book.orders)[id])]
        && store.View() == LiteRestock(old(store.View()), StockLines(old(book.orders)[id].items))
      ensures r.Failure? ==>
        && r.error == (if id in old(book.orders) then O.NotCancellable else O.OrderNotFound)
        && book.orders == old(book.orders) && store.View() == old(store.View())
    {
      if id !in book.orders { return Failure(O.OrderNotFound); }
      var order := book.orders[id];
      if order.state != O.AwaitingFunding { return Failure(O.NotCancellable); }
      var lines := ToStock(order.items);
      store.Restock(lines);
      r := book.CancelOrder(id);
    }
  }

  // ---------------------------------------------------------------- what cancelling undoes

  /** Free and reserved units of a product. */
  function Units(s: Lite, p: Product): int
    requires p in s.stock
  {
    s.stock[p] + HeldSum(s.reservations, p)
  }

  function OrderedOf(p: Product): Item -> int {
    (i: Item) => if i.product == p then i.qty else 0
  }

  lemma LineTakes(s: Lite, now: int, item: Item, p: Product)
    requires p in s.stock && LiteCommitLine(s, now, item).Success?
    ensures var t := LiteCommitLine(s, now, item).value;
            p in t.stock && Units(t, p) == Units(s, p) - OrderedOf(p)(item)
  {
    var held := FirstUsable(s.reservations, item.product, now, 0);
    if held.Some? && s.reservations[held.value].qty >= item.qty {
      SumByUpdate(s.reservations, held.value, s.reservations[held.value].(status := Consumed), HeldQty(p));
    }
  }

  /** An order takes exactly its quantities, be it from the counter or from reservations. */
  lemma {:induction false} CommitTakes(s: Lite, now: int, items: seq<Item>, p: Product)
    requires p in s.stock && LiteCommit(s, now, items).1.None?
    ensures var t := LiteCommit(s, now, items).0;
            p in t.stock && Units(t, p) == Units(s, p) - SumBy(items, OrderedOf(p))
  {
    if items != [] {
      var init, last := items[..|items| - 1], items[|items| - 1];
      CommitTakes(s, now, init, p);
      LineTakes(LiteCommit(s, now, init).0, now, last, p);
      SumByAppend(init, last, OrderedOf(p));
      assert items == init + [last];
    }
  }

  lemma {:induction false} RestockGives(s: Lite, items: seq<Item>, p: Product)
    requires p in s.stock
    ensures var t := LiteRestock(s, items);
            p in t.stock && Units(t, p) == Units(s, p) + SumBy(items, OrderedOf(p)) && t.reservations == s.reservations
  {
    if items != [] {
      var init, last := items[..|items| - 1], items[|items| - 1];
      RestockGives(s, init, p);
      SumByAppend(init, last, OrderedOf(p));
      assert items == init + [last];
    }
  }

  /** An order and its cancellation leave every product with as many units as before, free and reserved
      together. */
  lemma {:induction false} CancelUndoesOrder(s: Lite, now: int, items: seq<QuoteItem>, p: Product)
    requires p in s.stock && LiteCommit(s, now, StockLines(items)).1.None?
    ensures var t := LiteRestock(LiteCommit(s, now, StockLines(items)).0, StockLines(items));
            p in t.stock && Units(t, p) == Units(s, p)
  {
    CommitTakes(s, now, StockLines(items), p);
    RestockGives(LiteCommit(s, now, StockLines(items)).0, StockLines(items), p);
  }
}
