/** The two stores as mutable tables. Each method is proved against the functions of module Stock. */
module StockServices {
  import opened Results
  import opened Catalog
  import opened Stock
  import Invariant = StockInvariant
  import Laws = StockLaws

  class PostgresStock {
    var rows: map<Product, Row>
    var reservations: seq<Reservation>
    var movements: seq<Movement>

    constructor (stock: map<Product, nat>)
      ensures Invariant.Opening(View(), map p | p in stock :: stock[p] as int)
    {
      rows := map p | p in stock :: Row(stock[p], 0, stock[p]);
      reservations, movements := [], [];
    }

    function View(): Pg
      reads this
    {
      Pg(rows, reservations, movements)
    }

    /** Committed with the tables `spec` gives, or rolled back with its error. */
    ghost predicate Agrees(before: Pg, spec: Result<Pg, StockError>, r: Outcome<StockError>)
      reads this
    {
      match spec
      case Success(after) => r.Pass? && View() == after
      case Failure(e) => r == Fail(e) && View() == before
    }

    /** UPDATE inventory, with its CHECK constraints. */
    method UpdateRow(p: Product, row: Row) returns (r: Outcome<StockError>)
      modifies this`rows
      ensures Agrees(old(View()), PutRow(old(View()), p, row), r)
    {
      if !RowOk(row) { return Fail(CheckViolation); }
      rows := rows[p := row];
      return Pass;
    }

    method ReserveInventoryAtomic(p: Product, qty: Qty, expiresAt: int) returns (r: Outcome<StockError>)
      modifies this
      ensures Agrees(old(View()), PgReserve(old(View()), p, qty, expiresAt), r)
    {
      if p !in rows || rows[p].available < qty { return Fail(InsufficientStock(p)); }
      r := UpdateRow(p, rows[p].(reserved := rows[p].reserved + qty, available := rows[p].available - qty));
      if r.Fail? { return; }
      reservations := reservations + [Reservation(p, qty, expiresAt, Held)];
      movements := movements + [Movement(p, Reserve, 0 - qty)];
    }

    method ReleaseHeldReservation(id: nat) returns (r: Outcome<StockError>)
      modifies this
      ensures Agrees(old(View()), PgReleaseOne(old(View()), id), r)
    {
      if id >= |reservations| || !reservations[id].status.Held? { return Pass; }
      var held := reservations[id];
      if held.product !in rows { return Fail(NotFound); }
      var row := rows[held.product];
      r := UpdateRow(held.product, row.(reserved := row.reserved - held.qty, available := row.available + held.qty));
      if r.Fail? { return; }
      movements := movements + [Movement(held.product, ReservationRelease, held.qty)];
      reservations := reservations[id := held.(status := Released)];
    }

    /** The worker's loop: one transaction for each reservation found expired. In a consistent
        state none of them fails. */
    method ReleaseExpiredReservations(now: int, ghost initial: map<Product, int>)
      requires Invariant.StockOk(View(), initial)
      modifies this
      ensures PgReleaseFrom(old(View()), now, 0) == Success(View())
      ensures Laws.ReleasedExactly(old(reservations), reservations, now, 0)
    {
      ghost var whole := PgReleaseFrom(View(), now, 0);
      Invariant.ReleaseExpiredOk(View(), initial, now, 0);
      Laws.PgReleaseExactly(View(), now, 0);
      var k := 0;
      while k < |reservations|
        invariant k <= |reservations|
        invariant Invariant.StockOk(View(), initial)
        invariant PgReleaseFrom(View(), now, k) == whole
        decreases |reservations| - k
      {
        ghost var before := View();
        ReleaseRound(before, initial, now, k);
        if Expired(reservations[k], now) {
          var r := ReleaseHeldReservation(k);
        }
        k := k + 1;
      }
    }

    method CommitLine(now: int, item: Item) returns (r: Outcome<StockError>)
      modifies this
      ensures Agrees(old(View()), PgCommitLine(old(View()), now, item), r)
    {
      if item.product !in rows { return Fail(InsufficientStock(item.product)); }
      var row := rows[item.product];
      var held := FirstUsable(reservations, item.product, now, 0);
      if held.Some? && reservations[held.value].qty >= item.qty {
        var reservation := reservations[held.value];
        var surplus := reservation.qty - item.qty;
        r := UpdateRow(item.product, Row(row.physical - item.qty, row.reserved - reservation.qty, row.available + surplus));
        if r.Fail? { return; }
        reservations := reservations[held.value := reservation.(status := Consumed)];
        movements := movements + [Movement(item.product, Sale, 0 - item.qty)];
      } else {
        if row.available < item.qty { return Fail(InsufficientStock(item.product)); }
        r := UpdateRow(item.product, row.(physical := row.physical - item.qty, available := row.available - item.qty));
        if r.Fail? { return; }
        movements := movements + [Movement(item.product, Sale, 0 - item.qty)];
      }
    }

    /** One transaction over all lines: the first failing line rolls everything back. */
    method CommitStockForOrder(now: int, items: seq<Item>) returns (r: Outcome<StockError>)
      modifies this
      ensures Agrees(old(View()), PgCommit(old(View()), now, items), r)
    {
      var savedRows, savedReservations, savedMovements := rows, reservations, movements;
      for k := 0 to |items|
        invariant PgCommit(old(View()), now, items[..k]) == Success(View())
      {
        assert items[..k + 1][..k] == items[..k];
        r := CommitLine(now, items[k]);
        if r.Fail? {
          CommitFails(old(View()), now, items, k + 1);
          rows, reservations, movements := savedRows, savedReservations, savedMovements;
          return;
        }
      }
      assert items[..|items|] == items;
      return Pass;
    }

    method RestockAfterCancel(items: seq<Item>) returns (r: Outcome<StockError>)
      modifies this
      ensures Agrees(old(View()), PgRestock(old(View()), items), r)
    {
      var savedRows, savedMovements := rows, movements;
      for k := 0 to |items|
        invariant PgRestock(old(View()), items[..k]) == Success(View()) && reservations == old(reservations)
      {
        assert items[..k + 1][..k] == items[..k];
        var item := items[k];
        if item.product in rows {
          r := UpdateRow(item.product, rows[item.product].(physical := rows[item.product].physical + item.qty,
                                                          available := rows[item.product].available + item.qty));
          if r.Fail? {
            RestockFails(old(View()), items, k + 1);
            rows, movements := savedRows, savedMovements;
            return;
          }
          movements := movements + [Movement(item.product, Return, item.qty)];
        }
      }
      assert items[..|items|] == items;
      return Pass;
    }

    method AdjustInventory(p: Product, delta: int, kind: MovementType) returns (r: Outcome<StockError>)
      modifies this
      ensures Agrees(old(View()), PgAdjust(old(View()), p, delta, kind), r)
    {
      if p !in rows { return Fail(NotFound); }
      r := UpdateRow(p, rows[p].(physical := rows[p].physical + delta, available := rows[p].available + delta));
      if r.Fail? { return; }
      movements := movements + [Movement(p, kind, delta)];
    }
  }

  lemma ReleaseRound(s: Pg, initial: map<Product, int>, now: int, k: nat)
    requires Invariant.StockOk(s, initial) && k < |s.reservations|
    ensures var t := if Expired(s.reservations[k], now) then PgReleaseOne(s, k) else Success(s);
            && t.Success? && Invariant.StockOk(t.value, initial) && |t.value.reservations| == |s.reservations|
            && PgReleaseFrom(t.value, now, k + 1) == PgReleaseFrom(s, now, k)
  {
    Invariant.ReleaseOneOk(s, initial, k);
  }

  /** A commit that fails on a prefix fails with the same error on the whole order. */
  lemma {:induction false} CommitFails(s: Pg, now: int, items: seq<Item>, k: nat)
    requires k <= |items| && PgCommit(s, now, items[..k]).Failure?
    ensures PgCommit(s, now, items) == PgCommit(s, now, items[..k])
    decreases |items|
  {
    if k < |items| {
      var init := items[..|items| - 1];
      assert init[..k] == items[..k];
      CommitFails(s, now, init, k);
    } else {
      assert items[..k] == items;
    }
  }

  lemma {:induction false} RestockFails(s: Pg, items: seq<Item>, k: nat)
    requires k <= |items| && PgRestock(s, items[..k]).Failure?
    ensures PgRestock(s, items) == PgRestock(s, items[..k])
    decreases |items|
  {
    if k < |items| {
      var init := items[..|items| - 1];
      assert init[..k] == items[..k];
      RestockFails(s, init, k);
    } else {
      assert items[..k] == items;
    }
  }

  class SqliteMerchantStore {
    var stock: map<Product, int>
    var reservations: seq<Reservation>

    constructor (stock: map<Product, int>)
      ensures View() == Lite(stock, [])
    {
      this.stock, reservations := stock, [];
    }

    function View(): Lite
      reads this
    {
      Lite(stock, reservations)
    }

    method ReserveStock(p: Product, qty: Qty, expiresAt: int) returns (r: Outcome<StockError>)
      modifies this
      ensures match LiteReserve(old(View()), p, qty, expiresAt)
              case Success(after) => r.Pass? && View() == after
              case Failure(e) => r == Fail(e) && View() == old(View())
    {
      if p !in stock || stock[p] < qty { return Fail(InsufficientStock(p)); }
      stock := stock[p := stock[p] - qty];
      reservations := reservations + [Reservation(p, qty, expiresAt, Held)];
      return Pass;
    }

    /** Line by line, in place; an insufficient line throws and leaves the earlier lines applied. */
    method CommitStockForOrder(now: int, items: seq<Item>) returns (stopped: Option<StockError>)
      modifies this
      ensures (View(), stopped) == LiteCommit(old(View()), now, items)
    {
      stopped := None;
      for k := 0 to |items|
        invariant (View(), None) == LiteCommit(old(View()), now, items[..k])
      {
        assert items[..k + 1][..k] == items[..k];
        var item := items[k];
        var held := FirstUsable(reservations, item.product, now, 0);
        if held.Some? && reservations[held.value].qty >= item.qty {
          var reservation := reservations[held.value];
          reservations := reservations[held.value := reservation.(status := Consumed)];
          assert AddStock(stock, item.product, 0) == stock;
          if reservation.qty > item.qty {
            stock := AddStock(stock, item.product, reservation.qty - item.qty);
          }
        } else {
          if item.product !in stock || stock[item.product] < item.qty {
            stopped := Some(InsufficientStock(item.product));
            LiteCommitStops(old(View()), now, items, k + 1);
            return;
          }
          stock := stock[item.product := stock[item.product] - item.qty];
        }
      }
      assert items[..|items|] == items;
    }

    method Restock(items: seq<Item>)
      modifies this
      ensures View() == LiteRestock(old(View()), items)
    {
      for k := 0 to |items|
        invariant View() == LiteRestock(old(View()), items[..k])
      {
        assert items[..k + 1][..k] == items[..k];
        stock := AddStock(stock, items[k].product, items[k].qty);
      }
      assert items[..|items|] == items;
    }

    method ReleaseExpiredReservations(now: int)
      modifies this
      ensures View() == LiteReleaseFrom(old(View()), now, 0)
      ensures Laws.ReleasedExactly(old(reservations), reservations, now, 0)
    {
      Laws.LiteReleaseExactly(View(), now, 0);
      var k := 0;
      while k < |reservations|
        invariant k <= |reservations|
        invariant LiteReleaseFrom(View(), now, k) == LiteReleaseFrom(old(View()), now, 0)
        decreases |reservations| - k
      {
        if Expired(reservations[k], now) {
          stock := AddStock(stock, reservations[k].product, reservations[k].qty);
          reservations := reservations[k := reservations[k].(status := Released)];
        }
        k := k + 1;
      }
    }
  }

  lemma {:induction false} LiteCommitStops(s: Lite, now: int, items: seq<Item>, k: nat)
    requires k <= |items| && LiteCommit(s, now, items[..k]).1.Some?
    ensures LiteCommit(s, now, items) == LiteCommit(s, now, items[..k])
    decreases |items|
  {
    if k < |items| {
      var init := items[..|items| - 1];
      assert init[..k] == items[..k];
      LiteCommitStops(s, now, init, k);
    } else {
      assert items[..k] == items;
    }
  }
}
