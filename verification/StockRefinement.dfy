/** The SQLite store and the Postgres repository agree, operation by operation. */
module StockRefinement {
  import opened Results
  import opened Catalog
  import opened Stock
  import opened StockInvariant
  import opened StockServices

  /** Same products, one counter equal to the available quantity, same reservations. */
  ghost predicate Matches(lite: Lite, pg: Pg) {
    && lite.stock.Keys == pg.rows.Keys
    && (forall p :: p in pg.rows ==> lite.stock[p] == pg.rows[p].available)
    && lite.reservations == pg.reservations
  }

  lemma ReserveAgrees(lite: Lite, pg: Pg, initial: map<Product, int>, p: Product, qty: Qty, expiresAt: int)
    requires Matches(lite, pg) && StockOk(pg, initial)
    ensures match (LiteReserve(lite, p, qty, expiresAt), PgReserve(pg, p, qty, expiresAt))
            case (Success(l), Success(g)) => Matches(l, g)
            case (Failure(e), Failure(f)) => e == f
            case _ => false
  {
    ReserveOk(pg, initial, p, qty, expiresAt);
  }

  lemma {:induction false} ReleaseAgrees(lite: Lite, pg: Pg, initial: map<Product, int>, now: int, k: nat)
    requires Matches(lite, pg) && StockOk(pg, initial) && k <= |pg.reservations|
    ensures PgReleaseFrom(pg, now, k).Success?
    ensures Matches(LiteReleaseFrom(lite, now, k), PgReleaseFrom(pg, now, k).value)
    decreases |pg.reservations| - k
  {
    if k < |pg.reservations| {
      if Expired(pg.reservations[k], now) {
        ReleaseOneOk(pg, initial, k);
        var r := pg.reservations[k];
        var l := Lite(AddStock(lite.stock, r.product, r.qty), lite.reservations[k := r.(status := Released)]);
        ReleaseAgrees(l, PgReleaseOne(pg, k).value, initial, now, k + 1);
      } else {
        ReleaseAgrees(lite, pg, initial, now, k + 1);
      }
    }
  }

  lemma CommitLineAgrees(lite: Lite, pg: Pg, initial: map<Product, int>, now: int, item: Item)
    requires Matches(lite, pg) && StockOk(pg, initial)
    ensures match (LiteCommitLine(lite, now, item), PgCommitLine(pg, now, item))
            case (Success(l), Success(g)) => Matches(l, g)
            case (Failure(e), Failure(f)) => e == f
            case _ => false
  {
    CommitLineOk(pg, initial, now, item);
  }

  /** An order commits in one store exactly when it commits in the other, failing with the same
      error otherwise; a successful commit keeps the stores matching. */
  lemma {:induction false} CommitAgrees(lite: Lite, pg: Pg, initial: map<Product, int>, now: int, items: seq<Item>)
    requires Matches(lite, pg) && StockOk(pg, initial)
    ensures match (LiteCommit(lite, now, items), PgCommit(pg, now, items))
            case ((l, None), Success(g)) => Matches(l, g)
            case ((_, Some(e)), Failure(f)) => e == f
            case _ => false
  {
    if items != [] {
      var init := items[..|items| - 1];
      CommitAgrees(lite, pg, initial, now, init);
      CommitOk(pg, initial, now, init);
      if PgCommit(pg, now, init).Success? {
        CommitLineAgrees(LiteCommit(lite, now, init).0, PgCommit(pg, now, init).value, initial, now, items[|items| - 1]);
      }
    }
  }

  lemma {:induction false} RestockAgrees(lite: Lite, pg: Pg, initial: map<Product, int>, items: seq<Item>)
    requires Matches(lite, pg) && StockOk(pg, initial)
    ensures PgRestock(pg, items).Success? && Matches(LiteRestock(lite, items), PgRestock(pg, items).value)
  {
    if items != [] {
      var init := items[..|items| - 1];
      RestockAgrees(lite, pg, initial, init);
      RestockOk(pg, initial, init);
      RestockLineOk(PgRestock(pg, init).value, initial, items[|items| - 1]);
    }
  }

  // ---------------------------------------------------------------- runs

  /** The operations of the MerchantStore interface. */
  datatype StoreOp =
    | ReserveStock(p: Product, qty: Qty, expiresAt: int)
    | CommitOrder(now: int, items: seq<Item>)
    | Restock(items: seq<Item>)
    | ReleaseExpired(now: int)

  function OnPg(s: Pg, op: StoreOp): Result<Pg, StockError> {
    match op
    case ReserveStock(p, qty, expiresAt) => PgReserve(s, p, qty, expiresAt)
    case CommitOrder(now, items) => PgCommit(s, now, items)
    case Restock(items) => PgRestock(s, items)
    case ReleaseExpired(now) => PgReleaseFrom(s, now, 0)
  }

  function OnLite(s: Lite, op: StoreOp): Result<Lite, StockError> {
    match op
    case ReserveStock(p, qty, expiresAt) => LiteReserve(s, p, qty, expiresAt)
    case CommitOrder(now, items) =>
      (match LiteCommit(s, now, items) case (t, None) => Success(t) case (_, Some(e)) => Failure(e))
    case Restock(items) => Success(LiteRestock(s, items))
    case ReleaseExpired(now) => Success(LiteReleaseFrom(s, now, 0))
  }

  lemma OpAgrees(lite: Lite, pg: Pg, initial: map<Product, int>, op: StoreOp)
    requires Matches(lite, pg) && StockOk(pg, initial)
    ensures match (OnLite(lite, op), OnPg(pg, op))
            case (Success(l), Success(g)) => Matches(l, g) && StockOk(g, initial)
            case (Failure(e), Failure(f)) => e == f
            case _ => false
  {
    match op {
      case ReserveStock(p, qty, expiresAt) => ReserveAgrees(lite, pg, initial, p, qty, expiresAt); ReserveOk(pg, initial, p, qty, expiresAt);
      case CommitOrder(now, items) => CommitAgrees(lite, pg, initial, now, items); CommitOk(pg, initial, now, items);
      case Restock(items) => RestockAgrees(lite, pg, initial, items); RestockOk(pg, initial, items);
      case ReleaseExpired(now) => ReleaseAgrees(lite, pg, initial, now, 0); ReleaseExpiredOk(pg, initial, now, 0);
    }
  }

  function RunPg(s: Pg, ops: seq<StoreOp>): Result<Pg, StockError> {
    if ops == [] then Success(s)
    else
      var t :- RunPg(s, ops[..|ops| - 1]);
      OnPg(t, ops[|ops| - 1])
  }

  function RunLite(s: Lite, ops: seq<StoreOp>): Result<Lite, StockError> {
    if ops == [] then Success(s)
    else
      var t :- RunLite(s, ops[..|ops| - 1]);
      OnLite(t, ops[|ops| - 1])
  }

  /** Run from the same stock, the two stores accept the same operations, stop at the same first
      error, and match after every run without one. */
  lemma {:induction false} StoresAgree(lite: Lite, pg: Pg, initial: map<Product, int>, ops: seq<StoreOp>)
    requires Matches(lite, pg) && StockOk(pg, initial)
    ensures match (RunLite(lite, ops), RunPg(pg, ops))
            case (Success(l), Success(g)) => Matches(l, g) && StockOk(g, initial)
            case (Failure(e), Failure(f)) => e == f
            case _ => false
  {
    if ops != [] {
      var init := ops[..|ops| - 1];
      StoresAgree(lite, pg, initial, init);
      if RunPg(pg, init).Success? {
        OpAgrees(RunLite(lite, init).value, RunPg(pg, init).value, initial, ops[|ops| - 1]);
      }
    }
  }

  // ---------------------------------------------------------------- a failed order

  /** Reservations that are no longer held. */
  function Spent(rs: seq<Reservation>): nat {
    if rs == [] then 0 else Spent(rs[1..]) + if rs[0].status.Held? then 0 else 1
  }

  lemma {:induction false} SpentGrows(rs: seq<Reservation>, id: nat)
    requires id < |rs| && rs[id].status.Held?
    ensures Spent(rs[id := rs[id].(status := Consumed)]) == Spent(rs) + 1
  {
    var after := rs[id := rs[id].(status := Consumed)];
    if id == 0 {
      assert after[1..] == rs[1..];
    } else {
      assert after[1..] == rs[1..][id - 1 := rs[id].(status := Consumed)];
      SpentGrows(rs[1..], id - 1);
    }
  }

  /** Lines taken from the counter lower it; lines taken from a reservation spend one. Once a
      reservation is spent the tables differ for good, and until then counters only fall. */
  lemma {:induction false} CommitLeavesTrace(lite: Lite, now: int, items: seq<Item>)
    ensures var t := LiteCommit(lite, now, items).0;
            && Spent(t.reservations) >= Spent(lite.reservations)
            && t.stock.Keys == lite.stock.Keys
            && (Spent(t.reservations) == Spent(lite.reservations) ==> forall p :: p in lite.stock ==> t.stock[p] <= lite.stock[p])
            && (items != [] && LiteCommitLine(lite, now, items[0]).Success? ==>
                  || Spent(t.reservations) > Spent(lite.reservations)
                  || (items[0].product in lite.stock && t.stock[items[0].product] < lite.stock[items[0].product]))
  {
    if items != [] {
      var init, last := items[..|items| - 1], items[|items| - 1];
      CommitLeavesTrace(lite, now, init);
      var (t, stopped) := LiteCommit(lite, now, init);
      if stopped.None? {
        LineLeavesTrace(t, now, last);
        if |items| == 1 {
          assert t == lite && last == items[0];
        } else {
          assert init[0] == items[0];
        }
      }
    }
  }

  /** A successful line always leaves a trace: it takes stock or closes a reservation, so never returns
      the tables to an earlier state. */
  lemma LineLeavesTrace(t: Lite, now: int, item: Item)
    ensures match LiteCommitLine(t, now, item)
            case Failure(_) => true
            case Success(u) =>
              && u.stock.Keys == t.stock.Keys
              && (|| Spent(u.reservations) == Spent(t.reservations) + 1
                  || (&& u.reservations == t.reservations && item.product in t.stock
                      && u.stock[item.product] < t.stock[item.product]
                      && forall p :: p in t.stock ==> u.stock[p] <= t.stock[p]))
  {
    var held := FirstUsable(t.reservations, item.product, now, 0);
    if held.Some? && t.reservations[held.value].qty >= item.qty {
      SpentGrows(t.reservations, held.value);
    }
  }

  /** A failed order leaves the SQLite tables as they were, as Postgres always does, if and only if
      its first line already fails. */
  lemma {:induction false} FailedOrderUnchangedExactly(lite: Lite, now: int, items: seq<Item>)
    requires LiteCommit(lite, now, items).1.Some?
    ensures LiteCommit(lite, now, items).0 == lite <==> LiteCommitLine(lite, now, items[0]).Failure?
  {
    CommitLeavesTrace(lite, now, items);
    if LiteCommitLine(lite, now, items[0]).Failure? {
      assert items[..1] == [items[0]] && items[..1][..0] == [];
      assert LiteCommit(lite, now, []) == (lite, None);
      assert LiteCommit(lite, now, items[..1]).1.Some? && LiteCommit(lite, now, items[..1]).0 == lite;
      LiteCommitStops(lite, now, items, 1);
    }
  }

  /** An order of two lines whose second is out of stock: the first line stays taken. */
  lemma FailedOrderKeepsFirstLine() returns (lite: Lite, items: seq<Item>)
    ensures LiteCommit(lite, 0, items).1.Some? && LiteCommit(lite, 0, items).0 != lite
  {
    lite := Lite(map[1 := 5, 2 := 0], []);
    items := [Item(1, 3), Item(2, 1)];
    var first := LiteCommitLine(lite, 0, items[0]).value;
    assert LiteCommit(lite, 0, items[..1]) == (first, None) by {
      assert items[..1][..0] == [] && LiteCommit(lite, 0, []) == (lite, None);
    }
    assert LiteCommitLine(first, 0, items[1]).Failure?;
    FailedOrderUnchangedExactly(lite, 0, items);
  }
}
