/** What every reachable Postgres stock state satisfies. */
module StockInvariant {
  import opened Results
  import opened Sums
  import opened Catalog
  import opened Stock

  /** The movements that change how much physically exists. */
  function PhysicalDelta(p: Product): Movement -> int {
    (m: Movement) => if m.product == p && !m.kind.Reserve? && !m.kind.ReservationRelease? then m.delta else 0
  }

  /** For one product: the counters agree with each other, with the held reservations and, given the
      initial stock, with the movement log. */
  ghost predicate ProductOk(s: Pg, initial: map<Product, int>, p: Product)
    requires p in s.rows && p in initial
  {
    && RowOk(s.rows[p])
    && s.rows[p].reserved == HeldSum(s.reservations, p)
    && s.rows[p].physical == initial[p] + SumBy(s.movements, PhysicalDelta(p))
  }

  ghost predicate StockOk(s: Pg, initial: map<Product, int>) {
    && s.rows.Keys == initial.Keys
    && (forall k :: 0 <= k < |s.reservations| ==> s.reservations[k].product in s.rows)
    && (forall p :: p in initial ==> p in s.rows && ProductOk(s, initial, p))
  }

  /** Nothing reserved and nothing logged yet. */
  ghost predicate Opening(s: Pg, initial: map<Product, int>) {
    && s.reservations == [] && s.movements == [] && s.rows.Keys == initial.Keys
    && forall p :: p in s.rows ==> s.rows[p] == Row(initial[p], 0, initial[p]) && initial[p] >= 0
  }

  // ---------------------------------------------------------------- each transaction keeps it and meets no constraint

  lemma {:induction false} LogEffect(movements: seq<Movement>, m: Movement, p: Product)
    ensures SumBy(movements + [m], PhysicalDelta(p)) == SumBy(movements, PhysicalDelta(p)) + PhysicalDelta(p)(m)
  {
    SumByAppend(movements, m, PhysicalDelta(p));
  }

  lemma ReserveOk(s: Pg, initial: map<Product, int>, p: Product, qty: Qty, expiresAt: int)
    requires StockOk(s, initial)
    ensures match PgReserve(s, p, qty, expiresAt)
            case Success(t) => StockOk(t, initial)
            case Failure(e) => e == InsufficientStock(p) && (p !in s.rows || s.rows[p].available < qty)
  {
    if p in s.rows && s.rows[p].available >= qty {
      HeldSumNonNegative(s.reservations, p);
      var t := PgReserve(s, p, qty, expiresAt).value;
      forall q | q in initial ensures ProductOk(t, initial, q) {
        assert ProductOk(s, initial, q);
        SumByAppend(s.reservations, Reservation(p, qty, expiresAt, Held), HeldQty(q));
        LogEffect(s.movements, Movement(p, Reserve, 0 - qty), q);
      }
    }
  }

  lemma ReleaseOneOk(s: Pg, initial: map<Product, int>, id: nat)
    requires StockOk(s, initial)
    ensures PgReleaseOne(s, id).Success? && StockOk(PgReleaseOne(s, id).value, initial)
    ensures |PgReleaseOne(s, id).value.reservations| == |s.reservations|
  {
    if id < |s.reservations| && s.reservations[id].status.Held? {
      var r := s.reservations[id];
      assert ProductOk(s, initial, r.product);
      HeldWithinSum(s.reservations, id);
      var t := PgReleaseOne(s, id).value;
      forall q | q in initial ensures ProductOk(t, initial, q) {
        assert ProductOk(s, initial, q);
        CloseReservation(s.reservations, id, Released, q);
        LogEffect(s.movements, Movement(r.product, ReservationRelease, r.qty), q);
      }
    }
  }

  lemma {:induction false} ReleaseExpiredOk(s: Pg, initial: map<Product, int>, now: int, k: nat)
    requires StockOk(s, initial) && k <= |s.reservations|
    ensures PgReleaseFrom(s, now, k).Success? && StockOk(PgReleaseFrom(s, now, k).value, initial)
    decreases |s.reservations| - k
  {
    if k < |s.reservations| {
      if Expired(s.reservations[k], now) {
        ReleaseOneOk(s, initial, k);
        ReleaseExpiredOk(PgReleaseOne(s, k).value, initial, now, k + 1);
      } else {
        ReleaseExpiredOk(s, initial, now, k + 1);
      }
    }
  }

  /** A transaction that rewrites one row, its reservations and one movement consistently. */
  lemma UpdateOk(s: Pg, initial: map<Product, int>, p: Product, row: Row, reservations: seq<Reservation>, m: Movement)
    requires StockOk(s, initial) && p in s.rows && RowOk(row) && m.product == p
    requires row.reserved == HeldSum(reservations, p) && row.physical == s.rows[p].physical + PhysicalDelta(p)(m)
    requires forall q :: q in initial && q != p ==> HeldSum(reservations, q) == HeldSum(s.reservations, q)
    requires forall k :: 0 <= k < |reservations| ==> reservations[k].product in s.rows
    ensures StockOk(Pg(s.rows[p := row], reservations, s.movements + [m]), initial)
  {
    var t := Pg(s.rows[p := row], reservations, s.movements + [m]);
    forall q | q in initial ensures ProductOk(t, initial, q) {
      assert ProductOk(s, initial, q);
      LogEffect(s.movements, m, q);
    }
  }

  /** What a line of an order writes, in each of its branches. */
  function AfterLine(s: Pg, item: Item, held: Option<nat>): Pg
    requires item.product in s.rows && (held.Some? ==> held.value < |s.reservations|)
  {
    var row, sale := s.rows[item.product], Movement(item.product, Sale, 0 - item.qty);
    if held.Some? then
      var r := s.reservations[held.value];
      Pg(s.rows[item.product := Row(row.physical - item.qty, row.reserved - r.qty, row.available + (r.qty - item.qty))],
         s.reservations[held.value := r.(status := Consumed)], s.movements + [sale])
    else
      Pg(s.rows[item.product := row.(physical := row.physical - item.qty, available := row.available - item.qty)],
         s.reservations, s.movements + [sale])
  }

  /** Consuming a held reservation takes its quantity out of its product's held sum only. */
  lemma ConsumedSums(rs: seq<Reservation>, k: nat)
    requires k < |rs| && rs[k].status.Held?
    ensures forall q :: HeldSum(rs[k := rs[k].(status := Consumed)], q) == HeldSum(rs, q) - if q == rs[k].product then rs[k].qty else 0
    ensures HeldSum(rs, rs[k].product) >= rs[k].qty
  {
    HeldWithinSum(rs, k);
    forall q ensures HeldSum(rs[k := rs[k].(status := Consumed)], q) == HeldSum(rs, q) - if q == rs[k].product then rs[k].qty else 0 {
      CloseReservation(rs, k, Consumed, q);
    }
  }

  lemma CommitHeldOk(s: Pg, initial: map<Product, int>, item: Item, k: nat)
    requires StockOk(s, initial) && item.product in s.rows && k < |s.reservations|
    requires s.reservations[k].status.Held? && s.reservations[k].product == item.product && s.reservations[k].qty >= item.qty
    ensures RowOk(AfterLine(s, item, Some(k)).rows[item.product]) && Kept(AfterLine(s, item, Some(k)), initial)
  {
    var t := AfterLine(s, item, Some(k));
    assert ProductOk(s, initial, item.product);
    ConsumedSums(s.reservations, k);
    UpdateOk(s, initial, item.product, t.rows[item.product], t.reservations, Movement(item.product, Sale, 0 - item.qty));
  }

  lemma CommitFreshOk(s: Pg, initial: map<Product, int>, item: Item)
    requires StockOk(s, initial) && item.product in s.rows && s.rows[item.product].available >= item.qty
    ensures RowOk(AfterLine(s, item, None).rows[item.product]) && Kept(AfterLine(s, item, None), initial)
  {
    var t := AfterLine(s, item, None);
    assert ProductOk(s, initial, item.product);
    UpdateOk(s, initial, item.product, t.rows[item.product], t.reservations, Movement(item.product, Sale, 0 - item.qty));
  }

  ghost predicate Kept(t: Pg, initial: map<Product, int>) {
    StockOk(t, initial)
  }

  /** Consuming a reservation needs no stock check; taking from available stock does. */
  lemma {:induction false} CommitLineWrites(s: Pg, now: int, item: Item)
    requires item.product in s.rows
    ensures var held := FirstUsable(s.reservations, item.product, now, 0);
            var used := if held.Some? && s.reservations[held.value].qty >= item.qty then held else None;
            var after := AfterLine(s, item, used);
            PgCommitLine(s, now, item) ==
              if used.None? && s.rows[item.product].available < item.qty then Failure(InsufficientStock(item.product))
              else if RowOk(after.rows[item.product]) then Success(after) else Failure(CheckViolation)
  {
  }

  lemma {:induction false} CommitLineSucceeds(s: Pg, initial: map<Product, int>, now: int, item: Item, held: Option<nat>)
    requires StockOk(s, initial) && item.product in s.rows
    requires held == FirstUsable(s.reservations, item.product, now, 0)
    requires (held.Some? && s.reservations[held.value].qty >= item.qty) || s.rows[item.product].available >= item.qty
    ensures PgCommitLine(s, now, item).Success? && StockOk(PgCommitLine(s, now, item).value, initial)
  {
    CommitLineWrites(s, now, item);
    if held.Some? && s.reservations[held.value].qty >= item.qty {
      CommitHeldOk(s, initial, item, held.value);
    } else {
      CommitFreshOk(s, initial, item);
    }
  }

  lemma CommitLineOk(s: Pg, initial: map<Product, int>, now: int, item: Item)
    requires StockOk(s, initial)
    ensures match PgCommitLine(s, now, item)
            case Success(t) => StockOk(t, initial)
            case Failure(e) => e == InsufficientStock(item.product)
  {
    if item.product in s.rows {
      var held := FirstUsable(s.reservations, item.product, now, 0);
      if (held.Some? && s.reservations[held.value].qty >= item.qty) || s.rows[item.product].available >= item.qty {
        CommitLineSucceeds(s, initial, now, item, held);
      } else {
        CommitLineWrites(s, now, item);
      }
    }
  }

  lemma {:induction false} CommitOk(s: Pg, initial: map<Product, int>, now: int, items: seq<Item>)
    requires StockOk(s, initial)
    ensures match PgCommit(s, now, items)
            case Success(t) => StockOk(t, initial)
            case Failure(e) => e.InsufficientStock?
  {
    if items != [] {
      CommitOk(s, initial, now, items[..|items| - 1]);
      if PgCommit(s, now, items[..|items| - 1]).Success? {
        CommitLineOk(PgCommit(s, now, items[..|items| - 1]).value, initial, now, items[|items| - 1]);
      }
    }
  }

  lemma RestockLineOk(s: Pg, initial: map<Product, int>, item: Item)
    requires StockOk(s, initial)
    ensures PgRestockLine(s, item).Success? && StockOk(PgRestockLine(s, item).value, initial)
  {
    if item.product in s.rows {
      assert ProductOk(s, initial, item.product);
      var t := PgRestockLine(s, item).value;
      forall q | q in initial ensures ProductOk(t, initial, q) {
        assert ProductOk(s, initial, q);
        LogEffect(s.movements, Movement(item.product, Return, item.qty), q);
      }
    }
  }

  lemma {:induction false} RestockOk(s: Pg, initial: map<Product, int>, items: seq<Item>)
    requires StockOk(s, initial)
    ensures PgRestock(s, items).Success? && StockOk(PgRestock(s, items).value, initial)
  {
    if items != [] {
      RestockOk(s, initial, items[..|items| - 1]);
      RestockLineOk(PgRestock(s, items[..|items| - 1]).value, initial, items[|items| - 1]);
    }
  }

  /** A manual adjustment violates a constraint exactly when it would take more than is available. */
  lemma AdjustOk(s: Pg, initial: map<Product, int>, p: Product, delta: int, kind: MovementType)
    requires StockOk(s, initial) && !kind.Reserve? && !kind.ReservationRelease?
    ensures PgAdjust(s, p, delta, kind) == Failure(CheckViolation) <==> p in s.rows && s.rows[p].available + delta < 0
    ensures PgAdjust(s, p, delta, kind).Success? ==> StockOk(PgAdjust(s, p, delta, kind).value, initial)
  {
    if p in s.rows {
      assert ProductOk(s, initial, p);
      if PgAdjust(s, p, delta, kind).Success? {
        var t := PgAdjust(s, p, delta, kind).value;
        forall q | q in initial ensures ProductOk(t, initial, q) {
          assert ProductOk(s, initial, q);
          LogEffect(s.movements, Movement(p, kind, delta), q);
        }
      }
    }
  }

  // ---------------------------------------------------------------- runs

  datatype Op =
    | ReserveOp(p: Product, qty: Qty, expiresAt: int)
    | ReleaseOneOp(id: nat)
    | CommitOp(now: int, items: seq<Item>)
    | RestockOp(items: seq<Item>)
    | AdjustOp(p: Product, delta: int, kind: MovementType)

  /** One transaction. The expiry worker is a series of ReleaseOneOp, and may interleave with others. */
  function Apply(s: Pg, op: Op): Result<Pg, StockError> {
    match op
    case ReserveOp(p, qty, expiresAt) => PgReserve(s, p, qty, expiresAt)
    case ReleaseOneOp(id) => PgReleaseOne(s, id)
    case CommitOp(now, items) => PgCommit(s, now, items)
    case RestockOp(items) => PgRestock(s, items)
    case AdjustOp(p, delta, kind) => PgAdjust(s, p, delta, kind)
  }

  /** The three movement types an administrator can choose. */
  predicate Legal(op: Op) {
    op.AdjustOp? ==> op.kind.StockIn? || op.kind.ManualAdjustment? || op.kind.Waste?
  }

  /** A failed transaction rolls back. */
  function Run(s: Pg, ops: seq<Op>): Pg {
    if ops == [] then s
    else
      var t := Run(s, ops[..|ops| - 1]);
      match Apply(t, ops[|ops| - 1]) case Success(u) => u case Failure(_) => t
  }

  lemma ApplyOk(s: Pg, initial: map<Product, int>, op: Op)
    requires StockOk(s, initial) && Legal(op)
    ensures Apply(s, op).Success? ==> StockOk(Apply(s, op).value, initial)
    ensures Apply(s, op) == Failure(CheckViolation) ==>
              op.AdjustOp? && op.p in s.rows && s.rows[op.p].available + op.delta < 0
  {
    match op {
      case ReserveOp(p, qty, expiresAt) => ReserveOk(s, initial, p, qty, expiresAt);
      case ReleaseOneOp(id) => ReleaseOneOk(s, initial, id);
      case CommitOp(now, items) => CommitOk(s, initial, now, items);
      case RestockOp(items) => RestockOk(s, initial, items);
      case AdjustOp(p, delta, kind) => AdjustOk(s, initial, p, delta, kind);
    }
  }

  /** In every reachable state the counters, the held reservations and the movement log agree, and
      only an adjustment below zero can meet a CHECK constraint. */
  lemma {:induction false} ReachableStockOk(s: Pg, initial: map<Product, int>, ops: seq<Op>, next: Op)
    requires Opening(s, initial) && Legal(next) && forall k :: 0 <= k < |ops| ==> Legal(ops[k])
    ensures StockOk(Run(s, ops), initial)
    ensures Apply(Run(s, ops), next) == Failure(CheckViolation) ==>
              next.AdjustOp? && next.p in Run(s, ops).rows && Run(s, ops).rows[next.p].available + next.delta < 0
  {
    if ops == [] {
    } else {
      var last := ops[|ops| - 1];
      ReachableStockOk(s, initial, ops[..|ops| - 1], last);
      ApplyOk(Run(s, ops[..|ops| - 1]), initial, last);
    }
    ApplyOk(Run(s, ops), initial, next);
  }

  /** Product by product: what is available is what exists less what is held, nothing is below zero, and what
      exists is the opening stock with every movement but the reservations and their releases. */
  lemma {:induction false} CountersAgree(s: Pg, initial: map<Product, int>, ops: seq<Op>, p: Product)
    requires Opening(s, initial) && p in initial && forall k :: 0 <= k < |ops| ==> Legal(ops[k])
    ensures var t := Run(s, ops);
            && p in t.rows && t.rows[p].available == t.rows[p].physical - t.rows[p].reserved
            && 0 <= t.rows[p].reserved && 0 <= t.rows[p].available
            && t.rows[p].reserved == SumBy(t.reservations, HeldQty(p))
            && t.rows[p].physical == initial[p] + SumBy(t.movements, PhysicalDelta(p))
  {
    ReachableStockOk(s, initial, ops, RestockOp([]));
    assert ProductOk(Run(s, ops), initial, p);
  }
}
