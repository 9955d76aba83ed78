/** Stock with reservations that expire: the Postgres repository, the SQLite store, and what they share.

    A product is a (merchant, SKU) pair with one inventory row. Reservations are kept in creation
    order, which is the order both stores search them in; an id is a position in that list. */
module Stock {
  import opened Results
  import opened Sums
  import opened Catalog

  type Product = nat

  datatype Status = Held | Released | Consumed

  datatype Reservation = Reservation(product: Product, qty: Qty, expiresAt: int, status: Status)

  datatype Item = Item(product: Product, qty: Qty)

  datatype StockError = InsufficientStock(product: Product) | CheckViolation | NotFound

  // ---------------------------------------------------------------- reservations

  function HeldQty(product: Product): Reservation -> int {
    (r: Reservation) => if r.product == product && r.status.Held? then r.qty else 0
  }

  function HeldSum(rs: seq<Reservation>, product: Product): int {
    SumBy(rs, HeldQty(product))
  }

  predicate Usable(r: Reservation, product: Product, now: int) {
    r.status.Held? && r.product == product && r.expiresAt > now
  }

  /** The oldest usable reservation of `product` at or after position `k`. */
  function FirstUsable(rs: seq<Reservation>, product: Product, now: int, k: nat): (r: Option<nat>)
    requires k <= |rs|
    ensures r.Some? ==> k <= r.value < |rs| && Usable(rs[r.value], product, now)
    decreases |rs| - k
  {
    if k == |rs| then None
    else if Usable(rs[k], product, now) then Some(k)
    else FirstUsable(rs, product, now, k + 1)
  }

  predicate Expired(r: Reservation, now: int) {
    r.status.Held? && r.expiresAt <= now
  }

  lemma {:induction false} HeldSumNonNegative(rs: seq<Reservation>, product: Product)
    ensures HeldSum(rs, product) >= 0
  {
    if rs != [] {
      HeldSumNonNegative(rs[1..], product);
    }
  }

  /** A held reservation is part of the held sum. */
  lemma HeldWithinSum(rs: seq<Reservation>, id: nat)
    requires id < |rs| && rs[id].status.Held?
    ensures rs[id].qty <= HeldSum(rs, rs[id].product)
  {
    SumByMiddle(rs, id, HeldQty(rs[id].product));
    HeldSumNonNegative(rs[..id], rs[id].product);
    HeldSumNonNegative(rs[id + 1..], rs[id].product);
  }

  lemma CloseReservation(rs: seq<Reservation>, id: nat, status: Status, product: Product)
    requires id < |rs| && rs[id].status.Held? && !status.Held?
    ensures HeldSum(rs[id := rs[id].(status := status)], product) ==
            HeldSum(rs, product) - if rs[id].product == product then rs[id].qty else 0
  {
    SumByUpdate(rs, id, rs[id].(status := status), HeldQty(product));
  }

  // ---------------------------------------------------------------- Postgres

  datatype Row = Row(physical: int, reserved: int, available: int)

  datatype MovementType = StockIn | Sale | Reserve | ReservationRelease | ManualAdjustment | Waste | Return

  datatype Movement = Movement(product: Product, kind: MovementType, delta: int)

  datatype Pg = Pg(rows: map<Product, Row>, reservations: seq<Reservation>, movements: seq<Movement>)

  /** The CHECK constraints of the inventory table. */
  predicate RowOk(row: Row) {
    row.available >= 0 && row.reserved >= 0 && row.available == row.physical - row.reserved
  }

  /** An UPDATE of one row; a row that violates a constraint aborts the transaction. */
  function PutRow(s: Pg, p: Product, row: Row): Result<Pg, StockError> {
    if !RowOk(row) then Failure(CheckViolation)
    else
      Success(s.(rows := s.rows[p := row]))
  }

  function Log(s: Pg, m: Movement): Pg {
    s.(movements := s.movements + [m])
  }

  function PgReserve(s: Pg, p: Product, qty: Qty, expiresAt: int): Result<Pg, StockError> {
    if !(p in s.rows && s.rows[p].available >= qty) then Failure(InsufficientStock(p))
    else
      var row := s.rows[p];
      var t :- PutRow(s, p, row.(reserved := row.reserved + qty, available := row.available - qty));
      Success(Log(t.(reservations := t.reservations + [Reservation(p, qty, expiresAt, Held)]), Movement(p, Reserve, 0 - qty)))
  }

  /** One transaction of the expiry worker; a reservation that is no longer held is left alone. */
  function PgReleaseOne(s: Pg, id: nat): Result<Pg, StockError> {
    if id >= |s.reservations| || !s.reservations[id].status.Held? then Success(s)
    else
      var r := s.reservations[id];
      :- Need(r.product in s.rows, NotFound);
      var row := s.rows[r.product];
      var t :- PutRow(s, r.product, row.(reserved := row.reserved - r.qty, available := row.available + r.qty));
      Success(Log(t.(reservations := t.reservations[id := r.(status := Released)]), Movement(r.product, ReservationRelease, r.qty)))
  }

  /** The expiry worker from position `k` on. */
  function PgReleaseFrom(s: Pg, now: int, k: nat): Result<Pg, StockError>
    requires k <= |s.reservations|
    ensures PgReleaseFrom(s, now, k).Success? ==> |PgReleaseFrom(s, now, k).value.reservations| == |s.reservations|
    decreases |s.reservations| - k
  {
    if k == |s.reservations| then Success(s)
    else if Expired(s.reservations[k], now) then
      var t :- PgReleaseOne(s, k);
      PgReleaseFrom(t, now, k + 1)
    else PgReleaseFrom(s, now, k + 1)
  }

  /** One line of an order: consume the oldest usable reservation if it is large enough, else take from available. */
  function PgCommitLine(s: Pg, now: int, item: Item): Result<Pg, StockError> {
    if item.product !in s.rows then Failure(InsufficientStock(item.product))
    else
      var row := s.rows[item.product];
      var held := FirstUsable(s.reservations, item.product, now, 0);
      if held.Some? && s.reservations[held.value].qty >= item.qty then
        var r := s.reservations[held.value];
        var t :- PutRow(s, item.product, Row(row.physical - item.qty, row.reserved - r.qty, row.available + (r.qty - item.qty)));
        Success(Log(t.(reservations := t.reservations[held.value := r.(status := Consumed)]), Movement(item.product, Sale, 0 - item.qty)))
      else
        :- Need(row.available >= item.qty, InsufficientStock(item.product));
        var t :- PutRow(s, item.product, row.(physical := row.physical - item.qty, available := row.available - item.qty));
        Success(Log(t, Movement(item.product, Sale, 0 - item.qty)))
  }

  function PgCommit(s: Pg, now: int, items: seq<Item>): Result<Pg, StockError> {
    if items == [] then Success(s)
    else
      var t :- PgCommit(s, now, items[..|items| - 1]);
      PgCommitLine(t, now, items[|items| - 1])
  }

  function PgRestockLine(s: Pg, item: Item): Result<Pg, StockError> {
    if item.product !in s.rows then Success(s)
    else
      var row := s.rows[item.product];
      var t :- PutRow(s, item.product, row.(physical := row.physical + item.qty, available := row.available + item.qty));
      Success(Log(t, Movement(item.product, Return, item.qty)))
  }

  function PgRestock(s: Pg, items: seq<Item>): Result<Pg, StockError> {
    if items == [] then Success(s)
    else
      var t :- PgRestock(s, items[..|items| - 1]);
      PgRestockLine(t, items[|items| - 1])
  }

  function PgAdjust(s: Pg, p: Product, delta: int, kind: MovementType): Result<Pg, StockError> {
    if p !in s.rows then Failure(NotFound)
    else
      var row := s.rows[p];
      var t :- PutRow(s, p, row.(physical := row.physical + delta, available := row.available + delta));
      Success(Log(t, Movement(p, kind, delta)))
  }

  // ---------------------------------------------------------------- SQLite

  datatype Lite = Lite(stock: map<Product, int>, reservations: seq<Reservation>)

  function LiteReserve(s: Lite, p: Product, qty: Qty, expiresAt: int): Result<Lite, StockError> {
    if !(p in s.stock && s.stock[p] >= qty) then Failure(InsufficientStock(p))
    else
      Success(Lite(s.stock[p := s.stock[p] - qty], s.reservations + [Reservation(p, qty, expiresAt, Held)]))
  }

  /** An UPDATE that matches no row changes nothing. */
  function AddStock(stock: map<Product, int>, p: Product, qty: int): map<Product, int> {
    if p in stock then stock[p := stock[p] + qty] else stock
  }

  function LiteReleaseFrom(s: Lite, now: int, k: nat): Lite
    requires k <= |s.reservations|
    ensures |LiteReleaseFrom(s, now, k).reservations| == |s.reservations|
    decreases |s.reservations| - k
  {
    if k == |s.reservations| then s
    else if Expired(s.reservations[k], now) then
      var r := s.reservations[k];
      LiteReleaseFrom(Lite(AddStock(s.stock, r.product, r.qty), s.reservations[k := r.(status := Released)]), now, k + 1)
    else LiteReleaseFrom(s, now, k + 1)
  }

  function LiteCommitLine(s: Lite, now: int, item: Item): Result<Lite, StockError> {
    var held := FirstUsable(s.reservations, item.product, now, 0);
    if held.Some? && s.reservations[held.value].qty >= item.qty then
      var r := s.reservations[held.value];
      Success(Lite(AddStock(s.stock, item.product, r.qty - item.qty), s.reservations[held.value := r.(status := Consumed)]))
    else
      :- Need(item.product in s.stock && s.stock[item.product] >= item.qty, InsufficientStock(item.product));
      Success(s.(stock := s.stock[item.product := s.stock[item.product] - item.qty]))
  }

  /** The tables after a commit, and the error if it stopped early: there is no rollback. */
  function LiteCommit(s: Lite, now: int, items: seq<Item>): (Lite, Option<StockError>) {
    if items == [] then (s, None)
    else
      var (t, stopped) := LiteCommit(s, now, items[..|items| - 1]);
      if stopped.Some? then (t, stopped)
      else
        match LiteCommitLine(t, now, items[|items| - 1])
        case Success(u) => (u, None)
        case Failure(e) => (t, Some(e))
  }

  function LiteRestock(s: Lite, items: seq<Item>): Lite {
    if items == [] then s
    else
      var t := LiteRestock(s, items[..|items| - 1]);
      t.(stock := AddStock(t.stock, items[|items| - 1].product, items[|items| - 1].qty))
  }
}
