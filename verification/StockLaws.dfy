/** What each stock operation means for the units of a product, its reservations and its log, with every
    condition written out. */
module StockLaws {
  import opened Results
  import opened Sums
  import opened Catalog
  import opened Stock

  /** Open reservations whose time is over. */
  function Overdue(p: Product, now: int): Reservation -> int {
    (r: Reservation) => if r.product == p && r.status == Held && r.expiresAt <= now then r.qty else 0
  }

  /** Exactly the held reservations that are over end released, and no other reservation changes. */
  ghost predicate ReleasedExactly(before: seq<Reservation>, after: seq<Reservation>, now: int, from: nat) {
    && |after| == |before|
    && forall k :: 0 <= k < |before| ==>
         after[k] == if k >= from && before[k].status == Held && before[k].expiresAt <= now then before[k].(status := Released) else before[k]
  }

  lemma {:induction false} LiteReleaseExactly(s: Lite, now: int, k: nat)
    requires k <= |s.reservations|
    ensures var t := LiteReleaseFrom(s, now, k);
            && ReleasedExactly(s.reservations, t.reservations, now, k) && t.stock.Keys == s.stock.Keys
            && forall p :: p in s.stock ==> t.stock[p] == s.stock[p] + SumBy(s.reservations[k..], Overdue(p, now))
    decreases |s.reservations| - k
  {
    if k < |s.reservations| {
      var r := s.reservations[k];
      assert s.reservations[k..] == [r] + s.reservations[k + 1..];
      var next := if Expired(r, now) then Lite(AddStock(s.stock, r.product, r.qty), s.reservations[k := r.(status := Released)]) else s;
      LiteReleaseExactly(next, now, k + 1);
      assert next.reservations[k + 1..] == s.reservations[k + 1..];
    }
  }

  lemma PgReleaseOneWrites(s: Pg, id: nat)
    requires id < |s.reservations| && s.reservations[id].status == Held && PgReleaseOne(s, id).Success?
    ensures var r, t := s.reservations[id], PgReleaseOne(s, id).value;
            && r.product in s.rows && t.reservations == s.reservations[id := r.(status := Released)]
            && t.rows == s.rows[r.product := Row(s.rows[r.product].physical, s.rows[r.product].reserved - r.qty, s.rows[r.product].available + r.qty)]
            && t.movements == s.movements + [Movement(r.product, ReservationRelease, r.qty)]
  {
  }

  lemma {:induction false} PgReleaseExactly(s: Pg, now: int, k: nat)
    requires k <= |s.reservations| && PgReleaseFrom(s, now, k).Success?
    ensures var t := PgReleaseFrom(s, now, k).value;
            && ReleasedExactly(s.reservations, t.reservations, now, k) && t.rows.Keys == s.rows.Keys
            && (forall p :: p in s.rows ==> t.rows[p].physical == s.rows[p].physical
                                            && t.rows[p].available == s.rows[p].available + SumBy(s.reservations[k..], Overdue(p, now)))
    decreases |s.reservations| - k
  {
    if k < |s.reservations| {
      var r := s.reservations[k];
      assert s.reservations[k..] == [r] + s.reservations[k + 1..];
      var next := s;
      if Expired(r, now) {
        PgReleaseOneWrites(s, k);
        next := PgReleaseOne(s, k).value;
      }
      PgReleaseExactly(next, now, k + 1);
      assert next.reservations[k + 1..] == s.reservations[k + 1..];
    }
  }

  /** The expiry worker, in either store: reservation by reservation, and for the free units of every product. */
  lemma {:induction false} ExpiryWorker(lite: Lite, pg: Pg, now: int)
    requires PgReleaseFrom(pg, now, 0).Success?
    ensures var t := LiteReleaseFrom(lite, now, 0);
            && ReleasedExactly(lite.reservations, t.reservations, now, 0)
            && forall p :: p in lite.stock ==> p in t.stock && t.stock[p] == lite.stock[p] + SumBy(lite.reservations, Overdue(p, now))
    ensures var t := PgReleaseFrom(pg, now, 0).value;
            && ReleasedExactly(pg.reservations, t.reservations, now, 0)
            && forall p :: p in pg.rows ==> p in t.rows && t.rows[p].available == pg.rows[p].available + SumBy(pg.reservations, Overdue(p, now))
  {
    LiteReleaseExactly(lite, now, 0);
    PgReleaseExactly(pg, now, 0);
    assert lite.reservations[0..] == lite.reservations && pg.reservations[0..] == pg.reservations;
  }

  // ---------------------------------------------------------------- one line of an order

  /** The oldest held reservation of the product that is not over yet. */
  ghost predicate Oldest(rs: seq<Reservation>, p: Product, now: int, k: nat) {
    && k < |rs| && rs[k].status == Held && rs[k].product == p && now < rs[k].expiresAt
    && forall j :: 0 <= j < k ==> !(rs[j].status == Held && rs[j].product == p && now < rs[j].expiresAt)
  }

  lemma {:induction false} FirstUsableIsOldest(rs: seq<Reservation>, p: Product, now: int, k: nat)
    requires k <= |rs| && forall j :: 0 <= j < k ==> !(rs[j].status == Held && rs[j].product == p && now < rs[j].expiresAt)
    ensures match FirstUsable(rs, p, now, k)
            case Some(h) => Oldest(rs, p, now, h)
            case None => forall h: nat :: !Oldest(rs, p, now, h)
    decreases |rs| - k
  {
    if k < |rs| && !Usable(rs[k], p, now) {
      FirstUsableIsOldest(rs, p, now, k + 1);
    }
  }

  lemma OldestIsUnique(rs: seq<Reservation>, p: Product, now: int, h: nat, k: nat)
    requires Oldest(rs, p, now, h) && Oldest(rs, p, now, k)
    ensures h == k
  {
  }

  /** A line takes its oldest open reservation if that is large enough, giving the rest of it back, and
      otherwise free units; it fails exactly when neither is there. */
  lemma LiteLineExactly(s: Lite, now: int, item: Item, k: nat)
    ensures LiteCommitLine(s, now, item).Success? <==>
              (exists h: nat :: Oldest(s.reservations, item.product, now, h) && item.qty <= s.reservations[h].qty)
              || (item.product in s.stock && item.qty <= s.stock[item.product])
    ensures Oldest(s.reservations, item.product, now, k) && item.qty <= s.reservations[k].qty && item.product in s.stock ==>
              LiteCommitLine(s, now, item) ==
              Success(Lite(s.stock[item.product := s.stock[item.product] + s.reservations[k].qty - item.qty],
                           s.reservations[k := s.reservations[k].(status := Consumed)]))
    ensures LiteCommitLine(s, now, item).Success?
            && (forall h: nat :: Oldest(s.reservations, item.product, now, h) ==> s.reservations[h].qty < item.qty) ==>
              LiteCommitLine(s, now, item) ==
              Success(Lite(s.stock[item.product := s.stock[item.product] - item.qty], s.reservations))
  {
    FirstUsableIsOldest(s.reservations, item.product, now, 0);
    var held := FirstUsable(s.reservations, item.product, now, 0);
    if held.Some? {
      forall h: nat | Oldest(s.reservations, item.product, now, h) ensures h == held.value {
        OldestIsUnique(s.reservations, item.product, now, h, held.value);
      }
    }
  }

  // ---------------------------------------------------------------- a reservation in time

  /** What is reserved stays reserved until its time: at any earlier clock the worker leaves it, and from it
      on gives exactly its units back. */
  lemma {:induction false} ReservationLasts(s: Lite, p: Product, qty: Qty, expiresAt: int, now: int)
    requires LiteReserve(s, p, qty, expiresAt).Success?
    ensures var t := LiteReserve(s, p, qty, expiresAt).value;
            var u := LiteReleaseFrom(t, now, 0);
            && |u.reservations| == |s.reservations| + 1 && p in u.stock && p in s.stock
            && u.reservations[|s.reservations|] == Reservation(p, qty, expiresAt, if now < expiresAt then Held else Released)
            && u.stock[p] == s.stock[p] + SumBy(s.reservations, Overdue(p, now)) - if now < expiresAt then qty else 0
  {
    var t := LiteReserve(s, p, qty, expiresAt).value;
    LiteReleaseExactly(t, now, 0);
    assert t.reservations[0..] == t.reservations;
    SumByAppend(s.reservations, Reservation(p, qty, expiresAt, Held), Overdue(p, now));
  }

  /** And in time it serves an order that finds no older one, whatever has become of the free units: they end
      as if only the order had been placed. */
  lemma ReservationServes(s: Lite, p: Product, qty: Qty, expiresAt: int, now: int, ordered: Qty)
    requires LiteReserve(s, p, qty, expiresAt).Success? && now < expiresAt && ordered <= qty
    requires forall h: nat :: !Oldest(s.reservations, p, now, h)
    ensures var t := LiteReserve(s, p, qty, expiresAt).value;
            && LiteCommitLine(t, now, Item(p, ordered)).Success? && p in s.stock
            && LiteCommitLine(t, now, Item(p, ordered)).value ==
               Lite(s.stock[p := s.stock[p] - ordered], s.reservations + [Reservation(p, qty, expiresAt, Consumed)])
  {
    var t := LiteReserve(s, p, qty, expiresAt).value;
    var k := |s.reservations|;
    NoneOpen(s.reservations, p, now);
    assert Oldest(t.reservations, p, now, k);
    LiteLineExactly(t, now, Item(p, ordered), k);
  }

  /** Without an oldest open reservation there is none at all. */
  lemma {:induction false} NoneOpen(rs: seq<Reservation>, p: Product, now: int)
    requires forall h: nat :: !Oldest(rs, p, now, h)
    ensures forall j :: 0 <= j < |rs| ==> !(rs[j].status == Held && rs[j].product == p && now < rs[j].expiresAt)
  {
    FirstUsableIsOldest(rs, p, now, 0);
    NoneUsable(rs, p, now, 0);
  }

  lemma {:induction false} NoneUsable(rs: seq<Reservation>, p: Product, now: int, k: nat)
    requires k <= |rs| && FirstUsable(rs, p, now, k).None?
    ensures forall j :: k <= j < |rs| ==> !(rs[j].status == Held && rs[j].product == p && now < rs[j].expiresAt)
    decreases |rs| - k
  {
    if k < |rs| {
      NoneUsable(rs, p, now, k + 1);
    }
  }

  // ---------------------------------------------------------------- the movement log

  /** What the Postgres operations write to the log; the worker logs a release, a line a sale. */
  lemma LoggedExactly(s: Pg, p: Product, qty: Qty, expiresAt: int, now: int, delta: int, kind: MovementType)
    ensures PgReserve(s, p, qty, expiresAt).Success? ==>
              PgReserve(s, p, qty, expiresAt).value.movements == s.movements + [Movement(p, Reserve, 0 - qty)]
              && PgReserve(s, p, qty, expiresAt).value.reservations == s.reservations + [Reservation(p, qty, expiresAt, Held)]
    ensures PgCommitLine(s, now, Item(p, qty)).Success? ==>
              PgCommitLine(s, now, Item(p, qty)).value.movements == s.movements + [Movement(p, Sale, 0 - qty)]
    ensures PgRestockLine(s, Item(p, qty)).Success? && p in s.rows ==>
              PgRestockLine(s, Item(p, qty)).value.movements == s.movements + [Movement(p, Return, qty)]
    ensures PgAdjust(s, p, delta, kind).Success? ==>
              PgAdjust(s, p, delta, kind).value.movements == s.movements + [Movement(p, kind, delta)]
  {
  }

  /** A manual adjustment goes through exactly for a row whose counters agree, with nothing reserved below
      zero and enough available for the change; it changes both counters alike. */
  lemma AdjustExactly(s: Pg, p: Product, delta: int, kind: MovementType)
    ensures PgAdjust(s, p, delta, kind).Success? <==>
              && p in s.rows && 0 <= s.rows[p].reserved && 0 <= s.rows[p].available + delta
              && s.rows[p].available == s.rows[p].physical - s.rows[p].reserved
    ensures PgAdjust(s, p, delta, kind).Success? ==>
              PgAdjust(s, p, delta, kind).value ==
              Pg(s.rows[p := Row(s.rows[p].physical + delta, s.rows[p].reserved, s.rows[p].available + delta)], s.reservations,
                 s.movements + [Movement(p, kind, delta)])
  {
  }
}
