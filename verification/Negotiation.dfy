/** When the negotiation ceiling holds over several rounds. Each round concedes half of the ceiling at
    most, but of the total that the round before has left. */
module Negotiation {
  import opened Results
  import opened Sums
  import opened Catalog
  import opened Pricing
  import opened Campaigns
  import opened Quoting

  function Pow(base: nat, n: nat): nat {
    if n == 0 then 1 else base * Pow(base, n - 1)
  }

  /** The bps that every round concedes. */
  function PerRound(m: Merchant, requested: int): int {
    AppliedBps(m, HalvedBps(m, requested), None)
  }

  /** What `n` rounds take is within the ceiling on the total before the first of them. */
  ghost predicate WithinCap(inv: Inventory, m: Merchant, b: Basket, requested: int, n: nat)
    requires Sound(inv, b)
  {
    b.total - Rounds(inv, m, b, requested, n).total <= ApplyBps(b.total, m.maxDiscountBps)
  }

  /** The shares left after `n` rounds multiply to no less than the share the ceiling leaves. */
  predicate LeavesEnough(m: Merchant, requested: int, n: nat)
    requires 0 <= m.maxDiscountBps <= 10_000
  {
    (10_000 - m.maxDiscountBps) * Pow(10_000, n) <= 10_000 * Pow(10_000 - PerRound(m, requested), n)
  }

  // ---------------------------------------------------------------- within the ceiling

  /** One round leaves at least its share of the total. */
  lemma RoundLeaves(inv: Inventory, b: Basket, bps: nat)
    requires Sound(inv, b) && b.total > 0 && bps <= 10_000
    ensures var s := SpreadSpec(inv, b.items, b.total, ApplyBps(b.total, bps)).value;
            && 0 <= s.total && AllStocked(inv, s.items) && s.total == BasketTotal(s.items) && AboveMinimum(inv, s.items)
            && 10_000 * s.total >= (10_000 - bps) * b.total && b.total - s.total <= ApplyBps(b.total, bps)
  {
    NegotiationTakesAtMost(inv, b, bps);
    SpreadTotalNonNegative(inv, b, ApplyBps(b.total, bps));
    assert 10_000 * ApplyBps(b.total, bps) <= b.total * bps;
  }

  lemma TimesAtMost(k: nat, x: int, y: int)
    requires x <= y
    ensures k * x <= k * y
  {
  }

  lemma Regroup(a: int, b: int, c: int)
    ensures (a * b) * c == b * (a * c) == a * (b * c)
  {
  }

  /** Two inequalities between products, multiplied. */
  lemma RoundsMultiply(x: nat, left: nat, all: nat, t: int, mid: int, last: int)
    requires x * t <= 10_000 * mid && left * mid <= all * last
    ensures (x * left) * t <= (10_000 * all) * last
  {
    TimesAtMost(left, x * t, 10_000 * mid);
    Regroup(x, left, t);
    Regroup(10_000, left, mid);
    Regroup(10_000, all, last);
  }

  lemma NextRound(inv: Inventory, m: Merchant, b: Basket, requested: int, n: nat) returns (next: Basket)
    requires Sound(inv, b) && b.total > 0 && n > 0 && 0 <= PerRound(m, requested) <= 10_000
    ensures Sound(inv, next) && (10_000 - PerRound(m, requested)) * b.total <= 10_000 * next.total
    ensures b.total - next.total <= ApplyBps(b.total, PerRound(m, requested))
    ensures Rounds(inv, m, b, requested, n) == Rounds(inv, m, next, requested, n - 1)
  {
    RoundLeaves(inv, b, PerRound(m, requested));
    var s := SpreadSpec(inv, b.items, b.total, ApplyBps(b.total, PerRound(m, requested))).value;
    next := Basket(s.items, s.total);
  }

  lemma {:induction false} RoundsLeave(inv: Inventory, m: Merchant, b: Basket, requested: int, n: nat)
    requires Sound(inv, b) && 0 <= PerRound(m, requested) <= 10_000
    ensures Pow(10_000 - PerRound(m, requested), n) * b.total <= Pow(10_000, n) * Rounds(inv, m, b, requested, n).total
    decreases n
  {
    var x := 10_000 - PerRound(m, requested);
    if n > 0 && b.total > 0 {
      var next := NextRound(inv, m, b, requested, n);
      RoundsLeave(inv, m, next, requested, n - 1);
      RoundsMultiply(x, Pow(x, n - 1), Pow(10_000, n - 1), b.total, next.total, Rounds(inv, m, next, requested, n - 1).total);
    }
  }

  /** Cancels a positive factor. */
  lemma Cancel(k: nat, x: int, y: int)
    requires k > 0 && k * x <= k * y
    ensures x <= y
  {
    if x > y {
      TimesAtMost(k, y + 1, x);
    }
  }

  lemma {:induction false} PowPositive(base: nat, n: nat)
    requires base > 0
    ensures Pow(base, n) > 0
  {
    if n > 0 {
      PowPositive(base, n - 1);
      TimesAtMost(base, 1, Pow(base, n - 1));
    }
  }

  lemma LastIsEnough(rest: int, all: nat, left: nat, t: nat, last: int)
    requires all > 0 && left * t <= all * last && rest * all <= 10_000 * left
    ensures rest * t <= 10_000 * last
  {
    TimesAtMost(t, rest * all, 10_000 * left);
    Regroup(rest, all, t);
    Regroup(10_000, left, t);
    Regroup(10_000, all, last);
    assert t * (rest * all) == (rest * all) * t && t * (10_000 * left) == (10_000 * left) * t;
    Cancel(all, rest * t, 10_000 * last);
  }

  /** A share kept is a bps not taken. */
  lemma KeptIsNotTaken(t: nat, cap: int, last: int)
    ensures t - last <= (t * cap) / 10_000 <==> (10_000 - cap) * t <= 10_000 * last
  {
    var x := t * cap;
    assert (10_000 - cap) * t == 10_000 * t - x;
    assert 10_000 * (x / 10_000) <= x < 10_000 * (x / 10_000) + 10_000;
  }

  lemma EnoughIsWithin(inv: Inventory, m: Merchant, b: Basket, requested: int, n: nat)
    requires 0 <= m.maxDiscountBps <= 10_000 && 0 <= PerRound(m, requested) <= 10_000
    requires Sound(inv, b) && LeavesEnough(m, requested, n)
    ensures WithinCap(inv, m, b, requested, n)
  {
    var last := Rounds(inv, m, b, requested, n).total;
    RoundsLeave(inv, m, b, requested, n);
    PowPositive(10_000, n);
    LastIsEnough(10_000 - m.maxDiscountBps, Pow(10_000, n), Pow(10_000 - PerRound(m, requested), n), b.total, last);
    KeptIsNotTaken(b.total, m.maxDiscountBps, last);
  }

  // ---------------------------------------------------------------- beyond the ceiling

  /** One article without a minimum price, priced so that every round comes out even. */
  function EvenInventory(): Inventory {
    map[0 := Stocked(1, 0, 1)]
  }

  function One(price: nat): Basket {
    Basket([QuoteItem(0, 1, price)], price)
  }

  lemma OneIsSound(price: nat)
    ensures Sound(EvenInventory(), One(price))
  {
    TotalOfOne(QuoteItem(0, 1, price));
  }

  lemma {:induction false} EvenRound(m: Merchant, requested: int, price: nat, n: nat)
    requires 0 <= PerRound(m, requested) <= 10_000 && price > 0 && n > 0
    ensures Sound(EvenInventory(), One(10_000 * price)) && 0 <= (10_000 - PerRound(m, requested)) * price
    ensures Sound(EvenInventory(), One((10_000 - PerRound(m, requested)) * price))
    ensures Rounds(EvenInventory(), m, One(10_000 * price), requested, n) ==
            Rounds(EvenInventory(), m, One((10_000 - PerRound(m, requested)) * price), requested, n - 1)
  {
    var h := PerRound(m, requested);
    var before, asked := 10_000 * price, h * price;
    assert before * h == asked * 10_000;
    assert ApplyBps(before, h) == asked;
    TimesAtMost(price, h, 10_000);
    SpreadOfOne(EvenInventory(), before, asked);
    OneIsSound(before);
    OneIsSound((10_000 - h) * price);
    assert before - asked == (10_000 - h) * price;
  }

  lemma {:induction false} EvenRounds(m: Merchant, requested: int, n: nat, price: nat)
    requires 0 <= PerRound(m, requested) < 10_000 && price > 0
    ensures Pow(10_000, n) * price >= 0 && Sound(EvenInventory(), One(Pow(10_000, n) * price))
    ensures Rounds(EvenInventory(), m, One(Pow(10_000, n) * price), requested, n).total == Pow(10_000 - PerRound(m, requested), n) * price
    decreases n
  {
    MulPositive(Pow(10_000, n), price);
    OneIsSound(Pow(10_000, n) * price);
    if n > 0 {
      var x, all := 10_000 - PerRound(m, requested), Pow(10_000, n - 1);
      PowPositive(10_000, n - 1);
      MulPositive(all, price);
      Regroup(10_000, all, price);
      EvenRound(m, requested, all * price, n);
      MulPositive(x, price);
      Regroup(x, all, price);
      Regroup(x, Pow(x, n - 1), price);
      EvenRounds(m, requested, n - 1, x * price);
    }
  }

  lemma {:induction false} NotEnoughExceeds(m: Merchant, requested: int, n: nat)
    requires 0 <= m.maxDiscountBps <= 10_000 && 0 <= PerRound(m, requested) < 10_000 && !LeavesEnough(m, requested, n)
    ensures var b := One(Pow(10_000, n));
            Sound(EvenInventory(), b) && !WithinCap(EvenInventory(), m, b, requested, n)
  {
    EvenRounds(m, requested, n, 1);
    assert Pow(10_000, n) * 1 == Pow(10_000, n);
    KeptIsNotTaken(Pow(10_000, n), m.maxDiscountBps, Pow(10_000 - PerRound(m, requested), n));
  }

  // ---------------------------------------------------------------- the exact condition

  lemma HalfOfCap(m: Merchant, requested: int)
    requires 0 <= m.maxDiscountBps
    ensures 0 <= 2 * PerRound(m, requested) <= m.maxDiscountBps
  {
  }

  /** The ceiling holds over `n` rounds for every basket, at whatever prices and minimums, if and only if
      the shares the rounds leave multiply to at least the share that the ceiling leaves. */
  lemma CapHoldsExactly(m: Merchant, requested: int, n: nat)
    requires 0 <= m.maxDiscountBps <= 10_000
    ensures (forall inv: Inventory, b: Basket :: Sound(inv, b) ==> WithinCap(inv, m, b, requested, n)) <==> LeavesEnough(m, requested, n)
  {
    HalfOfCap(m, requested);
    if LeavesEnough(m, requested, n) {
      forall inv: Inventory, b: Basket | Sound(inv, b) ensures WithinCap(inv, m, b, requested, n) {
        EnoughIsWithin(inv, m, b, requested, n);
      }
    } else {
      NotEnoughExceeds(m, requested, n);
      assert !WithinCap(EvenInventory(), m, One(Pow(10_000, n)), requested, n);
    }
  }

  // ---------------------------------------------------------------- at a given total

  /** What `n` rounds leave of a total when nothing is lost to rounding or minimums: each takes its whole
      floored share. */
  function Left(bps: nat, total: nat, n: nat): nat
    requires bps <= 10_000
    decreases n
  {
    if n == 0 then total else ShareFits(bps, total); Left(bps, total - ApplyBps(total, bps), n - 1)
  }

  lemma ShareFits(bps: nat, total: nat)
    requires bps <= 10_000
    ensures 0 <= ApplyBps(total, bps) <= total
  {
    TimesAtMost(total, bps, 10_000);
    BpsNonNegative(total, bps);
  }

  /** A larger total leaves more. */
  lemma RoundMonotone(bps: nat, a: nat, b: nat)
    requires bps <= 10_000 && a <= b
    ensures a - ApplyBps(a, bps) <= b - ApplyBps(b, bps)
  {
    var x, y := a * bps, b * bps;
    assert y == x + (b - a) * bps;
    TimesAtMost(b - a, bps, 10_000);
    assert y <= x + (b - a) * 10_000;
  }

  lemma {:induction false} LeftMonotone(bps: nat, a: nat, b: nat, n: nat)
    requires bps <= 10_000 && a <= b
    ensures Left(bps, a, n) <= Left(bps, b, n)
    decreases n
  {
    if n > 0 {
      ShareFits(bps, a);
      ShareFits(bps, b);
      RoundMonotone(bps, a, b);
      LeftMonotone(bps, a - ApplyBps(a, bps), b - ApplyBps(b, bps), n - 1);
    }
  }

  lemma {:induction false} LeftOfNothing(bps: nat, n: nat)
    requires bps <= 10_000
    ensures Left(bps, 0, n) == 0
  {
    if n > 0 {
      LeftOfNothing(bps, n - 1);
    }
  }

  lemma {:induction false} RoundsLeaveAtLeast(inv: Inventory, m: Merchant, b: Basket, requested: int, n: nat)
    requires Sound(inv, b) && 0 <= PerRound(m, requested) <= 10_000
    ensures Left(PerRound(m, requested), b.total, n) <= Rounds(inv, m, b, requested, n).total
    decreases n
  {
    var h := PerRound(m, requested);
    if b.total == 0 {
      LeftOfNothing(h, n);
    } else if n > 0 {
      var next := NextRound(inv, m, b, requested, n);
      ShareFits(h, b.total);
      RoundsLeaveAtLeast(inv, m, next, requested, n - 1);
      LeftMonotone(h, b.total - ApplyBps(b.total, h), next.total, n - 1);
    }
  }

  /** One article without a minimum gives exactly that. */
  lemma {:induction false} OneLeaves(m: Merchant, requested: int, price: nat, n: nat)
    requires 0 <= PerRound(m, requested) <= 10_000
    ensures Sound(EvenInventory(), One(price))
    ensures Rounds(EvenInventory(), m, One(price), requested, n).total == Left(PerRound(m, requested), price, n)
    decreases n
  {
    var h := PerRound(m, requested);
    OneIsSound(price);
    if price == 0 {
      LeftOfNothing(h, n);
    } else if n > 0 {
      ShareFits(h, price);
      SpreadOfOne(EvenInventory(), price, ApplyBps(price, h));
      OneLeaves(m, requested, price - ApplyBps(price, h), n - 1);
    }
  }

  /** The exact condition at a given total, such as any amount the program can represent: the ceiling holds
      over `n` rounds for every basket of that total if and only if it holds for the total alone. */
  lemma {:induction false} CapHoldsAtTotal(m: Merchant, requested: int, n: nat, total: nat)
    requires 0 <= m.maxDiscountBps <= 10_000
    ensures 0 <= PerRound(m, requested) <= 10_000
    ensures (forall inv: Inventory, b: Basket :: Sound(inv, b) && b.total == total ==> WithinCap(inv, m, b, requested, n))
            <==> total - Left(PerRound(m, requested), total, n) <= ApplyBps(total, m.maxDiscountBps)
  {
    HalfOfCap(m, requested);
    OneLeaves(m, requested, total, n);
    if total - Left(PerRound(m, requested), total, n) <= ApplyBps(total, m.maxDiscountBps) {
      forall inv: Inventory, b: Basket | Sound(inv, b) && b.total == total ensures WithinCap(inv, m, b, requested, n) {
        RoundsLeaveAtLeast(inv, m, b, requested, n);
      }
    } else {
      assert !WithinCap(EvenInventory(), m, One(total), requested, n);
    }
  }

  /** So two rounds never exceed it, whoever the merchant is and whatever is asked. */
  lemma TwoRoundsStayWithin(inv: Inventory, m: Merchant, b: Basket, requested: int)
    requires 0 <= m.maxDiscountBps <= 10_000 && Sound(inv, b)
    ensures WithinCap(inv, m, b, requested, 2)
  {
    var h, cap := PerRound(m, requested), m.maxDiscountBps;
    HalfOfCap(m, requested);
    var x := 10_000 - h;
    assert Pow(x, 2) == x * Pow(x, 1) == x * (x * 1);
    assert Pow(10_000, 1) == 10_000 * Pow(10_000, 0) == 10_000;
    assert Pow(10_000, 2) == 10_000 * Pow(10_000, 1) == 100_000_000;
    assert x * x == 100_000_000 - 20_000 * h + h * h;
    assert h * h >= 0;
    EnoughIsWithin(inv, m, b, requested, 2);
  }
}
