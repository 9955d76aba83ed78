/** The session wallet's daily limit. The counter runs over a fixed window that a payment restarts once
    24 hours have passed, so what it bounds is not the spend of the last 24 hours. */
module SessionWallet {
  import opened Results
  import opened Sums

  const DAY := 86_400_000

  datatype WalletError = Frozen | LimitExceeded

  datatype Counter = Counter(spent: nat, resetAt: int, frozen: bool)

  /** What became of a transfer: refused, or landed at some moment before its bookkeeping. */
  datatype OnChain = Rejected | Landed(at: int)

  /** A transfer, at the time it landed. */
  datatype Transfer = Transfer(time: int, amount: nat)

  predicate Elapsed(c: Counter, now: int) {
    now - c.resetAt >= DAY
  }

  function Current(c: Counter, now: int): nat {
    if Elapsed(c, now) then 0 else c.spent
  }

  function Recorded(c: Counter, now: int, amount: nat): Counter {
    c.(spent := Current(c, now) + amount, resetAt := if Elapsed(c, now) then now else c.resetAt)
  }

  /** One payment: checked at `checkedAt` and, once it has landed, booked at `bookedAt`;
      `frozenMeanwhile` says whether the wallet was frozen in between, so that a transfer that has
      landed is not booked. */
  datatype Payment = Payment(checkedAt: int, bookedAt: int, amount: nat, chain: OnChain, frozenMeanwhile: bool)

  function PayStep(limit: nat, c: Counter, p: Payment): (Counter, Option<Transfer>) {
    if c.frozen || Current(c, p.checkedAt) + p.amount > limit then (c, None)
    else
      var frozen := c.(frozen := c.frozen || p.frozenMeanwhile);
      if p.chain.Rejected? then (frozen, None)
      else (if p.frozenMeanwhile then frozen else Recorded(c, p.bookedAt, p.amount), Some(Transfer(p.chain.at, p.amount)))
  }

  // ---------------------------------------------------------------- the wallet row

  class Wallet {
    var dailySpent: nat
    var resetAt: int
    var frozen: bool

    constructor (now: int)
      ensures View() == Counter(0, now, false)
    {
      dailySpent, resetAt, frozen := 0, now, false;
    }

    function View(): Counter
      reads this
    {
      Counter(dailySpent, resetAt, frozen)
    }

    method CurrentDailySpend(now: int) returns (spent: nat)
      ensures spent == Current(View(), now)
    {
      var windowElapsed := now - resetAt >= DAY;
      spent := if windowElapsed then 0 else dailySpent;
    }

    method RecordSpend(now: int, amount: nat) returns (r: Result<nat, WalletError>)
      modifies this
      ensures old(frozen) ==> r == Failure(Frozen) && View() == old(View())
      ensures !old(frozen) ==> View() == Recorded(old(View()), now, amount) && r == Success(dailySpent)
    {
      if frozen { return Failure(Frozen); }
      var windowElapsed := now - resetAt >= DAY;
      var base := if windowElapsed then 0 else dailySpent;
      dailySpent := base + amount;
      if windowElapsed {
        resetAt := now;
      }
      r := Success(dailySpent);
    }

    method Freeze()
      modifies this
      ensures View() == old(View()).(frozen := true)
    {
      frozen := true;
    }

    method Pay(limit: nat, p: Payment) returns (landed: Option<Transfer>)
      modifies this
      ensures (View(), landed) == PayStep(limit, old(View()), p)
    {
      if frozen { return None; }
      var spent := CurrentDailySpend(p.checkedAt);
      if spent + p.amount > limit { return None; }
      if p.frozenMeanwhile {
        Freeze();
      }
      match p.chain
      case Rejected =>
        landed := None;
      case Landed(at) =>
        landed := Some(Transfer(at, p.amount));
        var _ := RecordSpend(p.bookedAt, p.amount);
    }
  }

  // ---------------------------------------------------------------- runs

  /** A window of the counter, half-open: it begins with the first transfer past the end of the window
      before, and ends a day after the bookkeeping that restarted the counter. */
  datatype Window = Window(from: int, until: int)

  datatype State = State(counter: Counter, log: seq<Transfer>, windows: seq<Window>)

  /** The window a landed transfer opens, if the counter's own is over; the freeze can keep a restart
      out of the counter. */
  function Opened(c: Counter, p: Payment): seq<Window>
    requires p.chain.Landed?
  {
    if Elapsed(c, p.chain.at) then [Window(p.chain.at, p.bookedAt + DAY)]
    else if Elapsed(c, p.bookedAt) && !p.frozenMeanwhile then [Window(p.bookedAt, p.bookedAt + DAY)]
    else []
  }

  function Step(limit: nat, s: State, p: Payment): State {
    var (c, landed) := PayStep(limit, s.counter, p);
    if landed.None? then s.(counter := c)
    else State(c, s.log + [landed.value], s.windows + Opened(s.counter, p))
  }

  function Run(limit: nat, s: State, payments: seq<Payment>): State {
    if payments == [] then s
    else Step(limit, Run(limit, s, payments[..|payments| - 1]), payments[|payments| - 1])
  }

  function Opening(start: int): State {
    State(Counter(0, start, false), [], [Window(start, start + DAY)])
  }

  predicate InTime(p: Payment) {
    p.checkedAt <= p.bookedAt && (p.chain.Landed? ==> p.checkedAt <= p.chain.at <= p.bookedAt)
  }

  function End(start: int, payments: seq<Payment>): int {
    if payments == [] then start else payments[|payments| - 1].bookedAt
  }

  /** The payments of one account follow one another in time. */
  predicate Sequential(start: int, payments: seq<Payment>) {
    payments == [] ||
      var init, last := payments[..|payments| - 1], payments[|payments| - 1];
      Sequential(start, init) && InTime(last) && End(start, init) <= last.checkedAt
  }

  function Within(w: Window): Transfer -> int {
    (t: Transfer) => if w.from <= t.time < w.until then t.amount else 0
  }

  /** Amounts that landed in a window. */
  function SpentWithin(log: seq<Transfer>, w: Window): int {
    SumBy(log, Within(w))
  }

  /** The half-open day from `a`. */
  function Day(a: int): Window {
    Window(a, a + DAY)
  }

  // ---------------------------------------------------------------- windows

  /** The windows any run can have: the first begins with the account, each lasts a day or longer, and
      the next begins no earlier than it ends. */
  ghost predicate Admissible(start: int, windows: seq<Window>) {
    && |windows| > 0 && windows[0] == Day(start)
    && (forall i :: 0 <= i < |windows| ==> windows[i].until - windows[i].from >= DAY)
    && (forall i, j :: 0 <= i < j < |windows| ==> windows[i].until <= windows[j].from)
  }

  ghost predicate InSomeWindow(t: Transfer, windows: seq<Window>) {
    exists i :: 0 <= i < |windows| && windows[i].from <= t.time < windows[i].until
  }

  /** Every transfer lies in a window, every window holds at most the limit, and while the wallet is not
      frozen the counter covers what its own window holds. */
  ghost predicate Inv(limit: nat, start: int, s: State) {
    && Admissible(start, s.windows)
    && (forall t :: t in s.log ==> InSomeWindow(t, s.windows))
    && (forall i :: 0 <= i < |s.windows| ==> SpentWithin(s.log, s.windows[i]) <= limit)
    && (!s.counter.frozen ==>
          var last := s.windows[|s.windows| - 1];
          last.until == s.counter.resetAt + DAY && SpentWithin(s.log, last) <= s.counter.spent <= limit)
  }

  lemma {:induction false} NothingWithin(log: seq<Transfer>, w: Window)
    requires forall t :: t in log ==> !(w.from <= t.time < w.until)
    ensures SpentWithin(log, w) == 0
  {
    if log != [] {
      assert log[0] in log;
      NothingWithin(log[1..], w);
    }
  }

  /** All transfers of a valid state lie before the end of its last window. */
  lemma LogBeforeEnd(limit: nat, start: int, s: State, t: Transfer)
    requires Inv(limit, start, s) && t in s.log
    ensures t.time < s.windows[|s.windows| - 1].until
  {
    assert InSomeWindow(t, s.windows);
  }

  lemma StillInWindow(t: Transfer, windows: seq<Window>, more: seq<Window>)
    requires InSomeWindow(t, windows)
    ensures InSomeWindow(t, windows + more)
  {
    var i :| 0 <= i < |windows| && windows[i].from <= t.time < windows[i].until;
    assert (windows + more)[i] == windows[i];
  }

  /** A transfer that lands after the end of the last window opens the next. */
  lemma LandingOpens(limit: nat, start: int, s: State, t: Transfer, until: int, c: Counter)
    requires Inv(limit, start, s) && t.amount <= limit && until >= t.time + DAY
    requires s.windows[|s.windows| - 1].until <= t.time
    requires !c.frozen ==> c.resetAt + DAY == until && c.spent == t.amount
    ensures Inv(limit, start, State(c, s.log + [t], s.windows + [Window(t.time, until)]))
  {
    var w := Window(t.time, until);
    var next := State(c, s.log + [t], s.windows + [w]);
    forall u | u in next.log ensures InSomeWindow(u, next.windows) {
      if u in s.log {
        StillInWindow(u, s.windows, [w]);
      } else {
        assert next.windows[|s.windows|] == w;
      }
    }
    forall i | 0 <= i < |next.windows| ensures SpentWithin(next.log, next.windows[i]) <= if i == |s.windows| then t.amount else limit {
      SumByAppend(s.log, t, Within(next.windows[i]));
      if i == |s.windows| {
        forall u | u in s.log ensures u.time < w.from {
          LogBeforeEnd(limit, start, s, u);
        }
        NothingWithin(s.log, w);
      }
    }
  }

  /** A transfer that lands in the last window stays within what the counter left. */
  lemma LandingInside(limit: nat, start: int, s: State, t: Transfer, c: Counter)
    requires Inv(limit, start, s) && !s.counter.frozen && s.counter.spent + t.amount <= limit
    requires s.counter.resetAt <= t.time < s.counter.resetAt + DAY
    requires !c.frozen ==> c == s.counter.(spent := s.counter.spent + t.amount)
    ensures Inv(limit, start, State(c, s.log + [t], s.windows))
  {
    var last := s.windows[|s.windows| - 1];
    forall u | u in s.log + [t] ensures InSomeWindow(u, s.windows) {
      if u !in s.log {
        assert last.from <= u.time < last.until;
      }
    }
    forall i | 0 <= i < |s.windows|
      ensures SpentWithin(s.log + [t], s.windows[i]) == SpentWithin(s.log, s.windows[i]) + if i == |s.windows| - 1 then t.amount else 0
    {
      SumByAppend(s.log, t, Within(s.windows[i]));
    }
  }

  /** The restart of the counter by a transfer that still landed in the old window. */
  lemma RestartLater(limit: nat, start: int, s: State, t: Transfer, bookedAt: int)
    requires Inv(limit, start, s) && s.windows[|s.windows| - 1].until <= bookedAt && t in s.log && t.amount <= limit
    ensures Inv(limit, start, State(Counter(t.amount, bookedAt, false), s.log, s.windows + [Day(bookedAt)]))
  {
    var next := State(Counter(t.amount, bookedAt, false), s.log, s.windows + [Day(bookedAt)]);
    forall u | u in s.log ensures InSomeWindow(u, next.windows) && u.time < bookedAt {
      StillInWindow(u, s.windows, [Day(bookedAt)]);
      LogBeforeEnd(limit, start, s, u);
    }
    NothingWithin(s.log, Day(bookedAt));
  }

  /** A transfer that landed in the counter's day but was booked in the next one. */
  lemma LandedAcross(limit: nat, start: int, s: State, p: Payment)
    requires Inv(limit, start, s) && InTime(p) && s.counter.resetAt <= p.checkedAt && PayStep(limit, s.counter, p).1.Some?
    requires !Elapsed(s.counter, p.chain.at) && Elapsed(s.counter, p.bookedAt) && !p.frozenMeanwhile
    ensures Inv(limit, start, Step(limit, s, p))
  {
    var t := Transfer(p.chain.at, p.amount);
    var frozen := s.counter.(frozen := true);
    LandingInside(limit, start, s, t, frozen);
    RestartLater(limit, start, State(frozen, s.log + [t], s.windows), t, p.bookedAt);
    assert Step(limit, s, p) == State(Counter(p.amount, p.bookedAt, false), s.log + [t], s.windows + [Day(p.bookedAt)]);
  }

  lemma LandedKeepsInv(limit: nat, start: int, s: State, p: Payment)
    requires Inv(limit, start, s) && InTime(p) && s.counter.resetAt <= p.checkedAt
    requires PayStep(limit, s.counter, p).1.Some?
    ensures Inv(limit, start, Step(limit, s, p))
  {
    var t := Transfer(p.chain.at, p.amount);
    var c := PayStep(limit, s.counter, p).0;
    assert s.windows + [] == s.windows;
    if Elapsed(s.counter, t.time) {
      LandingOpens(limit, start, s, t, p.bookedAt + DAY, c);
    } else if Elapsed(s.counter, p.bookedAt) && !p.frozenMeanwhile {
      LandedAcross(limit, start, s, p);
    } else {
      LandingInside(limit, start, s, t, c);
    }
  }

  lemma StepKeepsInv(limit: nat, start: int, s: State, p: Payment)
    requires Inv(limit, start, s) && InTime(p) && (!s.counter.frozen ==> s.counter.resetAt <= p.checkedAt)
    ensures Inv(limit, start, Step(limit, s, p))
    ensures !Step(limit, s, p).counter.frozen ==> Step(limit, s, p).counter.resetAt <= p.bookedAt
  {
    if PayStep(limit, s.counter, p).1.Some? {
      LandedKeepsInv(limit, start, s, p);
    }
  }

  lemma {:induction false} RunKeepsInv(limit: nat, start: int, payments: seq<Payment>)
    requires Sequential(start, payments)
    ensures var s := Run(limit, Opening(start), payments);
            && Inv(limit, start, s)
            && (!s.counter.frozen ==> s.counter.resetAt <= End(start, payments))
  {
    if payments != [] {
      var init, last := payments[..|payments| - 1], payments[|payments| - 1];
      RunKeepsInv(limit, start, init);
      StepKeepsInv(limit, start, Run(limit, Opening(start), init), last);
    }
  }

  // ---------------------------------------------------------------- the bound

  lemma {:induction false} SpentWithinTwo(log: seq<Transfer>, w: Window, first: Window, second: Window)
    requires forall t :: t in log && w.from <= t.time < w.until ==>
      first.from <= t.time < first.until || second.from <= t.time < second.until
    ensures SpentWithin(log, w) <= SpentWithin(log, first) + SpentWithin(log, second)
  {
    if log != [] {
      assert log[0] in log && forall t :: t in log[1..] ==> t in log;
      SpentWithinTwo(log[1..], w, first, second);
    }
  }

  /** The first window that a day can still meet. */
  lemma {:induction false} FirstAfter(windows: seq<Window>, a: int) returns (i: nat)
    ensures i <= |windows| && (i < |windows| ==> windows[i].until > a)
    ensures forall j :: 0 <= j < i ==> windows[j].until <= a
  {
    if windows == [] {
      i := 0;
    } else {
      var last := |windows| - 1;
      i := FirstAfter(windows[..last], a);
      if i == last && windows[last].until <= a {
        i := i + 1;
      }
    }
  }

  /** The day begins before window `k` ends and ends after the next one begins. */
  ghost predicate Straddles(windows: seq<Window>, k: nat, a: int) {
    k + 1 < |windows| && a < windows[k].until && windows[k + 1].from < a + DAY
  }

  /** A day meets at most two windows, and then it straddles the end of the first. */
  lemma DayMeetsTwo(limit: nat, start: int, s: State, a: int)
    requires Inv(limit, start, s)
    ensures SpentWithin(s.log, Day(a)) <= 2 * limit
    ensures (forall k: nat :: !Straddles(s.windows, k, a)) ==> SpentWithin(s.log, Day(a)) <= limit
  {
    var i := FirstAfter(s.windows, a);
    var none := Window(a, a);
    NothingWithin(s.log, none);
    var first := if i < |s.windows| then s.windows[i] else none;
    var second := if Straddles(s.windows, i, a) then s.windows[i + 1] else none;
    forall t | t in s.log && a <= t.time < a + DAY
      ensures first.from <= t.time < first.until || second.from <= t.time < second.until
    {
      assert InSomeWindow(t, s.windows);
      var j :| 0 <= j < |s.windows| && s.windows[j].from <= t.time < s.windows[j].until;
      assert j >= i;
      if j > i {
        assert s.windows[i + 1].from <= s.windows[j].from;
        assert Straddles(s.windows, i, a);
      }
    }
    SpentWithinTwo(s.log, Day(a), first, second);
  }

  /** In any half-open 24 hours at most twice the limit lands, wherever between check and bookkeeping
      the transfers land and even if the last one landed while the wallet was being frozen; and since the
      last reset at most the limit. */
  lemma {:induction false} DailyLimit(limit: nat, start: int, payments: seq<Payment>, a: int)
    requires Sequential(start, payments)
    ensures var s := Run(limit, Opening(start), payments);
            && SpentWithin(s.log, Day(a)) <= 2 * limit
            && (!s.counter.frozen ==> SpentWithin(s.log, Day(s.counter.resetAt)) <= s.counter.spent <= limit)
  {
    RunKeepsInv(limit, start, payments);
    var s := Run(limit, Opening(start), payments);
    DayMeetsTwo(limit, start, s, a);
    if !s.counter.frozen {
      SumByMonotone(s.log, Within(Day(s.counter.resetAt)), Within(s.windows[|s.windows| - 1]));
    }
  }

  // ---------------------------------------------------------------- when the limit is one on 24 hours

  function Opener(w: Window, amount: nat): Payment {
    Payment(w.from, w.until - DAY, amount, Landed(w.from), false)
  }

  function Max(a: int, b: int): int {
    if a >= b then a else b
  }

  /** A payment of the limit at the first moment of the day at which window `w` takes it. */
  function Late(w: Window, limit: nat, a: int): Payment {
    var time := Max(a, w.until - DAY);
    Payment(time, time, limit, Landed(time), false)
  }

  /** Payments that open exactly these windows, spend the limit late in window `k` and again with the
      opening of the next. */
  function Worst(limit: nat, windows: seq<Window>, k: nat, a: int): seq<Payment>
    requires |windows| > 0
    decreases |windows|, 1
  {
    if |windows| - 1 == k then WorstOpening(limit, windows, k, a) + [Late(windows[k], limit, a)]
    else WorstOpening(limit, windows, k, a)
  }

  /** Those among them up to the opening of the last window. */
  function WorstOpening(limit: nat, windows: seq<Window>, k: nat, a: int): seq<Payment>
    requires |windows| > 0
    decreases |windows|, 0
  {
    var n := |windows| - 1;
    if n == 0 then [] else Worst(limit, windows[..n], k, a) + [Opener(windows[n], if n == k + 1 then limit else 0)]
  }

  /** A sequential run, over by `end`, that reaches a state. */
  ghost predicate Reaches(limit: nat, start: int, payments: seq<Payment>, end: int, s: State) {
    Sequential(start, payments) && End(start, payments) <= end && Run(limit, Opening(start), payments) == s
  }

  lemma ReachesNext(limit: nat, start: int, payments: seq<Payment>, end: int, s: State, p: Payment)
    requires Reaches(limit, start, payments, end, s) && InTime(p) && end <= p.checkedAt
    ensures Reaches(limit, start, payments + [p], p.bookedAt, Step(limit, s, p))
  {
    assert (payments + [p])[..|payments|] == payments;
  }

  /** The payment that opens the next window. */
  lemma OpenerStep(limit: nat, s: State, w: Window, amount: nat)
    requires !s.counter.frozen && s.counter.resetAt + DAY <= w.from && amount <= limit && w.until - w.from >= DAY
    ensures Step(limit, s, Opener(w, amount)) ==
            State(Counter(amount, w.until - DAY, false), s.log + [Transfer(w.from, amount)], s.windows + [w])
  {
  }

  /** The late payment of the limit stays in its window. */
  lemma LateStep(limit: nat, s: State, w: Window, a: int)
    requires s.counter == Counter(0, w.until - DAY, false) && a < w.until
    ensures Step(limit, s, Late(w, limit, a)) ==
            State(Counter(limit, w.until - DAY, false), s.log + [Transfer(Max(a, w.until - DAY), limit)], s.windows)
  {
    assert s.windows + [] == s.windows;
  }

  /** Before, within and after the two windows that the payments fill. */
  function WorstCounter(limit: nat, windows: seq<Window>, k: nat): Counter
    requires |windows| > 0
  {
    var n := |windows| - 1;
    Counter(if n == k || n == k + 1 then limit else 0, windows[n].until - DAY, false)
  }

  function WorstSpend(limit: nat, n: nat, k: nat): nat {
    if n < k then 0 else if n == k then limit else 2 * limit
  }

  /** The state that opens the last of these windows. */
  ghost predicate AtOpening(limit: nat, windows: seq<Window>, k: nat, a: int, s: State)
    requires |windows| > 0
  {
    var n := |windows| - 1;
    && s.windows == windows && s.counter == Counter(if n == k + 1 then limit else 0, windows[n].until - DAY, false)
    && SpentWithin(s.log, Day(a)) == if n <= k then 0 else 2 * limit
  }

  ghost predicate AtEnd(limit: nat, windows: seq<Window>, k: nat, a: int, s: State)
    requires |windows| > 0
  {
    s.windows == windows && s.counter == WorstCounter(limit, windows, k) && SpentWithin(s.log, Day(a)) == WorstSpend(limit, |windows| - 1, k)
  }

  lemma OpenNext(limit: nat, init: seq<Window>, w: Window, k: nat, a: int, s: State)
    requires |init| > 0 && AtEnd(limit, init, k, a, s) && init[|init| - 1].until <= w.from && w.until - w.from >= DAY
    requires |init| == k + 1 ==> a <= w.from < a + DAY
    ensures AtOpening(limit, init + [w], k, a, Step(limit, s, Opener(w, if |init| == k + 1 then limit else 0)))
  {
    var amount := if |init| == k + 1 then limit else 0;
    OpenerStep(limit, s, w, amount);
    SumByAppend(s.log, Transfer(w.from, amount), Within(Day(a)));
  }

  lemma PayLate(limit: nat, windows: seq<Window>, k: nat, a: int, s: State)
    requires |windows| == k + 1 && AtOpening(limit, windows, k, a, s) && a < windows[k].until < a + 2 * DAY
    ensures AtEnd(limit, windows, k, a, Step(limit, s, Late(windows[k], limit, a)))
  {
    var w := windows[k];
    LateStep(limit, s, w, a);
    SumByAppend(s.log, Transfer(Max(a, w.until - DAY), limit), Within(Day(a)));
  }

  lemma AdmissiblePrefix(start: int, windows: seq<Window>, n: nat)
    requires Admissible(start, windows) && 0 < n < |windows|
    ensures Admissible(start, windows[..n]) && windows[..n] + [windows[n]] == windows[..n + 1]
    ensures windows[n - 1].until <= windows[n].from && windows[n].until - windows[n].from >= DAY
  {
  }

  lemma ReachesNothing(limit: nat, start: int, k: nat, a: int)
    ensures Reaches(limit, start, [], start, Opening(start))
    ensures AtOpening(limit, [Day(start)], k, a, Opening(start))
  {
  }

  /** The opening of a next window, as part of a run. */
  lemma ReachesOpening(limit: nat, start: int, payments: seq<Payment>, end: int, s: State, init: seq<Window>, w: Window, k: nat, a: int)
    requires |init| > 0 && Reaches(limit, start, payments, end, s) && AtEnd(limit, init, k, a, s)
    requires end < init[|init| - 1].until <= w.from && w.until - w.from >= DAY
    requires |init| == k + 1 ==> a <= w.from < a + DAY
    ensures var p := Opener(w, if |init| == k + 1 then limit else 0);
            && Reaches(limit, start, payments + [p], w.until - DAY, Step(limit, s, p))
            && AtOpening(limit, init + [w], k, a, Step(limit, s, p))
  {
    OpenNext(limit, init, w, k, a, s);
    ReachesNext(limit, start, payments, end, s, Opener(w, if |init| == k + 1 then limit else 0));
  }

  lemma {:induction false} WorstWorks(limit: nat, start: int, windows: seq<Window>, k: nat, a: int) returns (s: State, end: int)
    requires Admissible(start, windows)
    requires k < |windows| ==> a < windows[k].until < a + 2 * DAY
    requires k + 1 < |windows| ==> windows[k + 1].from < a + DAY
    ensures Reaches(limit, start, Worst(limit, windows, k, a), end, s) && end < windows[|windows| - 1].until
    ensures AtEnd(limit, windows, k, a, s)
    decreases |windows|, 1
  {
    s, end := WorstOpens(limit, start, windows, k, a);
    if |windows| - 1 == k {
      PayLate(limit, windows, k, a, s);
      ReachesNext(limit, start, WorstOpening(limit, windows, k, a), end, s, Late(windows[k], limit, a));
      s, end := Step(limit, s, Late(windows[k], limit, a)), Max(a, windows[k].until - DAY);
    }
  }

  lemma {:induction false} WorstOpens(limit: nat, start: int, windows: seq<Window>, k: nat, a: int) returns (s: State, end: int)
    requires Admissible(start, windows)
    requires k < |windows| ==> a < windows[k].until < a + 2 * DAY
    requires k + 1 < |windows| ==> windows[k + 1].from < a + DAY
    ensures Reaches(limit, start, WorstOpening(limit, windows, k, a), end, s) && end == windows[|windows| - 1].until - DAY
    ensures AtOpening(limit, windows, k, a, s)
    decreases |windows|, 0
  {
    var n := |windows| - 1;
    if n == 0 {
      s, end := Opening(start), start;
      ReachesNothing(limit, start, k, a);
      assert windows == [Day(start)];
    } else {
      AdmissiblePrefix(start, windows, n);
      assert windows[..n + 1] == windows;
      var before, till := WorstWorks(limit, start, windows[..n], k, a);
      ReachesOpening(limit, start, Worst(limit, windows[..n], k, a), till, before, windows[..n], windows[n], k, a);
      s, end := Step(limit, before, Opener(windows[n], if n == k + 1 then limit else 0)), windows[n].until - DAY;
    }
  }

  /** The exact condition, for any windows a run can have: the limit holds for a day in every such run if
      and only if the day does not straddle the end of one window and the beginning of the next. */
  lemma DailyLimitExactly(limit: nat, start: int, windows: seq<Window>, a: int)
    requires limit > 0 && Admissible(start, windows)
    ensures (forall payments :: Sequential(start, payments) && Run(limit, Opening(start), payments).windows == windows ==>
               SpentWithin(Run(limit, Opening(start), payments).log, Day(a)) <= limit)
            <==> (forall k: nat :: !Straddles(windows, k, a))
  {
    if k: nat :| Straddles(windows, k, a) {
      assert windows[k].until <= windows[k + 1].from;
      var s, _ := WorstWorks(limit, start, windows, k, a);
      var payments := Worst(limit, windows, k, a);
      assert SpentWithin(Run(limit, Opening(start), payments).log, Day(a)) == 2 * limit;
    } else {
      forall payments | Sequential(start, payments) && Run(limit, Opening(start), payments).windows == windows
        ensures SpentWithin(Run(limit, Opening(start), payments).log, Day(a)) <= limit
      {
        RunKeepsInv(limit, start, payments);
        DayMeetsTwo(limit, start, Run(limit, Opening(start), payments), a);
      }
    }
  }

  /** Twice the limit is reached, for every limit: one payment at the end of a window and one at the
      start of the next. So the limit is not one on a rolling 24 hours, as its comments call it. */
  lemma TwiceTheLimitIsReached(limit: nat, start: int)
    ensures var late, next := start + DAY - 1, start + DAY;
            var payments := [Payment(late, late, limit, Landed(late), false), Payment(next, next, limit, Landed(next), false)];
            && Sequential(start, payments)
            && SpentWithin(Run(limit, Opening(start), payments).log, Day(late)) == 2 * limit
  {
    var late, next := start + DAY - 1, start + DAY;
    var windows := [Day(start), Day(next)];
    assert windows[..1] == [Day(start)];
    var s, end := WorstWorks(limit, start, windows, 0, late);
    var p, q := Late(Day(start), limit, late), Opener(Day(next), limit);
    assert Worst(limit, [Day(start)], 0, late) == WorstOpening(limit, [Day(start)], 0, late) + [p] == [p];
    assert Worst(limit, windows, 0, late) == [p] + [q] == [p, q];
  }

  // ---------------------------------------------------------------- one payment

  /** A transfer goes out exactly when the wallet is not frozen, the amount fits what is left of the counter's
      day, and the chain takes it; what is booked is its amount, in a new day if the old one is over. */
  lemma PaysExactly(limit: nat, c: Counter, p: Payment)
    ensures var (after, landed) := PayStep(limit, c, p);
            var spent := if p.checkedAt - c.resetAt >= 86_400_000 then 0 else c.spent;
            var passes := !c.frozen && spent + p.amount <= limit;
            && landed == (if passes && p.chain.Landed? then Some(Transfer(p.chain.at, p.amount)) else None)
            && after.frozen == (c.frozen || (passes && p.frozenMeanwhile))
            && (if landed.None? || p.frozenMeanwhile then after.spent == c.spent && after.resetAt == c.resetAt
                else if p.bookedAt - c.resetAt >= 86_400_000 then after.spent == p.amount && after.resetAt == p.bookedAt
                else after.spent == c.spent + p.amount && after.resetAt == c.resetAt)
  {
  }

  lemma {:induction false} FrozenStays(limit: nat, s: State, payments: seq<Payment>)
    requires s.counter.frozen
    ensures Run(limit, s, payments) == s
  {
    if payments != [] {
      FrozenStays(limit, s, payments[..|payments| - 1]);
    }
  }

  /** Freezing is for good: after a payment during which the wallet was frozen none goes out any more. */
  lemma {:induction false} FreezeStopsPayments(limit: nat, s: State, p: Payment, later: seq<Payment>)
    requires p.frozenMeanwhile && (s.counter.frozen || Current(s.counter, p.checkedAt) + p.amount <= limit)
    ensures Run(limit, Step(limit, s, p), later).log == Step(limit, s, p).log
  {
    FrozenStays(limit, Step(limit, s, p), later);
  }
}
