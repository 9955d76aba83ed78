/** The life of a merchant's quotes: issued, negotiated into a successor, ordered, or expired.

    The order and negotiate handlers check a quote first and write its new status only after several
    awaits, so between the two another request may check the same quote. */
module QuoteLife {
  import opened Results
  import opened Catalog

  datatype Status = Active | Superseded | Consumed | Expired

  datatype Row = Row(status: Status, validUntil: int, supersedes: Option<QuoteId>)

  datatype UsabilityError = QuoteSuperseded | QuoteConsumed | QuoteExpired

  /** Orderable only while active, unexpired and not superseded. */
  function Usability(row: Row, now: int): Outcome<UsabilityError> {
    if row.status == Superseded then Fail(QuoteSuperseded)
    else if row.status == Consumed then Fail(QuoteConsumed)
    else if row.status == Expired || row.validUntil <= now then Fail(QuoteExpired)
    else Pass
  }

  function Inserted(rows: map<QuoteId, Row>, id: QuoteId, validUntil: int, supersedes: Option<QuoteId>): map<QuoteId, Row> {
    var marked :=
      if supersedes.Some? && supersedes.value in rows then
        rows[supersedes.value := rows[supersedes.value].(status := Superseded)]
      else rows;
    marked[id := Row(Active, validUntil, supersedes)]
  }

  function Overdue(rows: map<QuoteId, Row>, now: int): map<QuoteId, Row> {
    map id | id in rows :: if rows[id].status == Active && rows[id].validUntil <= now then rows[id].(status := Expired) else rows[id]
  }

  class QuoteTable {
    var rows: map<QuoteId, Row>

    constructor ()
      ensures rows == map[]
    {
      rows := map[];
    }

    method AssertUsable(id: QuoteId, now: int) returns (r: Outcome<UsabilityError>)
      requires id in rows
      ensures r == Usability(rows[id], now)
      ensures r.Pass? <==> rows[id].status == Active && now < rows[id].validUntil
    {
      var row := rows[id];
      if row.status == Superseded { return Fail(QuoteSuperseded); }
      if row.status == Consumed { return Fail(QuoteConsumed); }
      if row.status == Expired || row.validUntil <= now { return Fail(QuoteExpired); }
      return Pass;
    }

    /** The writes of createQuote. */
    method Insert(id: QuoteId, validUntil: int, supersedes: Option<QuoteId>)
      modifies this
      ensures rows == Inserted(old(rows), id, validUntil, supersedes)
    {
      if supersedes.Some? && supersedes.value in rows {
        rows := rows[supersedes.value := rows[supersedes.value].(status := Superseded)];
      }
      rows := rows[id := Row(Active, validUntil, supersedes)];
    }

    method Consume(id: QuoteId)
      requires id in rows
      modifies this
      ensures rows == old(rows)[id := old(rows)[id].(status := Consumed)]
    {
      rows := rows[id := rows[id].(status := Consumed)];
    }

    method ExpireOverdue(now: int) returns (expired: nat)
      modifies this
      ensures rows == Overdue(old(rows), now)
      ensures expired == |set id | id in old(rows) && old(rows)[id].status == Active && old(rows)[id].validUntil <= now|
    {
      expired := |set id | id in rows && rows[id].status == Active && rows[id].validUntil <= now|;
      rows := map id | id in rows :: if rows[id].status == Active && rows[id].validUntil <= now then rows[id].(status := Expired) else rows[id];
    }
  }

  // ---------------------------------------------------------------- overlapping requests

  /** A handler that has passed its check and not yet written. */
  datatype Pending = Ordering(id: QuoteId) | Negotiating(id: QuoteId)

  datatype World = World(rows: map<QuoteId, Row>, pending: multiset<Pending>, orders: seq<QuoteId>)

  datatype Move =
    | Issue(id: QuoteId, validUntil: int)
    | Check(now: int, request: Pending)
    | CommitOrder(id: QuoteId)
    | CommitNegotiation(id: QuoteId, successor: QuoteId, validUntil: int)
    | Abandon(request: Pending)
    | Tick(now: int)

  /** No request on the same quote is between its check and its write. */
  predicate Alone(w: World, id: QuoteId) {
    Ordering(id) !in w.pending && Negotiating(id) !in w.pending
  }

  function Step(w: World, m: Move): Option<World> {
    match m
    case Issue(id, validUntil) =>
      if id in w.rows then None else Some(w.(rows := Inserted(w.rows, id, validUntil, None)))
    case Check(now, request) =>
      if request.id !in w.rows || Usability(w.rows[request.id], now).Fail? then None
      else Some(w.(pending := w.pending + multiset{request}))
    case CommitOrder(id) =>
      if Ordering(id) !in w.pending || id !in w.rows then None
      else Some(World(w.rows[id := w.rows[id].(status := Consumed)], w.pending - multiset{Ordering(id)}, w.orders + [id]))
    case CommitNegotiation(id, successor, validUntil) =>
      if Negotiating(id) !in w.pending || successor in w.rows then None
      else Some(w.(rows := Inserted(w.rows, successor, validUntil, Some(id)), pending := w.pending - multiset{Negotiating(id)}))
    case Abandon(request) =>
      if request !in w.pending then None else Some(w.(pending := w.pending - multiset{request}))
    case Tick(now) => Some(w.(rows := Overdue(w.rows, now)))
  }

  /** No request checks a quote while another one is at work on it. */
  predicate NoOverlap(w: World, m: Move) {
    m.Check? ==> Alone(w, m.request.id)
  }

  ghost function Run(w: World, moves: seq<Move>): Option<World>
    decreases |moves|
  {
    if moves == [] then Some(w)
    else
      match Step(w, moves[0])
      case None => None
      case Some(next) => Run(next, moves[1..])
  }

  ghost predicate NeverOverlap(w: World, moves: seq<Move>)
    decreases |moves|
  {
    moves == [] || (NoOverlap(w, moves[0]) && (Step(w, moves[0]).Some? ==> NeverOverlap(Step(w, moves[0]).value, moves[1..])))
  }

  /** Ordered quotes are consumed and superseded ones marked so. */
  ghost predicate RowsOk(w: World) {
    && (forall id :: id in w.orders ==> id in w.rows && w.rows[id].status == Consumed)
    && (forall s :: s in w.rows && w.rows[s].supersedes.Some? ==>
          w.rows[s].supersedes.value in w.rows && w.rows[w.rows[s].supersedes.value].status == Superseded)
  }

  /** The quote of a pending request has led to nothing yet, though it may have expired meanwhile. */
  ghost predicate PendingOk(w: World) {
    && (forall r :: r in w.pending ==> r.id in w.rows && w.rows[r.id].status in {Active, Expired})
    && (forall id :: w.pending[Ordering(id)] + w.pending[Negotiating(id)] <= 1)
  }

  ghost predicate OnceOk(w: World) {
    && (forall id :: multiset(w.orders)[id] <= 1)
    && (forall a, b :: a in w.rows && b in w.rows && a != b && w.rows[a].supersedes.Some? ==> w.rows[a].supersedes != w.rows[b].supersedes)
  }

  ghost predicate Inv(w: World) {
    RowsOk(w) && PendingOk(w) && OnceOk(w)
  }

  /** Taking the only request on a quote leaves none on it. */
  lemma PendingTaken(w: World, r: Pending, rest: multiset<Pending>)
    requires PendingOk(w) && r in w.pending && rest == w.pending - multiset{r}
    ensures forall x :: x in rest ==> x in w.pending && x.id != r.id
    ensures forall id :: rest[Ordering(id)] + rest[Negotiating(id)] <= 1
  {
    forall x | x in rest ensures x in w.pending && x.id != r.id {
      assert w.pending[Ordering(r.id)] + w.pending[Negotiating(r.id)] <= 1;
      assert x == Ordering(x.id) || x == Negotiating(x.id);
      assert r == Ordering(r.id) || r == Negotiating(r.id);
    }
  }

  lemma StepKeepsInv(w: World, m: Move)
    requires Inv(w) && NoOverlap(w, m) && Step(w, m).Some?
    ensures Inv(Step(w, m).value)
  {
    match m
    case Issue(_, _) => IssueKeeps(w, m);
    case Check(_, _) => CheckKeeps(w, m);
    case CommitOrder(_) => CommitOrderKeeps(w, m);
    case CommitNegotiation(_, _, _) => CommitNegotiationKeeps(w, m);
    case Abandon(request) => PendingTaken(w, request, w.pending - multiset{request});
    case Tick(_) => TickKeeps(w, m);
  }

  lemma IssueKeeps(w: World, m: Move)
    requires Inv(w) && m.Issue? && Step(w, m).Some?
    ensures Inv(Step(w, m).value)
  {
  }

  lemma TickKeeps(w: World, m: Move)
    requires Inv(w) && m.Tick? && Step(w, m).Some?
    ensures Inv(Step(w, m).value)
  {
  }

  lemma CheckKeeps(w: World, m: Move)
    requires Inv(w) && m.Check? && NoOverlap(w, m) && Step(w, m).Some?
    ensures Inv(Step(w, m).value)
  {
    var next := Step(w, m).value;
    forall id ensures next.pending[Ordering(id)] + next.pending[Negotiating(id)] <= 1 {
      assert w.pending[Ordering(m.request.id)] + w.pending[Negotiating(m.request.id)] == 0;
      assert m.request == Ordering(m.request.id) || m.request == Negotiating(m.request.id);
    }
  }

  lemma CommitOrderKeeps(w: World, m: Move)
    requires Inv(w) && m.CommitOrder? && Step(w, m).Some?
    ensures Inv(Step(w, m).value)
  {
    PendingTaken(w, Ordering(m.id), w.pending - multiset{Ordering(m.id)});
    assert m.id !in w.orders;
  }

  lemma CommitNegotiationKeeps(w: World, m: Move)
    requires Inv(w) && m.CommitNegotiation? && Step(w, m).Some?
    ensures Inv(Step(w, m).value)
  {
    assert Negotiating(m.id) in w.pending;
    var next := Step(w, m).value;
    SuccessorKeepsRows(w, m.id, m.successor, m.validUntil, next);
    PendingTaken(w, Negotiating(m.id), next.pending);
  }

  lemma SuccessorKeepsRows(w: World, id: QuoteId, successor: QuoteId, validUntil: int, next: World)
    requires RowsOk(w) && OnceOk(w) && id in w.rows && w.rows[id].status in {Active, Expired} && successor !in w.rows
    requires next.rows == Inserted(w.rows, successor, validUntil, Some(id)) && next.orders == w.orders
    ensures RowsOk(next) && OnceOk(next)
    ensures forall x :: x in w.rows && x != id ==> x in next.rows && next.rows[x].status == w.rows[x].status
  {
    assert forall x :: x in w.rows ==> x in next.rows && next.rows[x].supersedes == w.rows[x].supersedes;
    assert forall x :: x in next.rows ==> x in w.rows || x == successor;
  }

  lemma {:induction false} RunKeepsInv(w: World, moves: seq<Move>)
    requires Inv(w) && NeverOverlap(w, moves) && Run(w, moves).Some?
    ensures Inv(Run(w, moves).value)
    decreases |moves|
  {
    if moves != [] {
      StepKeepsInv(w, moves[0]);
      RunKeepsInv(Step(w, moves[0]).value, moves[1..]);
    }
  }

  function Opening(): World {
    World(map[], multiset{}, [])
  }

  // ---------------------------------------------------------------- a whole negotiation

  /** The quotes of one negotiation so far: a root that superseded nothing, then each one's successor. */
  ghost predicate Chain(rows: map<QuoteId, Row>, path: seq<QuoteId>) {
    && path != [] && path[0] in rows && rows[path[0]].supersedes == None
    && forall k :: 0 < k < |path| ==> Link(rows, path, k)
  }

  ghost predicate Link(rows: map<QuoteId, Row>, path: seq<QuoteId>, k: nat)
    requires 0 < k < |path|
  {
    path[k] in rows && rows[path[k]].supersedes == Some(path[k - 1])
  }

  ghost predicate FromRoot(rows: map<QuoteId, Row>, path: seq<QuoteId>, q: QuoteId) {
    Chain(rows, path) && path[|path| - 1] == q
  }

  ghost predicate Rooted(rows: map<QuoteId, Row>) {
    forall q :: q in rows ==> exists path :: FromRoot(rows, path, q)
  }

  /** No step forgets a quote or changes what it superseded. */
  ghost predicate KeepsHistory(before: map<QuoteId, Row>, after: map<QuoteId, Row>) {
    forall q :: q in before ==> q in after && after[q].supersedes == before[q].supersedes
  }

  lemma PathKept(before: map<QuoteId, Row>, after: map<QuoteId, Row>, path: seq<QuoteId>, q: QuoteId)
    requires KeepsHistory(before, after) && FromRoot(before, path, q)
    ensures FromRoot(after, path, q)
  {
    forall k: nat | 0 < k < |path| ensures Link(after, path, k) {
      assert Link(before, path, k);
    }
  }

  lemma PathExtends(rows: map<QuoteId, Row>, path: seq<QuoteId>, id: QuoteId, successor: QuoteId)
    requires FromRoot(rows, path, id) && successor in rows && rows[successor].supersedes == Some(id)
    ensures FromRoot(rows, path + [successor], successor)
  {
    forall k: nat | 0 < k < |path| + 1 ensures Link(rows, path + [successor], k) {
      if k < |path| {
        assert Link(rows, path, k);
      }
    }
  }

  lemma StillFromRoot(before: map<QuoteId, Row>, after: map<QuoteId, Row>, q: QuoteId)
    requires KeepsHistory(before, after) && q in before && exists path :: FromRoot(before, path, q)
    ensures exists path :: FromRoot(after, path, q)
  {
    var path :| FromRoot(before, path, q);
    PathKept(before, after, path, q);
  }

  lemma SuccessorFromRoot(rows: map<QuoteId, Row>, id: QuoteId, successor: QuoteId)
    requires successor in rows && rows[successor].supersedes == Some(id) && exists path :: FromRoot(rows, path, id)
    ensures exists path :: FromRoot(rows, path, successor)
  {
    var path :| FromRoot(rows, path, id);
    PathExtends(rows, path, id, successor);
  }

  lemma StepKeepsHistory(w: World, m: Move)
    requires Step(w, m).Some? && (m.CommitNegotiation? ==> m.id in w.rows)
    ensures var after := Step(w, m).value.rows;
            && KeepsHistory(w.rows, after)
            && forall q :: q in after && q !in w.rows ==>
                 (m.Issue? && q == m.id && after[q].supersedes == None)
                 || (m.CommitNegotiation? && q == m.successor && after[q].supersedes == Some(m.id))
  {
  }

  lemma RootedGrows(before: map<QuoteId, Row>, after: map<QuoteId, Row>)
    requires Rooted(before) && KeepsHistory(before, after)
    requires forall q :: q in after && q !in before ==> after[q].supersedes.None? || after[q].supersedes.value in before
    ensures Rooted(after)
  {
    forall q | q in after ensures exists path :: FromRoot(after, path, q) {
      if q in before {
        StillFromRoot(before, after, q);
      } else if after[q].supersedes.None? {
        assert FromRoot(after, [q], q);
      } else {
        StillFromRoot(before, after, after[q].supersedes.value);
        SuccessorFromRoot(after, after[q].supersedes.value, q);
      }
    }
  }

  lemma StepKeepsRooted(w: World, m: Move)
    requires Rooted(w.rows) && Step(w, m).Some? && (m.CommitNegotiation? ==> m.id in w.rows)
    ensures Rooted(Step(w, m).value.rows)
  {
    StepKeepsHistory(w, m);
    RootedGrows(w.rows, Step(w, m).value.rows);
  }

  lemma PendingIsKnown(w: World, m: Move)
    requires PendingOk(w) && Step(w, m).Some?
    ensures m.CommitNegotiation? ==> m.id in w.rows
  {
    assert m.CommitNegotiation? ==> Negotiating(m.id) in w.pending;
  }

  lemma {:induction false} RunKeepsRooted(w: World, moves: seq<Move>)
    requires Inv(w) && Rooted(w.rows) && NeverOverlap(w, moves) && Run(w, moves).Some?
    ensures Rooted(Run(w, moves).value.rows)
    decreases |moves|
  {
    if moves != [] {
      StepKeepsInv(w, moves[0]);
      PendingIsKnown(w, moves[0]);
      StepKeepsRooted(w, moves[0]);
      RunKeepsRooted(Step(w, moves[0]).value, moves[1..]);
    }
  }

  lemma Preceded(rows: map<QuoteId, Row>, path: seq<QuoteId>, k: nat)
    requires Chain(rows, path) && 0 < k < |path|
    ensures path[k] in rows && rows[path[k]].supersedes == Some(path[k - 1])
  {
    assert Link(rows, path, k);
  }

  /** Two chains from one root run along each other as long as both last. */
  lemma {:induction false} OneWayForward(w: World, p: seq<QuoteId>, q: seq<QuoteId>, k: nat)
    requires OnceOk(w) && Chain(w.rows, p) && Chain(w.rows, q) && p[0] == q[0] && k < |p| && k < |q|
    ensures p[k] == q[k]
  {
    if k > 0 {
      OneWayForward(w, p, q, k - 1);
      Preceded(w.rows, p, k);
      Preceded(w.rows, q, k);
    }
  }

  lemma OrderedIsLast(w: World, p: seq<QuoteId>, q: seq<QuoteId>)
    requires RowsOk(w) && OnceOk(w) && Chain(w.rows, p) && Chain(w.rows, q) && p[0] == q[0]
    requires p[|p| - 1] in w.orders
    ensures |q| <= |p|
  {
    if |q| > |p| {
      Preceded(w.rows, q, |p|);
      OneWayForward(w, p, q, |p| - 1);
    }
  }

  lemma CountTwice(s: seq<QuoteId>, i: nat, j: nat)
    requires i < j < |s| && multiset(s)[s[i]] <= 1
    ensures s[i] != s[j]
  {
    assert s == s[..i] + [s[i]] + s[i + 1..j] + [s[j]] + s[j + 1..];
  }

  lemma DifferentRoots(w: World, i: nat, j: nat, p: seq<QuoteId>, q: seq<QuoteId>)
    requires RowsOk(w) && OnceOk(w) && i < j < |w.orders|
    requires FromRoot(w.rows, p, w.orders[i]) && FromRoot(w.rows, q, w.orders[j])
    ensures p[0] != q[0]
  {
    CountTwice(w.orders, i, j);
    if p[0] == q[0] {
      OrderedIsLast(w, p, q);
      OrderedIsLast(w, q, p);
      OneWayForward(w, p, q, |p| - 1);
    }
  }

  /** While requests on one quote do not overlap, every quote belongs to a negotiation, and one
      negotiation, however long, ends in at most one order: any two orders have different roots. */
  lemma {:induction false} OneOrderPerNegotiation(moves: seq<Move>, i: nat, j: nat, p: seq<QuoteId>, q: seq<QuoteId>)
    requires NeverOverlap(Opening(), moves) && Run(Opening(), moves).Some?
    requires i < j < |Run(Opening(), moves).value.orders|
    requires FromRoot(Run(Opening(), moves).value.rows, p, Run(Opening(), moves).value.orders[i])
    requires FromRoot(Run(Opening(), moves).value.rows, q, Run(Opening(), moves).value.orders[j])
    ensures p[0] != q[0] && Rooted(Run(Opening(), moves).value.rows)
  {
    RunKeepsInv(Opening(), moves);
    RunKeepsRooted(Opening(), moves);
    DifferentRoots(Run(Opening(), moves).value, i, j, p, q);
  }

  /** A superseded quote is never ordered. */
  lemma {:induction false} NegotiatedIsNotOrdered(moves: seq<Move>, q: QuoteId, s: QuoteId)
    requires NeverOverlap(Opening(), moves) && Run(Opening(), moves).Some?
    requires s in Run(Opening(), moves).value.rows && Run(Opening(), moves).value.rows[s].supersedes == Some(q)
    ensures q !in Run(Opening(), moves).value.orders
  {
    RunKeepsInv(Opening(), moves);
  }

  // ---------------------------------------------------------------- overlapping requests

  lemma CheckTwice(w: World, id: QuoteId, now: int) returns (u: World)
    requires id in w.rows && Usability(w.rows[id], now).Pass?
    ensures Run(w, [Check(now, Ordering(id)), Check(now, Ordering(id))]) == Some(u)
    ensures u.rows == w.rows && u.orders == w.orders && u.pending[Ordering(id)] == w.pending[Ordering(id)] + 2
  {
    var v := w.(pending := w.pending + multiset{Ordering(id)});
    u := v.(pending := v.pending + multiset{Ordering(id)});
    RunOfTwo(w, Check(now, Ordering(id)), Check(now, Ordering(id)), v, u);
  }

  lemma CommitTwice(w: World, id: QuoteId) returns (u: World)
    requires id in w.rows && w.pending[Ordering(id)] >= 2
    ensures Run(w, [CommitOrder(id), CommitOrder(id)]) == Some(u) && u.orders == w.orders + [id, id]
  {
    var v := Step(w, CommitOrder(id)).value;
    u := Step(v, CommitOrder(id)).value;
    RunOfTwo(w, CommitOrder(id), CommitOrder(id), v, u);
  }

  /** Two order requests that overlap on any usable quote both succeed, and it is ordered twice. */
  lemma {:induction false} OverlappingOrdersBothSucceed(w: World, id: QuoteId, now: int)
    requires id in w.rows && Usability(w.rows[id], now).Pass?
    ensures var moves := [Check(now, Ordering(id)), Check(now, Ordering(id))] + [CommitOrder(id), CommitOrder(id)];
            Run(w, moves).Some? && Run(w, moves).value.orders == w.orders + [id, id]
  {
    var v := CheckTwice(w, id, now);
    var u := CommitTwice(v, id);
    RunConcat(w, [Check(now, Ordering(id)), Check(now, Ordering(id))], [CommitOrder(id), CommitOrder(id)]);
  }

  /** An order that overlaps with a negotiation of the same quote: the quote is ordered, and its successor
      is usable and ordered as well, so one negotiation ends in two orders. */
  lemma {:induction false} OrderOverlapsNegotiation(w: World, id: QuoteId, successor: QuoteId, now: int, validUntil: int)
    requires id in w.rows && successor !in w.rows && Usability(w.rows[id], now).Pass? && now < validUntil
    ensures var moves := [Check(now, Ordering(id)), Check(now, Negotiating(id))] + [CommitOrder(id), CommitNegotiation(id, successor, validUntil)]
                         + [Check(now, Ordering(successor)), CommitOrder(successor)];
            && Run(w, moves).Some? && Run(w, moves).value.orders == w.orders + [id, successor]
            && successor in Run(w, moves).value.rows && Run(w, moves).value.rows[successor].supersedes == Some(id)
  {
    var checks := [Check(now, Ordering(id)), Check(now, Negotiating(id))];
    var commits := [CommitOrder(id), CommitNegotiation(id, successor, validUntil)];
    var again := [Check(now, Ordering(successor)), CommitOrder(successor)];
    var w1 := Step(w, checks[0]).value;
    var w2 := Step(w1, checks[1]).value;
    RunOfTwo(w, checks[0], checks[1], w1, w2);
    var w3 := Step(w2, commits[0]).value;
    assert Negotiating(id) in w3.pending;
    var w4 := Step(w3, commits[1]).value;
    RunOfTwo(w2, commits[0], commits[1], w3, w4);
    var w5 := Step(w4, again[0]).value;
    var w6 := Step(w5, again[1]).value;
    RunOfTwo(w4, again[0], again[1], w5, w6);
    RunConcat(w, checks, commits);
    RunConcat(w, checks + commits, again);
  }

  /** Two negotiations that overlap on one quote: both successors are usable, and both are ordered. */
  lemma {:induction false} NegotiationsOverlap(w: World, id: QuoteId, one: QuoteId, two: QuoteId, now: int, validUntil: int)
    requires id in w.rows && one !in w.rows && two !in w.rows && one != two && Usability(w.rows[id], now).Pass? && now < validUntil
    ensures var moves := [Check(now, Negotiating(id)), Check(now, Negotiating(id))]
                         + [CommitNegotiation(id, one, validUntil), CommitNegotiation(id, two, validUntil)]
                         + [Check(now, Ordering(one)), CommitOrder(one)] + [Check(now, Ordering(two)), CommitOrder(two)];
            && Run(w, moves).Some? && Run(w, moves).value.orders == w.orders + [one, two]
            && one in Run(w, moves).value.rows && Run(w, moves).value.rows[one].supersedes == Some(id)
            && two in Run(w, moves).value.rows && Run(w, moves).value.rows[two].supersedes == Some(id)
  {
    var checks := [Check(now, Negotiating(id)), Check(now, Negotiating(id))];
    var commits := [CommitNegotiation(id, one, validUntil), CommitNegotiation(id, two, validUntil)];
    var w1 := Step(w, checks[0]).value;
    var w2 := Step(w1, checks[1]).value;
    RunOfTwo(w, checks[0], checks[1], w1, w2);
    var w3 := Step(w2, commits[0]).value;
    var w4 := Step(w3, commits[1]).value;
    RunOfTwo(w2, commits[0], commits[1], w3, w4);
    RunConcat(w, checks, commits);
    var w5 := OrderOf(w4, one, now);
    RunConcat(w, checks + commits, [Check(now, Ordering(one)), CommitOrder(one)]);
    var w6 := OrderOf(w5, two, now);
    RunConcat(w, checks + commits + [Check(now, Ordering(one)), CommitOrder(one)], [Check(now, Ordering(two)), CommitOrder(two)]);
  }

  lemma OrderOf(w: World, id: QuoteId, now: int) returns (u: World)
    requires id in w.rows && Usability(w.rows[id], now).Pass?
    ensures Run(w, [Check(now, Ordering(id)), CommitOrder(id)]) == Some(u)
    ensures u.rows == w.rows[id := w.rows[id].(status := Consumed)] && u.orders == w.orders + [id]
  {
    var v := Step(w, Check(now, Ordering(id))).value;
    u := Step(v, CommitOrder(id)).value;
    RunOfTwo(w, Check(now, Ordering(id)), CommitOrder(id), v, u);
  }

  // ---------------------------------------------------------------- every overlap can break it

  lemma {:induction false} NeverOverlapConcat(w: World, first: seq<Move>, second: seq<Move>)
    requires NeverOverlap(w, first) && Run(w, first).Some? && NeverOverlap(Run(w, first).value, second)
    ensures NeverOverlap(w, first + second)
    decreases |first|
  {
    if first == [] {
      assert first + second == second;
    } else {
      assert (first + second)[1..] == first[1..] + second;
      NeverOverlapConcat(Step(w, first[0]).value, first[1..], second);
    }
  }

  lemma {:induction false} FreshQuote(used: set<QuoteId>) returns (id: QuoteId)
    ensures forall q: QuoteId :: q in used ==> q < id
  {
    if used == {} {
      id := 0;
    } else {
      var q :| q in used;
      id := FreshQuote(used - {q});
      assert forall x: QuoteId :: x in used ==> x in used - {q} || x == q;
      if q >= id {
        id := q + 1;
      }
    }
  }

  /** A run without further overlaps from `w` to `u` that orders `a` and `b`, both of them the quote itself
      or its successors. */
  ghost predicate OrdersTwice(w: World, moves: seq<Move>, u: World, id: QuoteId, a: QuoteId, b: QuoteId) {
    && Run(w, moves) == Some(u) && NeverOverlap(w, moves) && KeepsHistory(w.rows, u.rows)
    && u.orders == w.orders + [a, b] && OfSameQuote(u.rows, id, a) && OfSameQuote(u.rows, id, b)
  }

  ghost predicate OfSameQuote(rows: map<QuoteId, Row>, id: QuoteId, q: QuoteId) {
    q in rows && (q == id || rows[q].supersedes == Some(id))
  }

  ghost predicate KnownPending(w: World) {
    forall r :: r in w.pending ==> r.id in w.rows
  }

  /** Two writes in a row, neither of them a check. */
  lemma {:induction false} TwoWrites(w: World, a: Move, b: Move, v: World, u: World)
    requires !a.Check? && !b.Check? && Step(w, a) == Some(v) && Step(v, b) == Some(u)
    ensures Run(w, [a, b]) == Some(u) && NeverOverlap(w, [a, b])
  {
    RunOfTwo(w, a, b, v, u);
    assert [a, b][1..] == [b] && [b][1..] == [];
  }

  lemma OrderAlone(w: World, id: QuoteId, now: int) returns (moves: seq<Move>, u: World)
    requires KnownPending(w) && id in w.rows && Usability(w.rows[id], now).Pass? && Alone(w, id)
    ensures Run(w, moves) == Some(u) && NeverOverlap(w, moves) && KnownPending(u)
    ensures u.rows == w.rows[id := w.rows[id].(status := Consumed)] && u.orders == w.orders + [id]
    ensures forall q :: Alone(w, q) ==> Alone(u, q)
  {
    moves := [Check(now, Ordering(id)), CommitOrder(id)];
    var v := Step(w, moves[0]).value;
    u := Step(v, moves[1]).value;
    RunOfTwo(w, moves[0], moves[1], v, u);
    assert moves[1..] == [moves[1]] && moves[1..][1..] == [];
    assert u.pending == w.pending;
  }

  lemma TwoOrdersFollow(w: World, id: QuoteId) returns (moves: seq<Move>, u: World)
    requires id in w.rows && w.pending[Ordering(id)] >= 2
    ensures OrdersTwice(w, moves, u, id, id, id)
  {
    moves := [CommitOrder(id), CommitOrder(id)];
    var v := Step(w, moves[0]).value;
    u := Step(v, moves[1]).value;
    TwoWrites(w, moves[0], moves[1], v, u);
  }

  lemma OrderAndSuccessorFollow(w: World, id: QuoteId) returns (moves: seq<Move>, u: World, s: QuoteId)
    requires KnownPending(w) && id in w.rows && Ordering(id) in w.pending && Negotiating(id) in w.pending
    ensures OrdersTwice(w, moves, u, id, id, s)
  {
    s := FreshQuote(w.rows.Keys);
    var writes := [CommitOrder(id), CommitNegotiation(id, s, 1)];
    var v := Step(w, writes[0]).value;
    assert Negotiating(id) in v.pending;
    var x := Step(v, writes[1]).value;
    TwoWrites(w, writes[0], writes[1], v, x);
    var more: seq<Move>;
    assert forall r :: r in x.pending ==> r in w.pending;
    more, u := OrderAlone(x, s, 0);
    moves := writes + more;
    RunConcat(w, writes, more);
    NeverOverlapConcat(w, writes, more);
  }

  lemma BothNegotiate(w: World, id: QuoteId, r: QuoteId, s: QuoteId) returns (writes: seq<Move>, u: World)
    requires id in w.rows && w.pending[Negotiating(id)] >= 2 && r !in w.rows && s !in w.rows && r != s
    ensures Run(w, writes) == Some(u) && NeverOverlap(w, writes) && u.orders == w.orders && u.pending <= w.pending
    ensures KeepsHistory(w.rows, u.rows) && w.rows.Keys + {r, s} <= u.rows.Keys
    ensures u.rows[r] == u.rows[s] == Row(Active, 1, Some(id))
  {
    writes := [CommitNegotiation(id, r, 1), CommitNegotiation(id, s, 1)];
    var v := Step(w, writes[0]).value;
    u := Step(v, writes[1]).value;
    TwoWrites(w, writes[0], writes[1], v, u);
  }

  lemma TwoSuccessorsFollow(w: World, id: QuoteId) returns (moves: seq<Move>, u: World, r: QuoteId, s: QuoteId)
    requires KnownPending(w) && id in w.rows && w.pending[Negotiating(id)] >= 2
    ensures OrdersTwice(w, moves, u, id, r, s)
  {
    r := FreshQuote(w.rows.Keys);
    s := FreshQuote(w.rows.Keys + {r});
    var writes, x := BothNegotiate(w, id, r, s);
    var one, y := OrderAlone(x, r, 0);
    var two, z := OrderAlone(y, s, 0);
    u := z;
    RunConcat(w, writes, one);
    NeverOverlapConcat(w, writes, one);
    RunConcat(w, writes + one, two);
    NeverOverlapConcat(w, writes + one, two);
    moves := writes + one + two;
    assert u.orders == w.orders + [r] + [s];
  }

  /** A request that passes its check while another is at work on the same quote: from there the
      negotiation can end in two orders, without any further overlap. */
  lemma OverlapLeadsToTwo(w: World, first: Pending, second: Pending, now: int)
    returns (moves: seq<Move>, u: World, a: QuoteId, b: QuoteId)
    requires PendingOk(w) && first in w.pending && first.id == second.id && Step(w, Check(now, second)).Some?
    ensures OrdersTwice(Step(w, Check(now, second)).value, moves, u, first.id, a, b)
  {
    var v, id := Step(w, Check(now, second)).value, first.id;
    assert KnownPending(v);
    assert first == Ordering(id) || first == Negotiating(id);
    assert second == Ordering(id) || second == Negotiating(id);
    assert v.pending[first] >= 1 && v.pending[second] >= 1 && (first == second ==> v.pending[first] >= 2);
    if first == second == Ordering(id) {
      a, b := id, id;
      moves, u := TwoOrdersFollow(v, id);
    } else if first == second == Negotiating(id) {
      moves, u, a, b := TwoSuccessorsFollow(v, id);
    } else {
      a := id;
      moves, u, b := OrderAndSuccessorFollow(v, id);
    }
  }

  /** Any two orders come from different negotiations. */
  ghost predicate OncePerNegotiation(w: World) {
    forall i, j, p, q :: !TwoOfOne(w, i, j, p, q)
  }

  /** Two orders of quotes that descend from one root. */
  ghost predicate TwoOfOne(w: World, i: nat, j: nat, p: seq<QuoteId>, q: seq<QuoteId>) {
    i < j < |w.orders| && FromRoot(w.rows, p, w.orders[i]) && FromRoot(w.rows, q, w.orders[j]) && p[0] == q[0]
  }

  lemma SameRoot(rows: map<QuoteId, Row>, path: seq<QuoteId>, id: QuoteId, q: QuoteId) returns (longer: seq<QuoteId>)
    requires FromRoot(rows, path, id) && OfSameQuote(rows, id, q)
    ensures FromRoot(rows, longer, q) && longer[0] == path[0]
  {
    if q == id {
      longer := path;
    } else {
      longer := path + [q];
      PathExtends(rows, path, id, q);
    }
  }

  lemma TwiceBreaks(w: World, u: World, path: seq<QuoteId>, id: QuoteId, a: QuoteId, b: QuoteId)
    requires FromRoot(w.rows, path, id) && KeepsHistory(w.rows, u.rows)
    requires u.orders == w.orders + [a, b] && OfSameQuote(u.rows, id, a) && OfSameQuote(u.rows, id, b)
    ensures !OncePerNegotiation(u)
  {
    PathKept(w.rows, u.rows, path, id);
    var p := SameRoot(u.rows, path, id, a);
    var q := SameRoot(u.rows, path, id, b);
    assert TwoOfOne(u, |w.orders|, |w.orders| + 1, p, q);
  }

  /** Whatever follows without further overlaps keeps one order per negotiation. */
  ghost predicate SafeFrom(w: World) {
    forall moves :: NeverOverlap(w, moves) && Run(w, moves).Some? ==> OncePerNegotiation(Run(w, moves).value)
  }

  lemma OverlapIsUnsafe(w: World, now: int, first: Pending, second: Pending)
    requires PendingOk(w) && Rooted(w.rows) && first in w.pending && first.id == second.id && Step(w, Check(now, second)).Some?
    ensures !SafeFrom(Step(w, Check(now, second)).value)
  {
    var v := Step(w, Check(now, second)).value;
    CheckWritesNothing(w, now, second);
    var path :| FromRoot(v.rows, path, first.id);
    var moves, u, a, b := OverlapLeadsToTwo(w, first, second, now);
    TwiceIsUnsafe(v, moves, u, path, first.id, a, b);
  }

  lemma CheckWritesNothing(w: World, now: int, request: Pending)
    requires Step(w, Check(now, request)).Some?
    ensures Step(w, Check(now, request)).value.rows == w.rows
  {
  }

  lemma TwiceIsUnsafe(w: World, moves: seq<Move>, u: World, path: seq<QuoteId>, id: QuoteId, a: QuoteId, b: QuoteId)
    requires FromRoot(w.rows, path, id) && OrdersTwice(w, moves, u, id, a, b)
    ensures !SafeFrom(w)
  {
    TwiceBreaks(w, u, path, id, a, b);
    NotSafe(w, moves, u);
  }

  lemma {:induction false} NotSafe(w: World, moves: seq<Move>, u: World)
    requires NeverOverlap(w, moves) && Run(w, moves) == Some(u) && !OncePerNegotiation(u)
    ensures !SafeFrom(w)
  {
  }

  /** The exact condition: after a check, one negotiation still ends in one order over all later runs
      without overlap, if and only if no other request was at work on the checked quote. */
  lemma CheckIsSafeExactly(w: World, now: int, request: Pending)
    requires Inv(w) && Rooted(w.rows) && Step(w, Check(now, request)).Some?
    ensures SafeFrom(Step(w, Check(now, request)).value) <==> Alone(w, request.id)
  {
    if Alone(w, request.id) {
      StepKeepsInv(w, Check(now, request));
      InvIsSafe(Step(w, Check(now, request)).value);
    } else if Ordering(request.id) in w.pending {
      OverlapIsUnsafe(w, now, Ordering(request.id), request);
    } else {
      OverlapIsUnsafe(w, now, Negotiating(request.id), request);
    }
  }

  lemma InvIsSafe(w: World)
    requires Inv(w)
    ensures SafeFrom(w)
  {
    forall moves | NeverOverlap(w, moves) && Run(w, moves).Some? ensures OncePerNegotiation(Run(w, moves).value) {
      RunKeepsInv(w, moves);
      var u := Run(w, moves).value;
      forall i: nat, j: nat, p, q ensures !TwoOfOne(u, i, j, p, q) {
        if i < j < |u.orders| && FromRoot(u.rows, p, u.orders[i]) && FromRoot(u.rows, q, u.orders[j]) {
          DifferentRoots(u, i, j, p, q);
        }
      }
    }
  }

  lemma {:induction false} RunOfTwo(w: World, a: Move, b: Move, v: World, u: World)
    requires Step(w, a) == Some(v) && Step(v, b) == Some(u)
    ensures Run(w, [a, b]) == Some(u)
  {
    assert [a, b][1..] == [b] && [b][1..] == [];
    assert Run(v, [b]) == Run(u, []);
  }

  lemma {:induction false} RunConcat(w: World, first: seq<Move>, second: seq<Move>)
    requires Run(w, first).Some?
    ensures Run(w, first + second) == Run(Run(w, first).value, second)
    decreases |first|
  {
    if first == [] {
      assert first + second == second;
    } else {
      assert (first + second)[1..] == first[1..] + second;
      RunConcat(Step(w, first[0]).value, first[1..], second);
    }
  }
}
