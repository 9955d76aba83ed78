/** Finite sums over sequences and maps, shared by every ledger in this project. */
module Sums {

  function SumBy<T>(s: seq<T>, f: T -> int): int {
    if s == [] then 0 else f(s[0]) + SumBy(s[1..], f)
  }

  lemma {:induction false} SumByConcat<T>(s: seq<T>, t: seq<T>, f: T -> int)
    ensures SumBy(s + t, f) == SumBy(s, f) + SumBy(t, f)
  {
    if s == [] {
      assert s + t == t;
    } else {
      assert (s + t)[1..] == s[1..] + t;
      SumByConcat(s[1..], t, f);
    }
  }

  lemma {:induction false} SumByAppend<T>(s: seq<T>, x: T, f: T -> int)
    ensures SumBy(s + [x], f) == SumBy(s, f) + f(x)
  {
    SumByConcat(s, [x], f);
    assert [x][1..] == [];
  }

  lemma SplitAt<T>(s: seq<T>, i: nat)
    requires i < |s|
    ensures s == s[..i] + [s[i]] + s[i + 1..]
  {
  }

  lemma {:induction false} SumByThree<T>(s: seq<T>, before: seq<T>, x: T, after: seq<T>, f: T -> int)
    requires s == before + [x] + after
    ensures SumBy(s, f) == SumBy(before, f) + f(x) + SumBy(after, f)
  {
    SumByConcat(before + [x], after, f);
    SumByAppend(before, x, f);
  }

  lemma {:induction false} SumByMiddle<T>(s: seq<T>, i: nat, f: T -> int)
    requires i < |s|
    ensures SumBy(s, f) == SumBy(s[..i], f) + f(s[i]) + SumBy(s[i + 1..], f)
  {
    SplitAt(s, i);
    SumByThree(s, s[..i], s[i], s[i + 1..], f);
  }

  lemma SumByUpdate<T>(s: seq<T>, i: nat, x: T, f: T -> int)
    requires i < |s|
    ensures SumBy(s[i := x], f) == SumBy(s, f) - f(s[i]) + f(x)
  {
    SumByMiddle(s, i, f);
    SumByMiddle(s[i := x], i, f);
    assert s[i := x][..i] == s[..i] && s[i := x][i + 1..] == s[i + 1..];
  }

  function RemoveAt<T>(s: seq<T>, i: nat): (r: seq<T>)
    requires i < |s|
    ensures |r| == |s| - 1
    ensures multiset(r) == multiset(s) - multiset{s[i]}
  {
    assert s == s[..i] + ([s[i]] + s[i + 1..]);
    s[..i] + s[i + 1..]
  }

  lemma IndexOf<T>(s: seq<T>, t: seq<T>) returns (i: nat)
    requires multiset(s) == multiset(t) && s != []
    ensures i < |t| && t[i] == s[0]
  {
    assert s[0] in multiset(t);
    i :| 0 <= i < |t| && t[i] == s[0];
  }

  /** A sum does not depend on the order of its terms. */
  lemma {:induction false} SumByPermutation<T>(s: seq<T>, t: seq<T>, f: T -> int)
    requires multiset(s) == multiset(t)
    ensures SumBy(s, f) == SumBy(t, f)
    decreases |s|
  {
    if s == [] {
      assert |multiset(s)| == |multiset(t)|;
    } else {
      var i := IndexOf(s, t);
      SumByRemove(s, 0, f);
      SumByRemove(t, i, f);
      SumByPermutation(RemoveAt(s, 0), RemoveAt(t, i), f);
    }
  }

  lemma {:induction false} SumByRemove<T>(s: seq<T>, i: nat, f: T -> int)
    requires i < |s|
    ensures SumBy(s, f) == f(s[i]) + SumBy(RemoveAt(s, i), f)
  {
    SumByMiddle(s, i, f);
    SumByConcat(s[..i], s[i + 1..], f);
  }

  lemma {:induction false} SumByMonotone<T>(s: seq<T>, f: T -> int, g: T -> int)
    requires forall x :: x in s ==> f(x) <= g(x)
    ensures SumBy(s, f) <= SumBy(s, g)
  {
    if s != [] {
      SumByMonotone(s[1..], f, g);
    }
  }

  /** The sum of `f` over the values of a map. */
  ghost function MapSum<K, V>(m: map<K, V>, f: V -> int): int
    decreases |m|
  {
    if m == map[] then 0
    else
      var k :| k in m;
      f(m[k]) + MapSum(m - {k}, f)
  }

  lemma {:induction false} MapSumRemove<K, V>(m: map<K, V>, k: K, f: V -> int)
    requires k in m
    ensures MapSum(m, f) == f(m[k]) + MapSum(m - {k}, f)
    decreases |m|
  {
    var j :| j in m && MapSum(m, f) == f(m[j]) + MapSum(m - {j}, f);
    if j != k {
      MapSumRemove(m - {j}, k, f);
      MapSumRemove(m - {k}, j, f);
      assert (m - {j}) - {k} == (m - {k}) - {j};
    }
  }

  lemma MapSumInsert<K, V>(m: map<K, V>, k: K, v: V, f: V -> int)
    requires k !in m
    ensures MapSum(m[k := v], f) == MapSum(m, f) + f(v)
  {
    MapSumRemove(m[k := v], k, f);
    assert m[k := v] - {k} == m;
  }

  lemma MapSumReplace<K, V>(m: map<K, V>, k: K, v: V, f: V -> int)
    requires k in m
    ensures MapSum(m[k := v], f) == MapSum(m, f) - f(m[k]) + f(v)
  {
    MapSumRemove(m, k, f);
    MapSumRemove(m[k := v], k, f);
    assert m[k := v] - {k} == m - {k};
  }

  /** One table's sum is at most another's if every row that counts has a row counting as much there. */
  lemma {:induction false} MapSumDominated<K, V, W>(m: map<K, V>, f: V -> int, n: map<K, W>, g: W -> int)
    requires forall k :: k in m && f(m[k]) > 0 ==> k in n && f(m[k]) <= g(n[k])
    requires forall k :: k in n ==> g(n[k]) >= 0
    ensures MapSum(m, f) <= MapSum(n, g)
    decreases |m|
  {
    if m == map[] {
      MapSumNonNegative(n, g);
    } else {
      var k :| k in m && MapSum(m, f) == f(m[k]) + MapSum(m - {k}, f);
      if k in n {
        MapSumRemove(n, k, g);
        MapSumDominated(m - {k}, f, n - {k}, g);
      } else {
        MapSumDominated(m - {k}, f, n, g);
      }
    }
  }

  lemma {:induction false} MapSumCongruent<K, V>(m: map<K, V>, f: V -> int, g: V -> int)
    requires forall k :: k in m ==> f(m[k]) == g(m[k])
    ensures MapSum(m, f) == MapSum(m, g)
    decreases |m|
  {
    if m != map[] {
      var k :| k in m && MapSum(m, f) == f(m[k]) + MapSum(m - {k}, f);
      MapSumRemove(m, k, g);
      MapSumCongruent(m - {k}, f, g);
    }
  }

  lemma {:induction false} MapSumNonNegative<K, V>(m: map<K, V>, f: V -> int)
    requires forall k :: k in m ==> f(m[k]) >= 0
    ensures MapSum(m, f) >= 0
    decreases |m|
  {
    if m != map[] {
      var k :| k in m && MapSum(m, f) == f(m[k]) + MapSum(m - {k}, f);
      MapSumNonNegative(m - {k}, f);
    }
  }

  // ---------------------------------------------------------------- flattening

  function FlatMap<T, U>(s: seq<T>, f: T -> seq<U>): seq<U> {
    if s == [] then [] else f(s[0]) + FlatMap(s[1..], f)
  }

  lemma {:induction false} FlatMapConcat<T, U>(s: seq<T>, t: seq<T>, f: T -> seq<U>)
    ensures FlatMap(s + t, f) == FlatMap(s, f) + FlatMap(t, f)
  {
    if s == [] {
      assert s + t == t;
    } else {
      assert (s + t)[1..] == s[1..] + t;
      FlatMapConcat(s[1..], t, f);
    }
  }

  lemma {:induction false} FlatMapAppend<T, U>(s: seq<T>, x: T, f: T -> seq<U>)
    ensures FlatMap(s + [x], f) == FlatMap(s, f) + f(x)
  {
    FlatMapConcat(s, [x], f);
    assert FlatMap([x], f) == f(x) + FlatMap([x][1..], f);
  }

  lemma {:induction false} FlatMapCongruent<T, U>(s: seq<T>, t: seq<T>, f: T -> seq<U>)
    requires |s| == |t| && forall i :: 0 <= i < |s| ==> f(s[i]) == f(t[i])
    ensures FlatMap(s, f) == FlatMap(t, f)
  {
    if s != [] {
      FlatMapCongruent(s[1..], t[1..], f);
    }
  }

  /** The elements of a flattened sequence do not depend on the order of its parts. */
  lemma {:induction false} FlatMapPermutation<T, U>(s: seq<T>, t: seq<T>, f: T -> seq<U>)
    requires multiset(s) == multiset(t)
    ensures multiset(FlatMap(s, f)) == multiset(FlatMap(t, f))
    decreases |s|
  {
    if s == [] {
      assert |multiset(s)| == |multiset(t)|;
    } else {
      var i := IndexOf(s, t);
      FlatMapRemove(s, 0, f);
      FlatMapRemove(t, i, f);
      FlatMapPermutation(RemoveAt(s, 0), RemoveAt(t, i), f);
    }
  }

  lemma {:induction false} FlatMapRemove<T, U>(t: seq<T>, i: nat, f: T -> seq<U>)
    requires i < |t|
    ensures multiset(FlatMap(t, f)) == multiset(FlatMap(RemoveAt(t, i), f)) + multiset(f(t[i]))
  {
    FlatMapConcat(t[..i], t[i + 1..], f);
    FlatMapMiddle(t, i, f);
    MiddleOut(FlatMap(t[..i], f), f(t[i]), FlatMap(t[i + 1..], f));
  }

  lemma {:induction false} FlatMapMiddle<T, U>(t: seq<T>, i: nat, f: T -> seq<U>)
    requires i < |t|
    ensures FlatMap(t, f) == FlatMap(t[..i], f) + f(t[i]) + FlatMap(t[i + 1..], f)
  {
    SplitAt(t, i);
    FlatMapThree(t, t[..i], t[i], t[i + 1..], f);
  }

  lemma {:induction false} FlatMapThree<T, U>(t: seq<T>, before: seq<T>, x: T, after: seq<T>, f: T -> seq<U>)
    requires t == before + [x] + after
    ensures FlatMap(t, f) == FlatMap(before, f) + f(x) + FlatMap(after, f)
  {
    FlatMapConcat(before + [x], after, f);
    FlatMapAppend(before, x, f);
  }

  lemma MiddleOut<T>(before: seq<T>, here: seq<T>, after: seq<T>)
    ensures multiset(before + here + after) == multiset(before + after) + multiset(here)
  {
  }
}
