/** The definitions over which the codec's recursion ends: those that can be ranked, which are exactly
    those without a cycle. */
module IdlRanking {
  import opened Results
  import opened IdlCodec

  /** A struct `a` with a field of the defined type `b`. Only such fields make the codec recurse. */
  ghost predicate Mentions(idl: Idl, a: Name, b: Name) {
    && FindType(idl.types, a).Some? && FindType(idl.types, a).value.Struct?
    && exists i :: 0 <= i < |FindType(idl.types, a).value.fields| && FindType(idl.types, a).value.fields[i].ty == Defined(b)
  }

  ghost predicate Path(idl: Idl, path: seq<Name>) {
    forall k :: 0 <= k < |path| - 1 ==> Mentions(idl, path[k], path[k + 1])
  }

  ghost predicate Cycle(idl: Idl, path: seq<Name>) {
    |path| >= 2 && path[0] == path[|path| - 1] && Path(idl, path)
  }

  ghost predicate Acyclic(idl: Idl) {
    forall path :: !Cycle(idl, path)
  }

  // ---------------------------------------------------------------- ranked definitions have no cycle

  lemma EdgeDescends(idl: Idl, rank: map<Name, nat>, a: Name, b: Name)
    requires Ranked(idl, rank) && Mentions(idl, a, b)
    ensures a in rank && (b in rank ==> rank[b] < rank[a])
  {
    var fields := FindType(idl.types, a).value.fields;
    var i :| 0 <= i < |fields| && fields[i].ty == Defined(b);
    assert Rank(rank, fields[i].ty) < rank[a] + 1;
  }

  lemma {:induction false} PathDescends(idl: Idl, rank: map<Name, nat>, path: seq<Name>)
    requires Ranked(idl, rank) && Path(idl, path) && |path| >= 2 && path[|path| - 1] in rank
    ensures path[0] in rank && rank[path[|path| - 1]] < rank[path[0]]
  {
    EdgeDescends(idl, rank, path[0], path[1]);
    if |path| > 2 {
      PathDescends(idl, rank, path[1..]);
    }
  }

  lemma RankedIsAcyclic(idl: Idl, rank: map<Name, nat>)
    requires Ranked(idl, rank)
    ensures Acyclic(idl)
  {
    forall path ensures !Cycle(idl, path) {
      if Cycle(idl, path) {
        EdgeDescends(idl, rank, path[0], path[1]);
        PathDescends(idl, rank, path);
      }
    }
  }

  // ---------------------------------------------------------------- definitions without a cycle can be ranked

  ghost predicate Distinct(path: seq<Name>) {
    forall i, j :: 0 <= i < j < |path| ==> path[i] != path[j]
  }

  lemma PathIsDistinct(idl: Idl, path: seq<Name>)
    requires Acyclic(idl) && Path(idl, path)
    ensures Distinct(path)
  {
    forall i, j | 0 <= i < j < |path| ensures path[i] != path[j] {
      assert !Cycle(idl, path[i..j + 1]);
      assert Path(idl, path[i..j + 1]);
    }
  }

  lemma {:induction false} DistinctFits(path: seq<Name>, names: set<Name>)
    requires Distinct(path) && forall n :: n in path ==> n in names
    ensures |path| <= |names|
  {
    if path != [] {
      var init, last := path[..|path| - 1], path[|path| - 1];
      assert last in path && forall n :: n in init ==> n in path;
      DistinctFits(init, names - {last});
    }
  }

  /** Following the definitions long enough ends at one that mentions none of the others. */
  lemma {:induction false} FindSink(idl: Idl, names: set<Name>, path: seq<Name>) returns (sink: Name)
    requires Acyclic(idl) && path != [] && Path(idl, path) && forall n :: n in path ==> n in names
    ensures sink in names && forall b :: b in names ==> !Mentions(idl, sink, b)
    decreases |names| - |path|
  {
    var last := path[|path| - 1];
    assert last in path;
    if b :| b in names && Mentions(idl, last, b) {
      PathIsDistinct(idl, path + [b]);
      DistinctFits(path + [b], names);
      sink := FindSink(idl, names, path + [b]);
    } else {
      sink := last;
    }
  }

  ghost predicate Descends(idl: Idl, rank: map<Name, nat>) {
    forall a, b :: a in rank && b in rank && Mentions(idl, a, b) ==> rank[b] < rank[a]
  }

  lemma {:induction false} RankNames(idl: Idl, names: set<Name>) returns (rank: map<Name, nat>)
    requires Acyclic(idl)
    ensures rank.Keys == names && Descends(idl, rank)
    decreases |names|
  {
    if names == {} {
      rank := map[];
    } else {
      var any :| any in names;
      var sink := FindSink(idl, names, [any]);
      var rest := RankNames(idl, names - {sink});
      rank := map n: Name | n in names :: if n == sink then 0 else rest[n] + 1;
    }
  }

  function Names(types: seq<TypeDef>): (r: set<Name>)
    ensures forall n :: n in r <==> FindType(types, n).Some?
  {
    if types == [] then {} else {types[0].name} + Names(types[1..])
  }

  lemma DescendingIsRanked(idl: Idl, rank: map<Name, nat>)
    requires rank.Keys == Names(idl.types) && Descends(idl, rank)
    ensures Ranked(idl, rank)
  {
    forall name | FindType(idl.types, name).Some? && FindType(idl.types, name).value.Struct?
      ensures name in rank && FieldsBelow(rank, FindType(idl.types, name).value.fields, rank[name] + 1)
    {
      var fields := FindType(idl.types, name).value.fields;
      forall i | 0 <= i < |fields| ensures Rank(rank, fields[i].ty) < rank[name] + 1 {
        if fields[i].ty.Defined? && fields[i].ty.name in rank {
          assert Mentions(idl, name, fields[i].ty.name);
        }
      }
    }
  }

  /** The codec's recursion is bounded by some ranking if and only if no definition leads back to itself. */
  lemma RankedExactlyWhenAcyclic(idl: Idl)
    ensures (exists rank :: Ranked(idl, rank)) <==> Acyclic(idl)
  {
    if rank :| Ranked(idl, rank) {
      RankedIsAcyclic(idl, rank);
    } else if Acyclic(idl) {
      var rank := RankNames(idl, Names(idl.types));
      DescendingIsRanked(idl, rank);
    }
  }
}
