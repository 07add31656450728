/** The join planner of DB_SQLite (src/mpradb/database/db_to_sqlite.py):
    how a requested column names its base column, the depth-first
    find_path with the catalog's one-start-table exclusion, the
    breadth-first find_paths, get_tables, and the qualification of
    ambiguous column names. */
module Planner {
  import opened Common
  import opened Catalog
  import opened TableSort

  // -----------------------------------------------------------------------
  // Base column names

  /** get_tables, lines 770-771: `c.replace('(', ')').split(')')`, then the
      middle part when there are exactly three parts. */
  function BaseColumn(c: string): string
  {
    var parts := Split(Replace(c, "(", ")"), ')');
    if |parts| == 3 then parts[1] else parts[0]
  }

  /** check_for_ambiguous_columns: `column.split('(')[-1].strip(')')`. */
  function AmbiguityBase(c: string): string
  {
    Strip(Last(Split(c, '(')), ')')
  }

  predicate NoParens(s: string)
  {
    '(' !in s && ')' !in s
  }

  lemma ReplaceWrapped(fn: string, col: string)
    requires NoParens(fn) && NoParens(col)
    ensures Replace(fn + "(" + col + ")", "(", ")") == fn + ")" + col + ")"
  {
    ReplaceCharAppend(fn + "(" + col, ")", '(', ")");
    ReplaceCharAppend(fn + "(", col, '(', ")");
    ReplaceCharAppend(fn, "(", '(', ")");
    ReplaceCharAbsent(fn, '(', ")");
    ReplaceCharAbsent(col, '(', ")");
    ReplaceCharAbsent(")", '(', ")");
    assert Replace("(", "(", ")") == ")";
  }

  lemma SplitWrapped(fn: string, col: string)
    requires ')' !in fn && ')' !in col
    ensures Split(fn + ")" + col + ")", ')') == [fn, col, ""]
  {
    assert fn + ")" + col + ")" == fn + [')'] + (col + [')'] + "");
    SplitAfter(fn, ')', col + [')'] + "");
    SplitAfter(col, ')', "");
  }

  /** get_tables' reading of `fn(col)` is `col`. */
  lemma WrappedBaseColumn(fn: string, col: string)
    requires NoParens(fn) && NoParens(col)
    ensures BaseColumn(fn + "(" + col + ")") == col
  {
    ReplaceWrapped(fn, col);
    SplitWrapped(fn, col);
  }

  /** check_for_ambiguous_columns' reading of `fn(col)` is `col`. */
  lemma WrappedAmbiguityBase(fn: string, col: string)
    requires NoParens(fn) && NoParens(col)
    ensures AmbiguityBase(fn + "(" + col + ")") == col
  {
    var w := fn + "(" + col + ")";
    assert w == fn + ['('] + (col + ")");
    SplitAfter(fn, '(', col + ")");
    SplitAbsent(col + ")", '(');
    assert Last(Split(w, '(')) == col + ")";
    assert (col + ")")[..|col + ")"| - 1] == col;
    StripLeftAbsent(col, ')');
    assert StripRight(col + ")", ')') == StripRight(col, ')');
  }

  /** Both readings give back a plain column name unchanged, and strip one
      function wrapper `fn(col)` to `col`. */
  lemma BaseColumnReadings(fn: string, col: string)
    requires NoParens(fn) && NoParens(col)
    ensures BaseColumn(col) == col && AmbiguityBase(col) == col
    ensures BaseColumn(fn + "(" + col + ")") == col
    ensures AmbiguityBase(fn + "(" + col + ")") == col
  {
    ReplaceCharAbsent(col, '(', ")");
    SplitAbsent(col, ')');
    SplitAbsent(col, '(');
    StripRightAbsent(col, ')');
    StripLeftAbsent(col, ')');
    WrappedBaseColumn(fn, col);
    WrappedAmbiguityBase(fn, col);
  }

  // -----------------------------------------------------------------------
  // find_path

  function Flip(e: Edge): Edge
  {
    Edge(e.b, e.a)
  }

  /** The other table of an edge that touches `t`. */
  function Other(e: Edge, t: string): string
  {
    if e.a.0 == t then e.b.0 else e.a.0
  }

  predicate Touches(e: Edge, t: string)
  {
    e.a.0 == t || e.b.0 == t
  }

  /** The edges lead, one after the other, from table `from` to table `to`. */
  predicate IsWalk(p: seq<Edge>, from: string, to: string)
    decreases |p|
  {
    |p| > 0 && Touches(p[0], from) &&
    if |p| == 1 then Other(p[0], from) == to else IsWalk(p[1..], Other(p[0], from), to)
  }

  /** What a call of find_path comes back with: a path of edges, None, or
      an exception (the KeyError of get_join, or RecursionError once the
      recursion runs out of `fuel`). */
  datatype PathResult = Found(path: seq<Edge>) | NoPath | Raised(msg: string)

  /** find_path(t1, t2, prev_tables=[start]). Only `start` is ever excluded,
      because `prev_tables` is never extended; its depth is bounded only by
      Python's recursion limit, which `fuel` stands for. */
  function FindPath(g: Graph, t1: string, t2: string, start: string, fuel: nat): (r: PathResult)
    ensures r.Found? ==> 1 <= |r.path| <= fuel
    ensures r.Found? ==> forall e :: e in r.path ==> e in g.fks.Values
    decreases fuel, 0
  {
    if fuel == 0 then Raised("maximum recursion depth exceeded")
    else if t1 !in g.conn then NoPath
    else if t2 in g.conn[t1] then
      match GetJoin(g, t1, t2)
      case None => Raised("KeyError")
      case Some(e) => Found([e])
    else FirstPath(g, t1, t2, start, g.conn[t1], fuel - 1)
  }

  /** The loop of find_path over the neighbours `ps` of `t1`: the first
      neighbour other than `start` whose edge exists and from which a path
      is found wins; whatever a deeper call raises is swallowed by the bare
      `except`. */
  function FirstPath(g: Graph, t1: string, t2: string, start: string, ps: seq<string>, fuel: nat): (r: PathResult)
    ensures !r.Raised?
    ensures r.Found? ==> 1 <= |r.path| <= fuel + 1
    ensures r.Found? ==> forall e :: e in r.path ==> e in g.fks.Values
    decreases fuel, |ps| + 1
  {
    if |ps| == 0 then NoPath
    else if ps[0] == start then FirstPath(g, t1, t2, start, ps[1..], fuel)
    else match GetJoin(g, t1, ps[0])
      case None => FirstPath(g, t1, t2, start, ps[1..], fuel)
      case Some(e) =>
        match FindPath(g, ps[0], t2, start, fuel)
        case Found(rest) => Found([e] + rest)
        case _ => FirstPath(g, t1, t2, start, ps[1..], fuel)
  }

  lemma GetJoinJoins(g: Graph, t: string, u: string)
    requires GraphWf(g) && GetJoin(g, t, u).Some?
    ensures Joins(GetJoin(g, t, u).value, t, u)
  {
  }

  /** With the catalog invariant, every path find_path returns is a walk of
      adjacent tables from `t1` to `t2`. */
  lemma {:induction false} FindPathWalks(g: Graph, t1: string, t2: string, start: string, fuel: nat)
    requires GraphWf(g)
    requires FindPath(g, t1, t2, start, fuel).Found?
    ensures IsWalk(FindPath(g, t1, t2, start, fuel).path, t1, t2)
    decreases fuel, 0
  {
    if t2 in g.conn[t1] {
      GetJoinJoins(g, t1, t2);
    } else {
      FirstPathWalks(g, t1, t2, start, g.conn[t1], fuel - 1);
    }
  }

  lemma {:induction false} FirstPathWalks(g: Graph, t1: string, t2: string, start: string, ps: seq<string>, fuel: nat)
    requires GraphWf(g)
    requires FirstPath(g, t1, t2, start, ps, fuel).Found?
    ensures IsWalk(FirstPath(g, t1, t2, start, ps, fuel).path, t1, t2)
    decreases fuel, |ps| + 1
  {
    if ps[0] == start || GetJoin(g, t1, ps[0]).None? || !FindPath(g, ps[0], t2, start, fuel).Found? {
      FirstPathWalks(g, t1, t2, start, ps[1..], fuel);
    } else {
      var e := GetJoin(g, t1, ps[0]).value;
      var rest := FindPath(g, ps[0], t2, start, fuel).path;
      GetJoinJoins(g, t1, ps[0]);
      FindPathWalks(g, ps[0], t2, start, fuel);
      var p := [e] + rest;
      assert p[1..] == rest;
      assert Other(e, t1) == ps[0];
    }
  }

  /** find_path on a direct neighbour returns the stored edge of the pair,
      and on a table without an adjacency entry returns None. */
  lemma FindPathEnds(g: Graph, t1: string, t2: string, start: string, fuel: nat)
    requires GraphWf(g) && fuel >= 1
    ensures t1 !in g.conn ==> FindPath(g, t1, t2, start, fuel) == NoPath
    ensures Adjacent(g, t1, t2) ==>
      FindPath(g, t1, t2, start, fuel) == Found([g.fks[PairKey(t1, t2)]])
      && Joins(g.fks[PairKey(t1, t2)], t1, t2)
    ensures !FindPath(g, t1, t2, start, fuel).Raised?
  {
    if Adjacent(g, t1, t2) {
      GetJoinOfNeighbours(g, t1, t2);
    }
  }

  /** `[tuple([t[1], t[0]]) for t in table_path[::-1]]` */
  function Flipped(p: seq<Edge>): (r: seq<Edge>)
    ensures |r| == |p|
  {
    seq(|p|, k requires 0 <= k < |p| => Flip(p[|p| - 1 - k]))
  }

  lemma {:induction false} WalkAppend(p: seq<Edge>, from: string, mid: string, e: Edge)
    requires IsWalk(p, from, mid) && Touches(e, mid)
    ensures IsWalk(p + [e], from, Other(e, mid))
    decreases |p|
  {
    if |p| > 1 {
      assert (p + [e])[1..] == p[1..] + [e];
      WalkAppend(p[1..], Other(p[0], from), mid, e);
    } else {
      assert (p + [e])[1..] == [e];
    }
  }

  lemma OtherFlip(e: Edge, t: string)
    requires Touches(e, t)
    ensures Touches(Flip(e), Other(e, t)) && Other(Flip(e), Other(e, t)) == t
  {
  }

  /** Reversing a walk, flipping every edge, walks back. */
  lemma {:induction false} FlippedWalks(p: seq<Edge>, from: string, to: string)
    requires IsWalk(p, from, to)
    ensures IsWalk(Flipped(p), to, from)
    decreases |p|
  {
    var e := p[0];
    OtherFlip(e, from);
    if |p| == 1 {
      assert Flipped(p) == [Flip(e)];
    } else {
      FlippedWalks(p[1..], Other(e, from), to);
      assert Flipped(p) == Flipped(p[1..]) + [Flip(e)];
      WalkAppend(Flipped(p[1..]), to, Other(e, from), Flip(e));
    }
  }

  // -----------------------------------------------------------------------
  // find_paths (not called by the engine)

  /** The edges joining consecutive tables of a table path, each as the
      one-element list get_join returns; a missing edge is get_join's
      KeyError. */
  function JoinsAlong(g: Graph, ts: seq<string>): (r: Result<seq<seq<Edge>>>)
    ensures r.Ok? ==> |ts| >= 1 ==> |r.value| == |ts| - 1
    ensures r.Ok? ==> forall k :: 0 <= k < |r.value| ==> |r.value[k]| == 1 && r.value[k][0] in g.fks.Values
    decreases |ts|
  {
    if |ts| <= 1 then Ok([])
    else match GetJoin(g, ts[0], ts[1])
      case None => Err("KeyError")
      case Some(e) =>
        match JoinsAlong(g, ts[1..])
        case Err(m) => Err(m)
        case Ok(rest) => Ok([[e]] + rest)
  }

  function Flatten(js: seq<seq<Edge>>): seq<Edge>
  {
    if |js| == 0 then [] else js[0] + Flatten(js[1..])
  }

  lemma {:induction false} JoinsAlongWalks(g: Graph, ts: seq<string>)
    requires GraphWf(g) && |ts| >= 2 && JoinsAlong(g, ts).Ok?
    ensures IsWalk(Flatten(JoinsAlong(g, ts).value), ts[0], ts[|ts| - 1])
    decreases |ts|
  {
    var e := GetJoin(g, ts[0], ts[1]).value;
    GetJoinJoins(g, ts[0], ts[1]);
    var rest := JoinsAlong(g, ts[1..]).value;
    assert JoinsAlong(g, ts).value == [[e]] + rest;
    assert ([[e]] + rest)[1..] == rest;
    if |ts| > 2 {
      JoinsAlongWalks(g, ts[1..]);
    }
  }

  /** Every table path of the frontier starts at `t1`, has `len` tables,
      and steps along adjacency. */
  predicate Frontier(g: Graph, paths: seq<seq<string>>, t1: string, len: nat)
  {
    forall p :: p in paths ==>
      (|p| == len && |p| > 0 && p[0] == t1 && forall n :: 0 <= n < |p| - 1 ==> Adjacent(g, p[n], p[n + 1]))
  }

  /** The next frontier: every path extended by each neighbour of its last
      table; a last table without adjacency entry raises KeyError. */
  method Expand(g: Graph, paths: seq<seq<string>>, ghost t1: string, ghost len: nat)
    returns (r: Result<seq<seq<string>>>)
    requires len >= 1 && Frontier(g, paths, t1, len)
    ensures r.Ok? ==> Frontier(g, r.value, t1, len + 1)
    ensures r.Err? <==> exists p :: p in paths && p[|p| - 1] !in g.conn
  {
    var out: seq<seq<string>> := [];
    var i := 0;
    while i < |paths|
      invariant 0 <= i <= |paths|
      invariant Frontier(g, out, t1, len + 1)
      invariant forall m :: 0 <= m < i ==> paths[m][|paths[m]| - 1] in g.conn
    {
      var p := paths[i];
      var last := p[|p| - 1];
      if last !in g.conn {
        return Err("KeyError");
      }
      var ns := g.conn[last];
      var ext := seq(|ns|, k requires 0 <= k < |ns| => p + [ns[k]]);
      forall q | q in ext
        ensures |q| == len + 1 && q[0] == t1 && forall n :: 0 <= n < |q| - 1 ==> Adjacent(g, q[n], q[n + 1])
      {
        var k :| 0 <= k < |ns| && q == p + [ns[k]];
        forall n | 0 <= n < |q| - 1 ensures Adjacent(g, q[n], q[n + 1]) {
          if n < |p| - 1 {
            assert q[n] == p[n] && q[n + 1] == p[n + 1];
          }
        }
      }
      out := out + ext;
      i := i + 1;
    }
    return Ok(out);
  }

  /** find_paths(t1, t2): breadth-first, at most four edges; the fifth
      round raises. */
  method FindPaths(g: Graph, t1: string, t2: string) returns (r: Result<seq<seq<Edge>>>)
    ensures t1 == t2 ==> r == Ok([])
    ensures r.Ok? ==> |r.value| <= 4
    ensures r.Ok? ==> forall k :: 0 <= k < |r.value| ==> |r.value[k]| == 1 && r.value[k][0] in g.fks.Values
    ensures r.Ok? && t1 != t2 && GraphWf(g) ==> IsWalk(Flatten(r.value), t1, t2)
  {
    var count: nat := 0;
    var connected: seq<seq<string>> := [];
    while true
      invariant count <= 4
      invariant count > 0 ==> Frontier(g, connected, t1, count)
      invariant t1 == t2 ==> count == 0
      decreases 5 - count
    {
      var newTable: seq<seq<string>>;
      if count == 0 {
        newTable := [[t1]];
      } else {
        var e := Expand(g, connected, t1, count);
        if e.Err? {
          return Err(e.msg);
        }
        newTable := e.value;
      }
      assert Frontier(g, newTable, t1, count + 1);
      var i := 0;
      while i < |newTable|
        invariant 0 <= i <= |newTable|
        invariant t1 == t2 ==> i == 0
      {
        var t := newTable[i];
        if count == 0 {
          assert t == [t1];
        }
        if t[|t| - 1] == t2 {
          var js := JoinsAlong(g, t);
          if js.Ok? && t1 != t2 && GraphWf(g) {
            JoinsAlongWalks(g, t);
          }
          return js;
        }
        i := i + 1;
      }
      count := count + 1;
      if count == 5 {
        return Err("These tables are more than 5 apart. Reconsider query");
      }
      connected := newTable;
    }
  }

  // -----------------------------------------------------------------------
  // get_tables

  /** Insert one column occurrence into the ordered dictionary `tmp_tables`. */
  function AddOccurrence(tmp: seq<Entry>, t: string, c: string): (r: seq<Entry>)
    ensures Names(r) == if t in Names(tmp) then Names(tmp) else Names(tmp) + [t]
    decreases |tmp|
  {
    if |tmp| == 0 then [(t, [c])]
    else if tmp[0].0 == t then
      var r := [(t, tmp[0].1 + [c])] + tmp[1..];
      assert Names(tmp)[0] == t && Names(r) == Names(tmp);
      r
    else
      var rest := AddOccurrence(tmp[1..], t, c);
      var r := [tmp[0]] + rest;
      assert Names(r) == [tmp[0].0] + Names(rest);
      assert Names(tmp) == [tmp[0].0] + Names(tmp[1..]);
      r
  }

  function AddColumn(tmp: seq<Entry>, c: string, ts: seq<string>): seq<Entry>
    decreases |ts|
  {
    if |ts| == 0 then tmp else AddColumn(AddOccurrence(tmp, ts[0], c), c, ts[1..])
  }

  /** The first loop of get_tables over the base names: every table holding
      a base name gets one occurrence of it; the first name missing from
      the catalog stops the loop. */
  function Gather(bases: seq<string>, lookup: map<string, seq<string>>): Result<seq<Entry>>
  {
    if |bases| == 0 then Ok([])
    else match Gather(bases[..|bases| - 1], lookup)
      case Err(m) => Err(m)
      case Ok(tmp) =>
        var b := bases[|bases| - 1];
        if b !in lookup then Err(b) else Ok(AddColumn(tmp, b, lookup[b]))
  }

  function Bases(columns: seq<string>): (r: seq<string>)
    ensures |r| == |columns|
  {
    seq(|columns|, i requires 0 <= i < |columns| => BaseColumn(columns[i]))
  }

  /** The covering tables get_tables chooses: sort the candidates, then
      filter them. */
  function Covering(columns: seq<string>, lookup: map<string, seq<string>>): Result<seq<string>>
  {
    match Gather(Bases(columns), lookup)
    case Err(m) => Err(m)
    case Ok(tmp) => FilterTables(Elems(Bases(columns)), SortedTables(tmp), [], {})
  }

  datatype Plan =
    | Planned(tables: seq<string>, joins: Option<seq<Edge>>)
    /** 'Column … not found in database!' (get_tables resets the query). */
    | Unresolved(column: string)
    /** 'Selection is not possible!' (get_tables resets the query). */
    | Disconnected(added: seq<string>)
    /** An exception get_tables lets through (IndexError, KeyError, …). */
    | Crashed(msg: string)

  /** Every join edge appears once, in neither orientation twice. */
  predicate NoRepeatedEdge(js: seq<Edge>)
  {
    forall i, j :: 0 <= i < j < |js| ==> js[i] != js[j] && js[i] != Flip(js[j])
  }

  predicate EdgesWithin(js: seq<Edge>, ts: seq<string>)
  {
    forall e :: e in js ==> e.a.0 in ts && e.b.0 in ts
  }

  predicate StoredEdge(g: Graph, e: Edge)
  {
    e in g.fks.Values || Flip(e) in g.fks.Values
  }

  lemma FlippedStored(g: Graph, p: seq<Edge>)
    requires forall e :: e in p ==> e in g.fks.Values
    ensures forall e :: e in Flipped(p) ==> StoredEdge(g, e)
  {
    forall k | 0 <= k < |p| ensures StoredEdge(g, Flipped(p)[k]) {
      assert Flip(Flipped(p)[k]) == p[|p| - 1 - k];
    }
  }

  /** The path get_tables uses for the pair (t1, t2): find_path one way,
      otherwise the other way, turned round only when either name contains
      the substring 'iso'. */
  function PairPath(g: Graph, t1: string, t2: string, fuel: nat): (r: PathResult)
    ensures r.Found? ==> forall e :: e in r.path ==> StoredEdge(g, e)
    ensures GraphWf(g) && fuel >= 1 ==> !r.Raised?
  {
    if GraphWf(g) && fuel >= 1 then
      FindPathEnds(g, t1, t2, t1, fuel);
      FindPathEnds(g, t2, t1, t2, fuel);
      PairPathFrom(g, t1, t2, fuel)
    else PairPathFrom(g, t1, t2, fuel)
  }

  function PairPathFrom(g: Graph, t1: string, t2: string, fuel: nat): (r: PathResult)
    ensures r.Found? ==> forall e :: e in r.path ==> StoredEdge(g, e)
    ensures r.Raised? ==> FindPath(g, t1, t2, t1, fuel).Raised? || FindPath(g, t2, t1, t2, fuel).Raised?
  {
    match FindPath(g, t1, t2, t1, fuel)
    case Raised(m) => Raised(m)
    case Found(p) => Found(p)
    case NoPath =>
      match FindPath(g, t2, t1, t2, fuel)
      case Raised(m) => Raised(m)
      case NoPath => NoPath
      case Found(p) =>
        if HasSub(t1, "iso") || HasSub(t2, "iso") then
          FlippedStored(g, p);
          Found(Flipped(p))
        else Found(p)
  }

  /** The inner loop of get_tables over one path: an edge recorded in
      neither orientation is appended, with its tables. */
  method AddPathEdges(path: seq<Edge>, js0: seq<Edge>, added0: seq<string>, ghost g: Graph)
    returns (js: seq<Edge>, added: seq<string>)
    requires |added0| > 0 && NoDuplicates(added0)
    requires EdgesWithin(js0, added0) && NoRepeatedEdge(js0)
    requires forall e :: e in js0 ==> StoredEdge(g, e)
    requires forall e :: e in path ==> StoredEdge(g, e)
    ensures |added| > 0 && added[0] == added0[0] && NoDuplicates(added)
    ensures EdgesWithin(js, added) && NoRepeatedEdge(js)
    ensures forall e :: e in js ==> StoredEdge(g, e)
    ensures js0 <= js && added0 <= added
    ensures forall e :: e in path ==> e in js || Flip(e) in js
  {
    js, added := js0, added0;
    var k := 0;
    while k < |path|
      invariant 0 <= k <= |path|
      invariant |added| > 0 && added[0] == added0[0] && NoDuplicates(added)
      invariant EdgesWithin(js, added) && NoRepeatedEdge(js)
      invariant forall e :: e in js ==> StoredEdge(g, e)
      invariant js0 <= js && added0 <= added
      invariant forall m :: 0 <= m < k ==> path[m] in js || Flip(path[m]) in js
    {
      var e := path[k];
      if e !in js && Flip(e) !in js {
        js := js + [e];
        if e.a.0 !in added {
          added := added + [e.a.0];
        }
        if e.b.0 !in added {
          added := added + [e.b.0];
        }
      }
      k := k + 1;
    }
  }

  /** The loop of get_tables over `itertools.combinations(tables, 2)`. */
  method ConnectTables(tables: seq<string>, g: Graph, fuel: nat) returns (r: Plan)
    requires |tables| >= 2 && NoDuplicates(tables)
    ensures r.Planned? || r.Disconnected? || r.Crashed?
    ensures r.Planned? ==>
      && r.joins.Some?
      && |r.tables| > 0 && r.tables[0] == tables[0]
      && (forall t :: t in tables ==> t in r.tables)
      && NoDuplicates(r.tables)
      && EdgesWithin(r.joins.value, r.tables)
      && NoRepeatedEdge(r.joins.value)
      && (forall e :: e in r.joins.value ==> StoredEdge(g, e))
    ensures r.Disconnected? ==> exists t :: t in tables && t !in r.added
    ensures GraphWf(g) && fuel >= 1 ==> !r.Crashed?
  {
    var js: seq<Edge> := [];
    var added := [tables[0]];
    var remaining := |tables|;
    ghost var processed := false;
    var done := false;
    var i := 0;
    while i < |tables| && !done
      invariant 0 <= i <= |tables|
      invariant |added| > 0 && added[0] == tables[0] && NoDuplicates(added)
      invariant EdgesWithin(js, added) && NoRepeatedEdge(js)
      invariant forall e :: e in js ==> StoredEdge(g, e)
      invariant !processed ==> added == [tables[0]] && remaining == |tables|
      invariant processed ==> remaining == |Elems(tables) - Elems(added)|
      invariant done <==> remaining == 0
    {
      var j := i + 1;
      while j < |tables| && !done
        invariant i + 1 <= j <= |tables|
        invariant |added| > 0 && added[0] == tables[0] && NoDuplicates(added)
        invariant EdgesWithin(js, added) && NoRepeatedEdge(js)
        invariant forall e :: e in js ==> StoredEdge(g, e)
        invariant !processed ==> added == [tables[0]] && remaining == |tables|
        invariant processed ==> remaining == |Elems(tables) - Elems(added)|
        invariant done <==> remaining == 0
      {
        var p := PairPath(g, tables[i], tables[j], fuel);
        if p.Raised? {
          return Crashed(p.msg);
        }
        if p.NoPath? {
          j := j + 1;
          continue;
        }
        // The `table_bool` test compares a set with integers, so it never
        // skips a pair.
        js, added := AddPathEdges(p.path, js, added, g);
        processed := true;
        remaining := |Elems(tables) - Elems(added)|;
        if remaining == 0 {
          done := true;
        }
        j := j + 1;
      }
      i := i + 1;
    }
    if remaining != 0 {
      if processed {
        var t :| t in Elems(tables) - Elems(added);
      } else {
        assert tables[1] !in added;
      }
      return Disconnected(added);
    }
    assert processed;
    assert Elems(tables) - Elems(added) == {};
    forall t | t in tables ensures t in added {
      assert t in Elems(tables);
      assert t !in Elems(tables) - Elems(added);
      assert t in Elems(added);
    }
    return Planned(added, Some(js));
  }

  // -----------------------------------------------------------------------
  // What the gathering loop of get_tables records

  /** `tmp_tables.get(t, [])` on the ordered dictionary. */
  function ColumnsOf(tmp: seq<Entry>, t: string): seq<string>
    decreases |tmp|
  {
    if |tmp| == 0 then [] else if tmp[0].0 == t then tmp[0].1 else ColumnsOf(tmp[1..], t)
  }

  lemma {:induction false} ColumnsOfIn(tmp: seq<Entry>, t: string, c: string)
    requires c in ColumnsOf(tmp, t)
    ensures exists k :: 0 <= k < |tmp| && tmp[k].0 == t && c in tmp[k].1
    decreases |tmp|
  {
    if tmp[0].0 != t {
      ColumnsOfIn(tmp[1..], t, c);
      var k :| 0 <= k < |tmp[1..]| && tmp[1..][k].0 == t && c in tmp[1..][k].1;
      assert tmp[k + 1] == tmp[1..][k];
    }
  }

  lemma {:induction false} AddOccurrenceColumns(tmp: seq<Entry>, t: string, c: string, u: string)
    ensures ColumnsOf(AddOccurrence(tmp, t, c), u) == ColumnsOf(tmp, u) + (if u == t then [c] else [])
    decreases |tmp|
  {
    if |tmp| > 0 && tmp[0].0 != t {
      AddOccurrenceColumns(tmp[1..], t, c, u);
      var r := AddOccurrence(tmp, t, c);
      assert r[1..] == AddOccurrence(tmp[1..], t, c);
    }
  }

  lemma DistinctNamesIff(s: seq<Entry>)
    ensures DistinctNames(s) <==> NoDuplicates(Names(s))
  {
    if DistinctNames(s) {
      forall i, j | 0 <= i < j < |Names(s)| ensures Names(s)[i] != Names(s)[j] {
        assert Names(s)[i] == s[i].0 && Names(s)[j] == s[j].0;
      }
    }
    if NoDuplicates(Names(s)) {
      forall i, j | 0 <= i < j < |s| ensures s[i].0 != s[j].0 {
        assert Names(s)[i] == s[i].0 && Names(s)[j] == s[j].0;
      }
    }
  }

  lemma AddOccurrenceDistinct(tmp: seq<Entry>, t: string, c: string)
    requires DistinctNames(tmp)
    ensures DistinctNames(AddOccurrence(tmp, t, c))
  {
    var r := AddOccurrence(tmp, t, c);
    DistinctNamesIff(tmp);
    DistinctNamesIff(r);
    if t !in Names(tmp) {
      var n := Names(tmp);
      forall i, j | 0 <= i < j < |n + [t]| ensures (n + [t])[i] != (n + [t])[j] {
        if j == |n| {
          assert (n + [t])[i] == n[i];
        }
      }
    }
  }

  /** Adding one column for each table listing it: the column joins the
      entry of each of those tables, and the names stay distinct. */
  lemma {:induction false} AddColumnSpec(tmp: seq<Entry>, c: string, ts: seq<string>)
    requires DistinctNames(tmp)
    ensures DistinctNames(AddColumn(tmp, c, ts))
    ensures forall u, x :: x in ColumnsOf(AddColumn(tmp, c, ts), u) <==> x in ColumnsOf(tmp, u) || (x == c && u in ts)
    decreases |ts|
  {
    if |ts| > 0 {
      var tmp' := AddOccurrence(tmp, ts[0], c);
      AddOccurrenceDistinct(tmp, ts[0], c);
      AddColumnSpec(tmp', c, ts[1..]);
      forall u, x ensures x in ColumnsOf(AddColumn(tmp, c, ts), u) <==> x in ColumnsOf(tmp, u) || (x == c && u in ts) {
        AddOccurrenceColumns(tmp, ts[0], c, u);
        assert u in ts <==> u == ts[0] || u in ts[1..];
      }
    }
  }

  /** The gathering loop fails exactly on a base name the catalog does not
      know, and reports that name. */
  lemma {:induction false} GatherFails(bases: seq<string>, lookup: map<string, seq<string>>)
    ensures Gather(bases, lookup).Err? <==> exists i :: 0 <= i < |bases| && bases[i] !in lookup
    ensures Gather(bases, lookup).Err? ==> Gather(bases, lookup).msg in bases && Gather(bases, lookup).msg !in lookup
  {
    if |bases| > 0 {
      var init := bases[..|bases| - 1];
      GatherFails(init, lookup);
      assert bases == init + [bases[|bases| - 1]];
      if exists i :: 0 <= i < |init| && init[i] !in lookup {
        var i :| 0 <= i < |init| && init[i] !in lookup;
        assert bases[i] == init[i];
      }
      if exists i :: 0 <= i < |bases| && bases[i] !in lookup {
        var i :| 0 <= i < |bases| && bases[i] !in lookup;
        if i < |init| { assert init[i] == bases[i]; }
      }
    }
  }

  /** On success every table entry lists exactly the requested base names
      the catalog places in that table, and no table is listed twice. */
  lemma {:induction false} GatherRecords(bases: seq<string>, lookup: map<string, seq<string>>, tmp: seq<Entry>)
    requires Gather(bases, lookup) == Ok(tmp)
    ensures DistinctNames(tmp)
    ensures forall t, c :: c in ColumnsOf(tmp, t) <==> c in bases && c in lookup && t in lookup[c]
  {
    if |bases| > 0 {
      var init := bases[..|bases| - 1];
      var b := bases[|bases| - 1];
      var pre := Gather(init, lookup).value;
      GatherRecords(init, lookup, pre);
      AddColumnSpec(pre, b, lookup[b]);
      assert forall c :: c in bases <==> c in init || c == b;
    }
  }

  /** One more base name for the gathering: a known name adds its tables,
      an unknown one fails with that name. */
  lemma GatherStep(bases: seq<string>, i: nat, lookup: map<string, seq<string>>, tmp: seq<Entry>)
    requires i < |bases| && Gather(bases[..i], lookup) == Ok(tmp)
    ensures bases[i] in lookup ==> Gather(bases[..i + 1], lookup) == Ok(AddColumn(tmp, bases[i], lookup[bases[i]]))
    ensures bases[i] !in lookup ==> Gather(bases[..i + 1], lookup) == Err(bases[i])
  {
    assert bases[..i + 1][..i] == bases[..i];
  }

  /** The inner loop of get_tables over the tables holding one base name. */
  method AddOccurrences(tmp0: seq<Entry>, c: string, ts: seq<string>) returns (tmp: seq<Entry>)
    ensures tmp == AddColumn(tmp0, c, ts)
  {
    tmp := tmp0;
    var k := 0;
    while k < |ts|
      invariant 0 <= k <= |ts|
      invariant AddColumn(tmp, c, ts[k..]) == AddColumn(tmp0, c, ts)
    {
      assert ts[k..][1..] == ts[k + 1..];
      tmp := AddOccurrence(tmp, ts[k], c);
      k := k + 1;
    }
  }

  /** The gathering loop of get_tables, over the columns as it runs. */
  method GatherTables(columns: seq<string>, lookup: map<string, seq<string>>) returns (r: Result<seq<Entry>>)
    ensures r == Gather(Bases(columns), lookup)
  {
    ghost var bases := Bases(columns);
    var tmp: seq<Entry> := [];
    var i := 0;
    while i < |columns|
      invariant 0 <= i <= |columns|
      invariant Gather(bases[..i], lookup) == Ok(tmp)
    {
      var c := BaseColumn(columns[i]);
      assert c == bases[i];
      GatherStep(bases, i, lookup, tmp);
      if c !in lookup {
        GatherFailsFrom(bases, lookup, i + 1);
        return Err(c);
      }
      tmp := AddOccurrences(tmp, c, lookup[c]);
      i := i + 1;
    }
    assert bases[..|columns|] == bases;
    r := Ok(tmp);
  }

  /** Once a prefix of the base names fails, the whole gathering fails the
      same way. */
  lemma {:induction false} GatherFailsFrom(bases: seq<string>, lookup: map<string, seq<string>>, n: nat)
    requires n <= |bases| && Gather(bases[..n], lookup).Err?
    ensures Gather(bases, lookup) == Gather(bases[..n], lookup)
    decreases |bases| - n
  {
    if n < |bases| {
      assert bases[..n + 1][..n] == bases[..n];
      GatherFailsFrom(bases, lookup, n + 1);
    } else {
      assert bases[..n] == bases;
    }
  }

  lemma {:induction false} AllColumnsIn(s: seq<Entry>, c: string)
    ensures c in AllColumns(s) <==> exists k :: 0 <= k < |s| && c in s[k].1
  {
    if |s| > 0 {
      AllColumnsIn(s[1..], c);
      if exists k :: 0 <= k < |s[1..]| && c in s[1..][k].1 {
        var k :| 0 <= k < |s[1..]| && c in s[1..][k].1;
        assert s[k + 1] == s[1..][k];
      }
      if exists k :: 0 <= k < |s| && c in s[k].1 {
        var k :| 0 <= k < |s| && c in s[k].1;
        if k > 0 { assert s[1..][k - 1] == s[k]; }
      }
    }
  }

  /** When every requested base name is listed for at least one table, the
      sorted candidates hold every requested base name. */
  lemma CandidatesCover(bases: seq<string>, lookup: map<string, seq<string>>, tmp: seq<Entry>)
    requires Gather(bases, lookup) == Ok(tmp)
    requires forall b :: b in bases ==> b in lookup && |lookup[b]| > 0
    ensures Elems(bases) <= AllColumns(SortedTables(tmp))
  {
    GatherRecords(bases, lookup, tmp);
    SortedTablesPermutes(tmp);
    var st := SortedTables(tmp);
    forall b | b in Elems(bases) ensures b in AllColumns(st) {
      var t := lookup[b][0];
      assert b in ColumnsOf(tmp, t);
      ColumnsOfIn(tmp, t, b);
      var k :| 0 <= k < |tmp| && tmp[k].0 == t && b in tmp[k].1;
      assert tmp[k] in multiset(st);
      var m :| 0 <= m < |st| && st[m] == tmp[k];
      AllColumnsIn(st, b);
    }
  }

  // -----------------------------------------------------------------------
  // get_tables as a whole

  predicate Resolvable(columns: seq<string>, lookup: map<string, seq<string>>)
  {
    |columns| > 0 && forall b :: b in Bases(columns) ==> b in lookup && |lookup[b]| > 0
  }

  /** filter_tables over the sorted candidates names distinct tables. */
  lemma FilteredDistinct(bases: seq<string>, lookup: map<string, seq<string>>, tmp: seq<Entry>)
    requires Gather(bases, lookup) == Ok(tmp)
    ensures FilterTables(Elems(bases), SortedTables(tmp), [], {}).Ok? ==>
      NoDuplicates(FilterTables(Elems(bases), SortedTables(tmp), [], {}).value)
  {
    var sorted := SortedTables(tmp);
    var query := Elems(bases);
    GatherRecords(bases, lookup, tmp);
    SortedTablesPermutes(tmp);
    PermutationKeepsDistinct(tmp, sorted);
    ChosenMatchesFilter(query, sorted, [], {});
    if Chosen(query, sorted, {}).Some? {
      var ix := Chosen(query, sorted, {}).value;
      FilterTablesSpec(query, sorted, ix);
      ChosenDistinct(sorted, ix);
    }
  }

  /** When every base name is listed for some table, filter_tables over the
      sorted candidates succeeds with at least one table. */
  lemma FilteredNonEmpty(bases: seq<string>, lookup: map<string, seq<string>>, tmp: seq<Entry>)
    requires Gather(bases, lookup) == Ok(tmp)
    requires |bases| > 0 && forall b :: b in bases ==> b in lookup && |lookup[b]| > 0
    ensures FilterTables(Elems(bases), SortedTables(tmp), [], {}).Ok?
    ensures |FilterTables(Elems(bases), SortedTables(tmp), [], {}).value| > 0
  {
    var sorted := SortedTables(tmp);
    var query := Elems(bases);
    CandidatesCover(bases, lookup, tmp);
    assert query - {} == query;
    FilterTablesSucceeds(query, sorted, [], {});
    ChosenMatchesFilter(query, sorted, [], {});
    var ix := Chosen(query, sorted, {}).value;
    FilterTablesSpec(query, sorted, ix);
    assert bases[0] in query;
  }

  /** What filter_tables makes of the gathered candidates: distinct tables,
      and, when every column resolves to some table, at least one. */
  lemma CoveringFacts(columns: seq<string>, lookup: map<string, seq<string>>, tmp: seq<Entry>)
    requires Gather(Bases(columns), lookup) == Ok(tmp)
    ensures Covering(columns, lookup) == FilterTables(Elems(Bases(columns)), SortedTables(tmp), [], {})
    ensures Covering(columns, lookup).Ok? ==> NoDuplicates(Covering(columns, lookup).value)
    ensures Resolvable(columns, lookup) ==> Covering(columns, lookup).Ok? && |Covering(columns, lookup).value| > 0
  {
    FilteredDistinct(Bases(columns), lookup, tmp);
    if Resolvable(columns, lookup) {
      FilteredNonEmpty(Bases(columns), lookup, tmp);
    }
  }

  /** get_tables: resolve every requested column to its base name and the
      tables holding it, sort and filter those tables, and connect the
      survivors by join paths. */
  method PlanTables(columns: seq<string>, g: Graph, lookup: map<string, seq<string>>, fuel: nat) returns (r: Plan)
    ensures r.Unresolved? <==> exists i :: 0 <= i < |columns| && BaseColumn(columns[i]) !in lookup
    ensures r.Unresolved? ==> r.column in Bases(columns) && r.column !in lookup
    ensures r.Planned? ==>
      && Covering(columns, lookup).Ok? && |Covering(columns, lookup).value| > 0
      && |r.tables| > 0 && r.tables[0] == Covering(columns, lookup).value[0]
      && (forall t :: t in Covering(columns, lookup).value ==> t in r.tables)
      && NoDuplicates(r.tables)
    ensures r.Planned? && r.joins.None? ==> r.tables == Covering(columns, lookup).value && |r.tables| == 1
    ensures r.Planned? && r.joins.Some? ==>
      && EdgesWithin(r.joins.value, r.tables)
      && NoRepeatedEdge(r.joins.value)
      && (forall e :: e in r.joins.value ==> StoredEdge(g, e))
    ensures r.Disconnected? ==>
      Covering(columns, lookup).Ok? && exists t :: t in Covering(columns, lookup).value && t !in r.added
    ensures (Resolvable(columns, lookup) && GraphWf(g) && fuel >= 1) ==> !r.Crashed?
  {
    var bases := Bases(columns);
    assert forall i :: 0 <= i < |columns| ==> bases[i] == BaseColumn(columns[i]);
    var gathered := GatherTables(columns, lookup);
    GatherFails(bases, lookup);
    if gathered.Err? {
      return Unresolved(gathered.msg);
    }
    var tmp := gathered.value;
    CoveringFacts(columns, lookup, tmp);
    var sorted := SortTables(tmp);
    var filtered := FilterTables(Elems(bases), sorted, [], {});
    if filtered.Err? {
      return Crashed(filtered.msg);
    }
    var tables := filtered.value;
    if |tables| == 1 {
      return Planned(tables, None);
    }
    if |tables| == 0 {
      return Crashed("list index out of range");
    }
    r := ConnectTables(tables, g, fuel);
  }

  // -----------------------------------------------------------------------
  // check_for_ambiguous_columns

  /** The tables of `tableList` that also hold the base name of column `c`. */
  function CommonTables(c: string, tableList: seq<string>, lookup: map<string, seq<string>>): set<string>
    requires AmbiguityBase(c) in lookup
  {
    Elems(lookup[AmbiguityBase(c)]) * Elems(tableList)
  }

  predicate Ambiguous(c: string, tableList: seq<string>, lookup: map<string, seq<string>>)
  {
    AmbiguityBase(c) in lookup && |CommonTables(c, tableList, lookup)| > 1
  }

  /** `p` rewrites an ambiguous column by qualifying its base name with one
      of the tables that hold it. */
  predicate Qualifies(p: (string, string), tableList: seq<string>, lookup: map<string, seq<string>>)
  {
    var b := AmbiguityBase(p.0);
    Ambiguous(p.0, tableList, lookup)
    && exists t :: t in CommonTables(p.0, tableList, lookup) && p.1 == Replace(p.0, b, t + "." + b)
  }

  function Firsts(ps: seq<(string, string)>): seq<string>
  {
    seq(|ps|, i requires 0 <= i < |ps| => ps[i].0)
  }

  /** What check_for_ambiguous_columns may return: one rewrite per
      ambiguous column, each qualifying it with a table that holds it. */
  ghost predicate AmbiguityOk(amb: seq<(string, string)>, columns: seq<string>, tableList: seq<string>,
                              lookup: map<string, seq<string>>)
  {
    && NoDuplicates(Firsts(amb))
    && (forall p :: p in amb ==> p.0 in columns && Qualifies(p, tableList, lookup))
    && (forall c :: c in columns && Ambiguous(c, tableList, lookup) ==> c in Firsts(amb))
  }

  /** What get_tables returns when it plans: the covering tables, first
      the first of them, joined by stored edges among the planned tables
      when there is more than one. */
  ghost predicate PlanOk(columns: seq<string>, g: Graph, lookup: map<string, seq<string>>,
                         tables: seq<string>, joinList: Option<seq<Edge>>)
  {
    && Covering(columns, lookup).Ok? && |Covering(columns, lookup).value| > 0
    && |tables| > 0 && tables[0] == Covering(columns, lookup).value[0]
    && (forall t :: t in Covering(columns, lookup).value ==> t in tables)
    && NoDuplicates(tables)
    && (joinList.None? ==> tables == Covering(columns, lookup).value && |tables| == 1)
    && (joinList.Some? ==>
          && EdgesWithin(joinList.value, tables)
          && NoRepeatedEdge(joinList.value)
          && (forall e :: e in joinList.value ==> StoredEdge(g, e)))
  }

  /** check_for_ambiguous_columns. The columns are visited as a set, in no
      particular order, and the qualifying table is an arbitrary member of a
      set; the contract holds for every such choice. */
  method CheckForAmbiguousColumns(columns: seq<string>, tableList: seq<string>, lookup: map<string, seq<string>>)
    returns (r: Result<seq<(string, string)>>)
    ensures r.Err? <==> exists c :: c in columns && AmbiguityBase(c) !in lookup
    ensures r.Ok? ==> NoDuplicates(Firsts(r.value))
    ensures r.Ok? ==> forall p :: p in r.value ==> p.0 in columns && Qualifies(p, tableList, lookup)
    ensures r.Ok? ==> forall c :: c in columns && Ambiguous(c, tableList, lookup) ==> c in Firsts(r.value)
  {
    var todo := Elems(columns);
    var out: seq<(string, string)> := [];
    while todo != {}
      invariant todo <= Elems(columns)
      invariant forall c :: c in Elems(columns) - todo ==> AmbiguityBase(c) in lookup
      invariant forall p :: p in out ==> p.0 in Elems(columns) - todo && Qualifies(p, tableList, lookup)
      invariant forall c :: c in Elems(columns) - todo && Ambiguous(c, tableList, lookup) ==> c in Firsts(out)
      invariant forall c :: c in Firsts(out) ==> c !in todo
      invariant NoDuplicates(Firsts(out))
      decreases |todo|
    {
      var c :| c in todo;
      var b := AmbiguityBase(c);
      if b !in lookup {
        return Err("KeyError: " + b);
      }
      var common := Elems(lookup[b]) * Elems(tableList);
      if |common| > 1 {
        var t :| t in common;
        var p := (c, Replace(c, b, t + "." + b));
        assert Qualifies(p, tableList, lookup);
        assert Firsts(out + [p]) == Firsts(out) + [c];
        out := out + [p];
      }
      todo := todo - {c};
    }
    return Ok(out);
  }
}
