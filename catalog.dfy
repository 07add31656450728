/** The schema catalog of the query engine (DB_SQLite in
    src/mpradb/database/db_to_sqlite.py): the column -> tables index, the
    declared type of every column name, the column list of every table, and
    the table adjacency map with one stored join edge per unordered table
    pair. What SQLite reports through PRAGMA table_info and
    PRAGMA foreign_key_list is taken as given data. */
module Catalog {
  import opened Common

  datatype ColumnDecl = ColumnDecl(name: string, dtype: string)

  /** A table as PRAGMA table_info lists it: its columns in order. */
  datatype TableSchema = TableSchema(name: string, columns: seq<ColumnDecl>)

  /** A row of PRAGMA foreign_key_list(table): `table.column` references
      `refTable.refColumn`. */
  datatype ForeignKey = ForeignKey(table: string, column: string, refTable: string, refColumn: string)

  /** A (table, column) pair. */
  type Endpoint = (string, string)

  /** A stored join edge: the two (table, column) pairs sorted by table. */
  datatype Edge = Edge(a: Endpoint, b: Endpoint)

  /** `table_conn` (adjacency lists) and `foreign_keys` (edge per sorted
      table-name pair). */
  datatype Graph = Graph(conn: map<string, seq<string>>, fks: map<(string, string), Edge>)

  /** `columns` (key order of `column_lookup`), `column_lookup`,
      `column_dtype` and `table_columns`. */
  datatype Lookups = Lookups(
    columnOrder: seq<string>,
    columnLookup: map<string, seq<string>>,
    columnDtype: map<string, string>,
    tableColumns: map<string, seq<string>>)

  const EmptyLookups := Lookups([], map[], map[], map[])
  const EmptyGraph := Graph(map[], map[])

  function Get<K, V>(m: map<K, seq<V>>, k: K): seq<V>
  {
    if k in m then m[k] else []
  }

  // -----------------------------------------------------------------------
  // build_column_lookups

  /** The walk of build_column_lookups: each table starts an empty column
      list, then each of its columns is declared in turn. */
  datatype Event = StartTable(t: string) | Declare(t: string, d: ColumnDecl)

  function TableEvents(t: string, cols: seq<ColumnDecl>): seq<Event>
  {
    if |cols| == 0 then [] else [Declare(t, cols[0])] + TableEvents(t, cols[1..])
  }

  function Events(schema: seq<TableSchema>): seq<Event>
  {
    if |schema| == 0 then []
    else [StartTable(schema[0].name)] + TableEvents(schema[0].name, schema[0].columns) + Events(schema[1..])
  }

  predicate LookupsWf(l: Lookups)
  {
    l.columnLookup.Keys == l.columnDtype.Keys
  }

  /** One step of the walk. A declared type that differs from the first
      type recorded for that column name raises. */
  function Step(l: Lookups, e: Event): Result<Lookups>
  {
    match e
    case StartTable(t) => Ok(l.(tableColumns := l.tableColumns[t := []]))
    case Declare(t, d) =>
      var l1 :=
        if d.name !in l.columnLookup then
          l.(columnOrder := l.columnOrder + [d.name],
             columnLookup := l.columnLookup[d.name := []],
             columnDtype := l.columnDtype[d.name := d.dtype])
        else l;
      var l2 := l1.(columnLookup := l1.columnLookup[d.name := Get(l1.columnLookup, d.name) + [t]],
                    tableColumns := l1.tableColumns[t := Get(l1.tableColumns, t) + [d.name]]);
      if d.name in l1.columnDtype && d.dtype != l1.columnDtype[d.name] then
        Err(d.name + " in table " + t + " is " + d.dtype + ", whereas in table " + t + " " + l1.columnDtype[d.name])
      else Ok(l2)
  }

  function Fold(l: Lookups, evs: seq<Event>): Result<Lookups>
    decreases |evs|
  {
    if |evs| == 0 then Ok(l)
    else match Step(l, evs[0])
      case Err(m) => Err(m)
      case Ok(l') => Fold(l', evs[1..])
  }

  /** The catalog build_column_lookups leaves for these tables, or the
      type conflict it raises. */
  function BuildLookups(schema: seq<TableSchema>): Result<Lookups>
  {
    Fold(EmptyLookups, Events(schema))
  }

  function Decls(evs: seq<Event>): seq<ColumnDecl>
  {
    if |evs| == 0 then []
    else (if evs[0].Declare? then [evs[0].d] else []) + Decls(evs[1..])
  }

  /** The tables, in order and with repeats, whose declarations name `c`. */
  function TablesDeclaring(evs: seq<Event>, c: string): seq<string>
  {
    if |evs| == 0 then []
    else (if evs[0].Declare? && evs[0].d.name == c then [evs[0].t] else []) + TablesDeclaring(evs[1..], c)
  }

  /** Every column name carries one declared type: the one already in `dt`,
      if any, and the same at every declaration. */
  predicate TypesAgree(dt: map<string, string>, ds: seq<ColumnDecl>)
  {
    && (forall i :: 0 <= i < |ds| && ds[i].name in dt ==> ds[i].dtype == dt[ds[i].name])
    && (forall i, j :: 0 <= i < |ds| && 0 <= j < |ds| && ds[i].name == ds[j].name ==> ds[i].dtype == ds[j].dtype)
  }

  lemma {:induction false} FoldAppend(l: Lookups, a: seq<Event>, b: seq<Event>)
    ensures Fold(l, a + b) == match Fold(l, a) case Err(m) => Err(m) case Ok(l') => Fold(l', b)
    decreases |a|
  {
    if |a| > 0 {
      assert (a + b)[0] == a[0] && (a + b)[1..] == a[1..] + b;
      match Step(l, a[0])
      case Err(m) =>
      case Ok(l') => FoldAppend(l', a[1..], b);
    } else {
      assert a + b == b;
    }
  }

  /** Folding from table i on: start the table, declare its columns,
      then fold the tables after it. */
  lemma FoldTable(l: Lookups, schema: seq<TableSchema>, i: nat)
    requires i < |schema|
    ensures var t := schema[i].name;
      Fold(l, Events(schema[i..]))
      == match Fold(l.(tableColumns := l.tableColumns[t := []]), TableEvents(t, schema[i].columns))
         case Err(m) => Err(m)
         case Ok(l') => Fold(l', Events(schema[i + 1..]))
  {
    var t := schema[i].name;
    var tevs := TableEvents(t, schema[i].columns);
    var rest := Events(schema[i + 1..]);
    assert schema[i..][1..] == schema[i + 1..];
    var evs := Events(schema[i..]);
    assert evs == [StartTable(t)] + (tevs + rest);
    assert evs[0] == StartTable(t) && evs[1..] == tevs + rest;
    FoldAppend(l.(tableColumns := l.tableColumns[t := []]), tevs, rest);
  }

  lemma {:induction false} TypesAgreeCons(dt: map<string, string>, d: ColumnDecl, rest: seq<ColumnDecl>)
    ensures TypesAgree(dt, [d] + rest) <==>
      (d.name in dt ==> d.dtype == dt[d.name]) && TypesAgree(dt[d.name := d.dtype], rest)
  {
    var ds := [d] + rest;
    var dt' := dt[d.name := d.dtype];
    assert forall i :: 0 <= i < |rest| ==> rest[i] == ds[i + 1];
    if TypesAgree(dt, ds) {
      forall i | 0 <= i < |rest| && rest[i].name in dt'
        ensures rest[i].dtype == dt'[rest[i].name]
      {
        assert ds[i + 1] == rest[i];
        if rest[i].name == d.name {
          assert ds[0].name == ds[i + 1].name;
        }
      }
      forall i, j | 0 <= i < |rest| && 0 <= j < |rest| && rest[i].name == rest[j].name
        ensures rest[i].dtype == rest[j].dtype
      {
        assert ds[i + 1].name == ds[j + 1].name;
      }
      assert ds[0] == d;
      assert TypesAgree(dt', rest);
    }
    if (d.name in dt ==> d.dtype == dt[d.name]) && TypesAgree(dt', rest) {
      forall i | 0 <= i < |ds| && ds[i].name in dt
        ensures ds[i].dtype == dt[ds[i].name]
      {
        if i > 0 {
          var r := rest[i - 1];
          assert ds[i] == r;
          assert r.name in dt';
          assert r.dtype == dt'[r.name];
          if r.name == d.name {
            assert dt[d.name] == d.dtype;
          } else {
            assert dt'[r.name] == dt[r.name];
          }
        }
      }
      forall i, j | 0 <= i < |ds| && 0 <= j < |ds| && ds[i].name == ds[j].name
        ensures ds[i].dtype == ds[j].dtype
      {
        if i > 0 && j > 0 {
          assert ds[i] == rest[i - 1] && ds[j] == rest[j - 1];
        } else if i > 0 {
          assert ds[i] == rest[i - 1] && rest[i - 1].name in dt';
        } else if j > 0 {
          assert ds[j] == rest[j - 1] && rest[j - 1].name in dt';
        }
      }
      assert TypesAgree(dt, ds);
    }
  }

  lemma {:induction false} FoldOkIff(l: Lookups, evs: seq<Event>)
    requires LookupsWf(l)
    ensures Fold(l, evs).Ok? <==> TypesAgree(l.columnDtype, Decls(evs))
    decreases |evs|
  {
    if |evs| > 0 {
      match evs[0]
      case StartTable(t) =>
        var l' := l.(tableColumns := l.tableColumns[t := []]);
        assert Decls(evs) == Decls(evs[1..]);
        FoldOkIff(l', evs[1..]);
      case Declare(t, d) =>
        TypesAgreeCons(l.columnDtype, d, Decls(evs[1..]));
        assert Decls(evs) == [d] + Decls(evs[1..]);
        if Step(l, evs[0]).Ok? {
          var l' := Step(l, evs[0]).value;
          assert l'.columnDtype == l.columnDtype[d.name := d.dtype];
          FoldOkIff(l', evs[1..]);
        }
    }
  }

  lemma {:induction false} DeclsAppend(a: seq<Event>, b: seq<Event>)
    ensures Decls(a + b) == Decls(a) + Decls(b)
  {
    if |a| > 0 {
      assert (a + b)[1..] == a[1..] + b;
      DeclsAppend(a[1..], b);
    } else {
      assert a + b == b;
    }
  }

  lemma {:induction false} TableEventsAppend(t: string, cols: seq<ColumnDecl>, d: ColumnDecl)
    ensures TableEvents(t, cols + [d]) == TableEvents(t, cols) + [Declare(t, d)]
  {
    if |cols| > 0 {
      assert (cols + [d])[1..] == cols[1..] + [d];
      TableEventsAppend(t, cols[1..], d);
    } else {
      assert cols + [d] == [d];
    }
  }

  /** Every (table, column) declaration of the schema, in catalog order. */
  function AllDecls(schema: seq<TableSchema>): seq<ColumnDecl>
  {
    Decls(Events(schema))
  }

  /** build_column_lookups raises exactly when one column name is declared
      with two different types somewhere in the schema. */
  lemma BuildLookupsFailsIffTypeConflict(schema: seq<TableSchema>)
    ensures BuildLookups(schema).Err? <==>
      exists i, j :: 0 <= i < |AllDecls(schema)| && 0 <= j < |AllDecls(schema)|
        && AllDecls(schema)[i].name == AllDecls(schema)[j].name
        && AllDecls(schema)[i].dtype != AllDecls(schema)[j].dtype
  {
    var ds := AllDecls(schema);
    FoldOkIff(EmptyLookups, Events(schema));
    assert EmptyLookups.columnDtype == map[];
    if BuildLookups(schema).Err? {
      assert !TypesAgree(map[], ds);
      assert !(forall i, j :: 0 <= i < |ds| && 0 <= j < |ds| && ds[i].name == ds[j].name ==> ds[i].dtype == ds[j].dtype);
    }
  }

  lemma {:induction false} FoldLookup(l: Lookups, evs: seq<Event>, c: string)
    requires Fold(l, evs).Ok?
    ensures Get(Fold(l, evs).value.columnLookup, c) == Get(l.columnLookup, c) + TablesDeclaring(evs, c)
    ensures c in Fold(l, evs).value.columnLookup <==> c in l.columnLookup || |TablesDeclaring(evs, c)| > 0
    decreases |evs|
  {
    if |evs| > 0 {
      var l' := Step(l, evs[0]).value;
      StepLookup(l, evs[0], c);
      FoldLookup(l', evs[1..], c);
      assert TablesDeclaring(evs, c) == TablesDeclaring([evs[0]], c) + TablesDeclaring(evs[1..], c);
    }
  }

  /** One step of the walk appends the table to `column_lookup[c]` exactly
      when it declares `c`. */
  lemma StepLookup(l: Lookups, e: Event, c: string)
    requires Step(l, e).Ok?
    ensures Get(Step(l, e).value.columnLookup, c) == Get(l.columnLookup, c) + TablesDeclaring([e], c)
    ensures c in Step(l, e).value.columnLookup <==> c in l.columnLookup || |TablesDeclaring([e], c)| > 0
  {
    assert TablesDeclaring([e], c) == if e.Declare? && e.d.name == c then [e.t] else [];
  }

  /** On success, `column_lookup[c]` lists, in table order, every table
      that declares `c` (and nothing else is a key). */
  lemma BuildLookupsListsTables(schema: seq<TableSchema>, c: string)
    requires BuildLookups(schema).Ok?
    ensures Get(BuildLookups(schema).value.columnLookup, c) == TablesDeclaring(Events(schema), c)
    ensures c in BuildLookups(schema).value.columnLookup <==> |TablesDeclaring(Events(schema), c)| > 0
  {
    FoldLookup(EmptyLookups, Events(schema), c);
  }

  // -----------------------------------------------------------------------
  // add_connection, update_table_conn, get_join

  /** `tuple(sorted([t1, t2]))`. */
  function PairKey(t1: string, t2: string): (string, string)
  {
    if StrLt(t2, t1) then (t2, t1) else (t1, t2)
  }

  /** `sorted([(t1, c1), (t2, c2)], key = table)`, a stable sort. */
  function SortEndpoints(p1: Endpoint, p2: Endpoint): Edge
  {
    if StrLt(p2.0, p1.0) then Edge(p2, p1) else Edge(p1, p2)
  }

  /** The edge joins tables `t` and `u`, in one orientation or the other. */
  predicate Joins(e: Edge, t: string, u: string)
  {
    (e.a.0 == t && e.b.0 == u) || (e.a.0 == u && e.b.0 == t)
  }

  /** The catalog's adjacency invariant: adjacency is symmetric, every
      adjacent pair has a stored edge under its sorted name pair, and every
      stored edge joins exactly the two tables of its key. */
  predicate GraphWf(g: Graph)
  {
    && (forall t, u :: t in g.conn && u in g.conn[t] ==> u in g.conn && t in g.conn[u])
    && (forall t, u :: t in g.conn && u in g.conn[t] ==> PairKey(t, u) in g.fks)
    && (forall k :: k in g.fks ==> g.fks[k].a.0 == k.0 && g.fks[k].b.0 == k.1 && StrLe(k.0, k.1))
  }

  /** `conn.setdefault(t, []).append(u)`. */
  function Append(conn: map<string, seq<string>>, t: string, u: string): map<string, seq<string>>
  {
    conn[t := Get(conn, t) + [u]]
  }

  /** add_connection. `unidirectional` is fixed to False in the source, so
      adjacency is always recorded both ways. */
  function AddConnection(g: Graph, t1: string, c1: string, t2: string, c2: string): Graph
  {
    var key := SortEndpoints((t1, c1), (t2, c2));
    Graph(Append(Append(g.conn, t1, t2), t2, t1), g.fks[(key.a.0, key.b.0) := key])
  }

  /** get_join: the stored edge of the pair; None is the KeyError. */
  function GetJoin(g: Graph, t1: string, t2: string): Option<Edge>
  {
    var key := PairKey(t1, t2);
    if key in g.fks then Some(g.fks[key]) else None
  }

  lemma SortEndpointsKey(t1: string, c1: string, t2: string, c2: string)
    ensures var e := SortEndpoints((t1, c1), (t2, c2));
      (e.a.0, e.b.0) == PairKey(t1, t2) && StrLe(e.a.0, e.b.0) && Joins(e, t1, t2)
  {
    StrLtTotal(t1, t2);
  }

  lemma PairKeySymmetric(t: string, u: string)
    ensures PairKey(t, u) == PairKey(u, t)
  {
    StrLtTotal(t, u);
    if StrLt(t, u) { StrLtAsym(t, u); }
    if StrLt(u, t) { StrLtAsym(u, t); }
  }

  lemma AppendAdjacency(conn: map<string, seq<string>>, t: string, x: string, v: string, u: string)
    ensures var c := Append(conn, t, x);
      (v in c && u in c[v]) <==> (v in conn && u in conn[v]) || (v == t && u == x)
  {
  }

  /** The adjacency after add_connection is the earlier adjacency plus the
      new pair in both directions. */
  lemma AddConnectionAdjacency(g: Graph, t1: string, c1: string, t2: string, c2: string, t: string, u: string)
    ensures Adjacent(AddConnection(g, t1, c1, t2, c2), t, u) <==>
      Adjacent(g, t, u) || (t == t1 && u == t2) || (t == t2 && u == t1)
  {
    AppendAdjacency(g.conn, t1, t2, t, u);
    AppendAdjacency(Append(g.conn, t1, t2), t2, t1, t, u);
  }

  /** add_connection records the adjacency both ways, stores the edge under
      the sorted table pair with its endpoints sorted by table (replacing
      any earlier edge of that pair), keeps every earlier adjacency and
      every other stored edge, and keeps the catalog invariant. */
  lemma AddConnectionSpec(g: Graph, t1: string, c1: string, t2: string, c2: string)
    requires GraphWf(g)
    ensures var g' := AddConnection(g, t1, c1, t2, c2);
      && GraphWf(g')
      && Adjacent(g', t1, t2) && Adjacent(g', t2, t1)
      && GetJoin(g', t1, t2) == Some(SortEndpoints((t1, c1), (t2, c2)))
      && (forall t, u :: Adjacent(g, t, u) ==> Adjacent(g', t, u))
      && (forall k :: k in g.fks && k != PairKey(t1, t2) ==> k in g'.fks && g'.fks[k] == g.fks[k])
  {
    var g' := AddConnection(g, t1, c1, t2, c2);
    SortEndpointsKey(t1, c1, t2, c2);
    AddConnectionAdjacency(g, t1, c1, t2, c2, t1, t2);
    AddConnectionAdjacency(g, t1, c1, t2, c2, t2, t1);
    forall t, u | Adjacent(g, t, u)
      ensures Adjacent(g', t, u)
    {
      AddConnectionAdjacency(g, t1, c1, t2, c2, t, u);
    }
    AddConnectionWf(g, t1, c1, t2, c2);
  }

  /** add_connection keeps the graph invariant. */
  lemma AddConnectionWf(g: Graph, t1: string, c1: string, t2: string, c2: string)
    requires GraphWf(g)
    ensures GraphWf(AddConnection(g, t1, c1, t2, c2))
  {
    var g' := AddConnection(g, t1, c1, t2, c2);
    SortEndpointsKey(t1, c1, t2, c2);
    PairKeySymmetric(t1, t2);
    forall t, u | t in g'.conn && u in g'.conn[t]
      ensures u in g'.conn && t in g'.conn[u] && PairKey(t, u) in g'.fks
    {
      AddConnectionAdjacency(g, t1, c1, t2, c2, t, u);
      AddConnectionAdjacency(g, t1, c1, t2, c2, u, t);
      if !Adjacent(g, t, u) {
        assert PairKey(t, u) == PairKey(t1, t2);
      }
    }
  }

  /** With the invariant, two adjacent tables always have a stored edge, and
      it joins exactly those two tables. */
  lemma GetJoinOfNeighbours(g: Graph, t: string, u: string)
    requires GraphWf(g)
    requires t in g.conn && u in g.conn[t]
    ensures GetJoin(g, t, u).Some? && Joins(GetJoin(g, t, u).value, t, u)
  {
    var k := PairKey(t, u);
    assert k in g.fks;
  }

  /** The pairs `itertools.combinations(ts, 2)` yields, in its order. */
  function Combinations<T>(ts: seq<T>): seq<(T, T)>
  {
    if |ts| == 0 then []
    else seq(|ts| - 1, k requires 0 <= k < |ts| - 1 => (ts[0], ts[k + 1])) + Combinations(ts[1..])
  }

  function ConnectPairs(g: Graph, c: string, pairs: seq<(string, string)>): Graph
    decreases |pairs|
  {
    if |pairs| == 0 then g else ConnectPairs(AddConnection(g, pairs[0].0, c, pairs[0].1, c), c, pairs[1..])
  }

  /** update_table_conn: every two tables that share a column name are
      connected through that column, column by column in catalog order. */
  function ShareColumns(g: Graph, order: seq<string>, lookup: map<string, seq<string>>): Graph
    decreases |order|
  {
    if |order| == 0 then g
    else ShareColumns(ConnectPairs(g, order[0], Combinations(Get(lookup, order[0]))), order[1..], lookup)
  }

  /** get_foriegn_keys as a walk over the declared foreign keys. */
  function ConnectForeignKeys(g: Graph, fks: seq<ForeignKey>): Graph
    decreases |fks|
  {
    if |fks| == 0 then g
    else ConnectForeignKeys(AddConnection(g, fks[0].table, fks[0].column, fks[0].refTable, fks[0].refColumn), fks[1..])
  }

  predicate Adjacent(g: Graph, t: string, u: string)
  {
    t in g.conn && u in g.conn[t]
  }

  lemma {:induction false} ConnectPairsSpec(g: Graph, c: string, pairs: seq<(string, string)>)
    requires GraphWf(g)
    ensures GraphWf(ConnectPairs(g, c, pairs))
    ensures forall t, u :: Adjacent(g, t, u) ==> Adjacent(ConnectPairs(g, c, pairs), t, u)
    ensures forall i :: 0 <= i < |pairs| ==>
      Adjacent(ConnectPairs(g, c, pairs), pairs[i].0, pairs[i].1) && Adjacent(ConnectPairs(g, c, pairs), pairs[i].1, pairs[i].0)
    decreases |pairs|
  {
    if |pairs| > 0 {
      var g1 := AddConnection(g, pairs[0].0, c, pairs[0].1, c);
      AddConnectionSpec(g, pairs[0].0, c, pairs[0].1, c);
      ConnectPairsSpec(g1, c, pairs[1..]);
      forall i | 0 <= i < |pairs|
        ensures Adjacent(ConnectPairs(g, c, pairs), pairs[i].0, pairs[i].1) && Adjacent(ConnectPairs(g, c, pairs), pairs[i].1, pairs[i].0)
      {
        if i > 0 { assert pairs[i] == pairs[1..][i - 1]; }
      }
    }
  }

  lemma {:induction false} CombinationsContains<T>(ts: seq<T>, i: nat, j: nat)
    requires i < j < |ts|
    ensures (ts[i], ts[j]) in Combinations(ts)
  {
    var head := seq(|ts| - 1, k requires 0 <= k < |ts| - 1 => (ts[0], ts[k + 1]));
    if i == 0 {
      assert head[j - 1] == (ts[0], ts[j]);
    } else {
      CombinationsContains(ts[1..], i - 1, j - 1);
    }
  }

  /** After update_table_conn, every two tables listed for one column are
      adjacent in both directions; earlier adjacency is kept. */
  lemma {:induction false} ShareColumnsConnects(g: Graph, order: seq<string>, lookup: map<string, seq<string>>)
    requires GraphWf(g)
    ensures GraphWf(ShareColumns(g, order, lookup))
    ensures forall t, u :: Adjacent(g, t, u) ==> Adjacent(ShareColumns(g, order, lookup), t, u)
    ensures forall c, i, j :: c in order && 0 <= i < j < |Get(lookup, c)| ==>
      Adjacent(ShareColumns(g, order, lookup), Get(lookup, c)[i], Get(lookup, c)[j])
      && Adjacent(ShareColumns(g, order, lookup), Get(lookup, c)[j], Get(lookup, c)[i])
    decreases |order|
  {
    if |order| > 0 {
      var c0 := order[0];
      var ps := Combinations(Get(lookup, c0));
      var g1 := ConnectPairs(g, c0, ps);
      ConnectPairsSpec(g, c0, ps);
      ShareColumnsConnects(g1, order[1..], lookup);
      var g' := ShareColumns(g, order, lookup);
      forall c, i, j | c in order && 0 <= i < j < |Get(lookup, c)|
        ensures Adjacent(g', Get(lookup, c)[i], Get(lookup, c)[j]) && Adjacent(g', Get(lookup, c)[j], Get(lookup, c)[i])
      {
        if c == c0 {
          CombinationsContains(Get(lookup, c0), i, j);
          var k :| 0 <= k < |ps| && ps[k] == (Get(lookup, c)[i], Get(lookup, c)[j]);
        } else {
          assert c in order[1..];
        }
      }
    }
  }

  /** After loading the foreign keys, the two tables of every key are
      adjacent in both directions. */
  lemma {:induction false} ConnectForeignKeysConnects(g: Graph, fks: seq<ForeignKey>)
    requires GraphWf(g)
    ensures GraphWf(ConnectForeignKeys(g, fks))
    ensures forall t, u :: Adjacent(g, t, u) ==> Adjacent(ConnectForeignKeys(g, fks), t, u)
    ensures forall i :: 0 <= i < |fks| ==>
      Adjacent(ConnectForeignKeys(g, fks), fks[i].table, fks[i].refTable)
      && Adjacent(ConnectForeignKeys(g, fks), fks[i].refTable, fks[i].table)
    decreases |fks|
  {
    if |fks| > 0 {
      var f := fks[0];
      var g1 := AddConnection(g, f.table, f.column, f.refTable, f.refColumn);
      AddConnectionSpec(g, f.table, f.column, f.refTable, f.refColumn);
      ConnectForeignKeysConnects(g1, fks[1..]);
      forall i | 0 <= i < |fks|
        ensures Adjacent(ConnectForeignKeys(g, fks), fks[i].table, fks[i].refTable)
          && Adjacent(ConnectForeignKeys(g, fks), fks[i].refTable, fks[i].table)
      {
        if i > 0 { assert fks[i] == fks[1..][i - 1]; }
      }
    }
  }

  // ---------------------------------------------------------------------
  // The CREATE TABLE text of new_table.

  /** The class-level `dtypes` table: Python type name -> SQLite type. */
  function SqlType(d: string): (r: Option<string>)
    ensures r.Some? <==> d in {"int", "float", "str", "bytes"}
  {
    if d == "int" then Some("INTEGER")
    else if d == "float" then Some("REAL")
    else if d == "str" then Some("TEXT")
    else if d == "bytes" then Some("BLOB")
    else None
  }

  /** Position i of the enumerate loop fails: an unknown type is reported
      before `columns[i]` is read, which raises IndexError past the end. */
  predicate BadColumn(columns: seq<string>, dataTypes: seq<string>, i: nat)
    requires i < |dataTypes|
  {
    SqlType(dataTypes[i]).None? || i >= |columns|
  }

  predicate GoodColumns(columns: seq<string>, dataTypes: seq<string>)
  {
    forall i :: 0 <= i < |dataTypes| ==> !BadColumn(columns, dataTypes, i)
  }

  /** The definition written for position i: `f'{columns[i]} {dtypes[d]}'`. */
  function ColumnDef(columns: seq<string>, dataTypes: seq<string>, i: nat): string
    requires i < |dataTypes| && !BadColumn(columns, dataTypes, i)
  {
    columns[i] + " " + SqlType(dataTypes[i]).value
  }

  function ForeignKeyDef(f: (string, string, string)): string
  {
    "FOREIGN KEY (" + f.0 + ") REFERENCES " + f.1 + "(" + f.2 + ")"
  }

  function CreateText(tableName: string, temporary: bool, defs: seq<string>): string
  {
    (if temporary then "CREATE TEMPORARY TABLE IF NOT EXISTS " else "CREATE TABLE IF NOT EXISTS ")
    + tableName + " (" + Join(", ", defs) + ")"
  }

  /** Position i is the first failing position of the loop, and msg is
      what it raises. */
  predicate FailsFirstAt(columns: seq<string>, dataTypes: seq<string>, i: nat, msg: string)
  {
    && i < |dataTypes| && BadColumn(columns, dataTypes, i)
    && (forall j :: 0 <= j < i ==> !BadColumn(columns, dataTypes, j))
    && msg == (if SqlType(dataTypes[i]).None? then "Invalid data type: " + dataTypes[i]
               else "list index out of range")
  }

  predicate HasPrimaryKey(primaryKey: Option<string>)
  {
    primaryKey.Some? && primaryKey.value != ""
  }

  /** The definitions between the parentheses: one per data type, then the
      primary key when given, then one per foreign key. */
  predicate DefsFor(columns: seq<string>, dataTypes: seq<string>, primaryKey: Option<string>,
                    foreignKeys: seq<(string, string, string)>, defs: seq<string>)
  {
    && GoodColumns(columns, dataTypes)
    && |defs| == |dataTypes| + (if HasPrimaryKey(primaryKey) then 1 else 0) + |foreignKeys|
    && (forall i :: 0 <= i < |dataTypes| ==> defs[i] == ColumnDef(columns, dataTypes, i))
    && (HasPrimaryKey(primaryKey) ==> defs[|dataTypes|] == "PRIMARY KEY (" + primaryKey.value + ")")
    && (forall k :: 0 <= k < |foreignKeys| ==> defs[|defs| - |foreignKeys| + k] == ForeignKeyDef(foreignKeys[k]))
  }

  /** The enumerate loop of new_table over the data types. */
  method ColumnDefinitions(columns: seq<string>, dataTypes: seq<string>) returns (r: Result<seq<string>>)
    ensures r.Ok? <==> GoodColumns(columns, dataTypes)
    ensures r.Err? ==> exists i :: FailsFirstAt(columns, dataTypes, i, r.msg)
    ensures r.Ok? ==> |r.value| == |dataTypes|
    ensures r.Ok? ==> forall i :: 0 <= i < |dataTypes| ==> r.value[i] == ColumnDef(columns, dataTypes, i)
  {
    var sqlColumns: seq<string> := [];
    for i := 0 to |dataTypes|
      invariant |sqlColumns| == i
      invariant forall j :: 0 <= j < i ==> !BadColumn(columns, dataTypes, j)
      invariant forall j :: 0 <= j < i ==> sqlColumns[j] == ColumnDef(columns, dataTypes, j)
    {
      var d := dataTypes[i];
      if SqlType(d).None? {
        r := Err("Invalid data type: " + d);
        assert FailsFirstAt(columns, dataTypes, i, r.msg);
        return;
      } else if i >= |columns| {
        r := Err("list index out of range");
        assert FailsFirstAt(columns, dataTypes, i, r.msg);
        return;
      }
      sqlColumns := sqlColumns + [ColumnDef(columns, dataTypes, i)];
    }
    r := Ok(sqlColumns);
  }

  /** The statement new_table sends to SQLite (re-reading the catalog
      afterwards is the Open sequence of the engine). A primary key is
      written when it is a non-empty string. */
  method NewTableDdl(tableName: string, columns: seq<string>, dataTypes: seq<string>,
                     primaryKey: Option<string>, foreignKeys: seq<(string, string, string)>,
                     temporary: bool)
    returns (r: Result<string>)
    ensures r.Ok? <==> GoodColumns(columns, dataTypes)
    ensures r.Err? ==> exists i :: FailsFirstAt(columns, dataTypes, i, r.msg)
    ensures r.Ok? ==> exists defs ::
      DefsFor(columns, dataTypes, primaryKey, foreignKeys, defs) && r.value == CreateText(tableName, temporary, defs)
  {
    var defs := ColumnDefinitions(columns, dataTypes);
    if defs.Err? {
      return Err(defs.msg);
    }
    var sqlColumns := defs.value;
    if HasPrimaryKey(primaryKey) {
      sqlColumns := sqlColumns + ["PRIMARY KEY (" + primaryKey.value + ")"];
    }
    ghost var base := sqlColumns;
    for k := 0 to |foreignKeys|
      invariant sqlColumns == base + seq(k, j requires 0 <= j < k => ForeignKeyDef(foreignKeys[j]))
    {
      sqlColumns := sqlColumns + [ForeignKeyDef(foreignKeys[k])];
    }
    assert DefsFor(columns, dataTypes, primaryKey, foreignKeys, sqlColumns);
    r := Ok(CreateText(tableName, temporary, sqlColumns));
  }
}
