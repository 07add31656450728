/** The query engine object of src/mpradb/database/db_to_sqlite.py
    (DB_SQLite with its base class Select_to_SQL): the builder fields that
    `select`, `where`, `groupby`, `orderby`, `limit` and the join steps set
    and `reset_query` clears, and the catalog that `get_foriegn_keys`,
    `build_column_lookups` and `update_table_conn` fill. SQLite itself is
    not modelled: the tables' column lists, the foreign-key rows and the
    fetched result rows are parameters. */
module Engine {
  import opened Common
  import opened Predicates
  import opened Catalog
  import opened Planner
  import opened Clauses
  import opened Materialise

  /** An entry of a `groupby` list: a name, or a column object whose name
      is used. */
  datatype GroupItem = ByName(s: string) | ByColumn(col: DbColumn)

  function GroupObjects(gs: seq<GroupItem>): set<DbColumn>
  {
    set g | g in gs && g.ByColumn? :: g.col
  }

  /** `[g.name if type(g) == DB_Column else g for g in group_list]` */
  function GroupNames(gs: seq<GroupItem>): (r: seq<string>)
    reads GroupObjects(gs)
    ensures |r| == |gs|
    ensures forall i :: 0 <= i < |gs| ==> r[i] == if gs[i].ByColumn? then gs[i].col.name else gs[i].s
    decreases |gs|
  {
    if |gs| == 0 then []
    else
      assert GroupObjects(gs[1..]) <= GroupObjects(gs) by {
        forall g | g in gs[1..] ensures g in gs { }
      }
      [if gs[0].ByColumn? then gs[0].col.name else gs[0].s] + GroupNames(gs[1..])
  }

  // -----------------------------------------------------------------------
  // add_func_to_select, as functions of the aggregate list (a dictionary,
  // kept in insertion order)

  /** `[f'{fn}({col})' for col in cols]` */
  function Wrapped(fn: string, cols: seq<string>): (r: seq<string>)
    ensures |r| == |cols|
    ensures forall i :: 0 <= i < |cols| ==> r[i] == fn + "(" + cols[i] + ")"
    decreases |cols|
  {
    if |cols| == 0 then [] else Wrapped(fn, cols[..|cols| - 1]) + [fn + "(" + cols[|cols| - 1] + ")"]
  }

  /** What add_func_to_select appends to the select columns. */
  function AggColumns(agg: seq<(string, seq<string>)>): seq<string>
    decreases |agg|
  {
    if |agg| == 0 then [] else AggColumns(agg[..|agg| - 1]) + Wrapped(agg[|agg| - 1].0, agg[|agg| - 1].1)
  }

  /** The query columns after appending each of `cols` not yet present. */
  function AddMissing(qc: seq<string>, cols: seq<string>): seq<string>
    decreases |cols|
  {
    if |cols| == 0 then qc
    else
      var r := AddMissing(qc, cols[..|cols| - 1]);
      if cols[|cols| - 1] in r then r else r + [cols[|cols| - 1]]
  }

  function AggQueryColumns(qc: seq<string>, agg: seq<(string, seq<string>)>): seq<string>
    decreases |agg|
  {
    if |agg| == 0 then qc else AddMissing(AggQueryColumns(qc, agg[..|agg| - 1]), agg[|agg| - 1].1)
  }

  /** `column_concat` afterwards: the list of the last `group_concat`
      entry, or what it was. */
  function ConcatAfter(cc: Option<seq<string>>, agg: seq<(string, seq<string>)>): Option<seq<string>>
    decreases |agg|
  {
    if |agg| == 0 then cc
    else if agg[|agg| - 1].0 == "group_concat" then Some(agg[|agg| - 1].1)
    else ConcatAfter(cc, agg[..|agg| - 1])
  }

  /** Appending only the missing columns keeps the old list in front, adds
      exactly the new names, and never introduces a repeat. */
  lemma {:induction false} AddMissingSpec(qc: seq<string>, cols: seq<string>)
    ensures qc <= AddMissing(qc, cols)
    ensures forall x :: x in AddMissing(qc, cols) <==> x in qc || x in cols
    ensures NoDuplicates(qc) ==> NoDuplicates(AddMissing(qc, cols))
    decreases |cols|
  {
    if |cols| > 0 {
      var init := cols[..|cols| - 1];
      AddMissingSpec(qc, init);
      var r := AddMissing(qc, init);
      var c := cols[|cols| - 1];
      if c !in r { NoDuplicatesSnoc(r, c); }
      forall x ensures x in cols <==> x in init || x == c {
        assert cols == init + [c];
      }
    }
  }

  /** The value of one `limit` call: `f'LIMIT {limit}'`. */
  function LimitText(n: int): string
  {
    "LIMIT " + IntToString(n)
  }

  /** `'ORDER BY ' + ','.join(order_list) + (' ASC' or ' DESC')` */
  function OrderText(orderList: seq<string>, ascending: bool): string
  {
    "ORDER BY " + Join(",", orderList) + (if ascending then " ASC" else " DESC")
  }

  /** The builder once `execute_selection` has put the first planned table
      in the FROM clause and, for more than one table, added the joins of
      the join list; or what `add_table_to_query` or `add_joins` raises. */
  function PlannedQuery(q: Query, tables: seq<string>, joinList: Option<seq<Edge>>): Result<Query>
    requires |tables| > 0
  {
    if q.selectColumns.None? then Err("Must provide select statement before adding a table")
    else if q.selectTable.None? then Err("'NoneType' object has no attribute 'replace'")
    else
      var q1 := q.(selectTable := Some(Replace(q.selectTable.value, "table_name", tables[0])),
                   tablesAdded := q.tablesAdded + [tables[0]]);
      if |tables| == 1 then Ok(q1)
      else
        match AddJoinsSpec(if joinList.Some? then joinList.value else [], q1.tablesAdded, q1.joins)
        case Err(m) => Err(m)
        case Ok(res) => Ok(q1.(joins := res.0, tablesAdded := res.1))
  }

  /** `text` is the query text `execute_selection` emits for the builder
      `q` once get_tables planned `tables` and `joinList`: the text of the
      planned builder, its columns qualified by check_for_ambiguous_columns
      exactly when grouping or joining. */
  ghost predicate PlannedText(q: Query, lookup: map<string, seq<string>>, tables: seq<string>,
                              joinList: Option<seq<Edge>>, text: string)
    requires |tables| > 0
  {
    && PlannedQuery(q, tables, joinList).Ok?
    && exists amb: Option<seq<(string, string)>> ::
         && (amb.Some? <==> q.columnsToGroup.Some? || joinList.Some?)
         && (amb.Some? ==> AmbiguityOk(amb.value, q.queryColumns, tables, lookup))
         && SqlQuery(PlannedQuery(q, tables, joinList).value, amb) == Ok(text)
  }

  lemma JoinedQuery(q0: Query, q1: Query, q: Query, tables: seq<string>, joinList: Option<seq<Edge>>)
    requires |tables| > 1 && q0.selectColumns.Some? && q0.selectTable.Some?
    requires q1 == q0.(selectTable := Some(Replace(q0.selectTable.value, "table_name", tables[0])),
                       tablesAdded := q0.tablesAdded + [tables[0]])
    requires q.(joins := q1.joins, tablesAdded := q1.tablesAdded) == q1
    requires AddJoinsSpec(if joinList.Some? then joinList.value else [], q1.tablesAdded, q1.joins).Ok?
    requires var res := AddJoinsSpec(if joinList.Some? then joinList.value else [], q1.tablesAdded, q1.joins).value;
      q.joins == res.0 && q.tablesAdded == res.1
    ensures PlannedQuery(q0, tables, joinList) == Ok(q)
  {
  }

  lemma PlannedTextIntro(q: Query, lookup: map<string, seq<string>>, tables: seq<string>,
                         joinList: Option<seq<Edge>>, amb: Option<seq<(string, string)>>, text: string)
    requires |tables| > 0 && PlannedQuery(q, tables, joinList).Ok?
    requires amb.Some? <==> q.columnsToGroup.Some? || joinList.Some?
    requires amb.Some? ==> AmbiguityOk(amb.value, q.queryColumns, tables, lookup)
    requires SqlQuery(PlannedQuery(q, tables, joinList).value, amb) == Ok(text)
    ensures PlannedText(q, lookup, tables, joinList, text)
  {
  }

  /** `text` is a query text `execute_selection` may emit for `q`: for some
      plan get_tables may return, the planned text. */
  ghost predicate SelectionText(q: Query, lookup: map<string, seq<string>>, g: Graph, text: string)
  {
    exists tables: seq<string>, joinList: Option<seq<Edge>> ::
      PlanOk(q.queryColumns, g, lookup, tables, joinList) && PlannedText(q, lookup, tables, joinList, text)
  }

  /** What get_tables is known to return for the query columns: an
      unresolved column exactly when some base name is not a column of the
      catalog, a plan satisfying `PlanOk`, a disconnected covering table,
      and no crash on a resolvable query over a well-formed graph. */
  ghost predicate Planning(columns: seq<string>, g: Graph, lookup: map<string, seq<string>>, fuel: nat, plan: Plan)
  {
    && (plan.Unresolved? <==> exists i :: 0 <= i < |columns| && BaseColumn(columns[i]) !in lookup)
    && (plan.Unresolved? ==> plan.column in Bases(columns) && plan.column !in lookup)
    && (plan.Planned? ==> PlanOk(columns, g, lookup, plan.tables, plan.joins))
    && (plan.Disconnected? ==>
          Covering(columns, lookup).Ok? && exists t :: t in Covering(columns, lookup).value && t !in plan.added)
    && (Resolvable(columns, lookup) && GraphWf(g) && fuel >= 1 ==> !plan.Crashed?)
  }

  /** `execute_selection` runs to the end on a plan: a select is pending,
      add_joins attaches every planned pair, and, when the columns are
      checked for ambiguity (grouping or joining), every base name is a
      column of the catalog. */
  predicate RunsClean(q: Query, lookup: map<string, seq<string>>, tables: seq<string>, joinList: Option<seq<Edge>>)
    requires |tables| > 0
  {
    && PlannedQuery(q, tables, joinList).Ok?
    && (q.columnsToGroup.Some? || joinList.Some? ==> forall c :: c in q.queryColumns ==> AmbiguityBase(c) in lookup)
  }

  /** The key of `__getitem__`: a string, a list/tuple/set of strings, or
      anything else. */
  datatype Key = Name(s: string) | Names(ss: seq<string>) | OtherKey(typeName: string)

  /** What `__getitem__` returns: the engine itself (a selection was
      started) or a new column object. */
  datatype Item = SelectionStarted | NewColumn(col: DbColumn)

  class Database {
    /** The attributes of Select_to_SQL, which every builder step updates
        and `reset_query` clears, held as one record. */
    var query: Query

    // Catalog (DB_SQLite).
    var columnOrder: seq<string>
    var columnLookup: map<string, seq<string>>
    var columnDtype: map<string, string>
    var tableColumns: map<string, seq<string>>
    var tableConn: map<string, seq<string>>
    var foreignKeys: map<(string, string), Edge>

    function L(): Lookups
      reads this
    {
      Lookups(columnOrder, columnLookup, columnDtype, tableColumns)
    }

    function G(): Graph
      reads this
    {
      Graph(tableConn, foreignKeys)
    }

    /** A fresh builder over an empty catalog; `Load` reads the catalog. */
    constructor ()
      ensures query == Fresh && L() == EmptyLookups && G() == EmptyGraph
    {
      query := Fresh;
      columnOrder, columnLookup, columnDtype, tableColumns := [], map[], map[], map[];
      tableConn, foreignKeys := map[], map[];
    }

    method ResetQuery()
      modifies this
      ensures query == Fresh
      ensures L() == old(L()) && G() == old(G())
    {
      query := Fresh;
    }

    /** `select`: every column must be a key of the column lookup (state untouched otherwise); a
        builder that already has a select is reset first, so a pending
        where, group-by or join from the earlier query is discarded. */
    method Select(columns: seq<string>, table: Option<string>) returns (r: Outcome)
      modifies this
      ensures L() == old(L()) && G() == old(G())
      ensures r.Fail? <==> exists c :: c in columns && c !in columnLookup
      ensures r.Fail? ==> query == old(query) && exists i ::
        && 0 <= i < |columns| && columns[i] !in columnLookup
        && (forall j :: 0 <= j < i ==> columns[j] in columnLookup)
        && r.msg == "Column " + columns[i] + " not found in database!"
      ensures r.Pass? ==>
        var base := if old(query.selectColumns).Some? then Fresh else old(query);
        query == base.(queryColumns := base.queryColumns + columns,
                       selectColumns := Some(columns),
                       selectTable := Some(if table.Some? then table.value else "table_name"))
    {
      for i := 0 to |columns|
        invariant forall j :: 0 <= j < i ==> columns[j] in columnLookup
      {
        if columns[i] !in columnLookup {
          assert columns[i] in columns;
          return Fail("Column " + columns[i] + " not found in database!");
        }
      }
      if query.selectColumns.Some? {
        ResetQuery();
      }
      query := query.(queryColumns := query.queryColumns + columns,
                      selectColumns := Some(columns),
                      selectTable := Some(if table.Some? then table.value else "table_name"));
      r := Pass;
    }

    /** `where`: only one per query. The column's names join the query
        columns before its fragment is read, so a column with two pending
        fragments leaves them added. */
    method Where(col: DbColumn) returns (r: Outcome)
      modifies this, col
      ensures L() == old(L()) && G() == old(G())
      ensures old(query.whereStr).Some? ==>
        r == Fail("Where statement already exists") && query == old(query) && unchanged(col)
      ensures old(query.whereStr).None? ==>
        && col.name == old(col.name) && col.allNames == old(col.allNames)
        && var q1 := old(query).(queryColumns := old(query.queryColumns) + old(col.allNames));
           match SqlText(old(col.name), old(col.sqlStr))
           case Ok(s) => r.Pass? && query == q1.(whereStr := Some("WHERE " + s))
           case Err(m) => r == Fail(m) && query == q1
    {
      if query.whereStr.Some? {
        return Fail("Where statement already exists");
      }
      query := query.(queryColumns := query.queryColumns + col.allNames);
      var s := col.GetSqlStr();
      if s.Err? {
        return Fail(s.msg);
      }
      query := query.(whereStr := Some("WHERE " + s.value));
      r := Pass;
    }

    /** `add_func_to_select`: `list(None)` raises when there is no select;
        otherwise `fn(col)` is appended for every listed column, each column
        joins the query columns unless already there, and a `group_concat`
        entry records its columns. */
    method AddFuncToSelect(agg: seq<(string, seq<string>)>) returns (r: Outcome)
      modifies this
      ensures L() == old(L()) && G() == old(G())
      ensures old(query.selectColumns).None? ==>
        r == Fail("'NoneType' object is not iterable") && query == old(query)
      ensures old(query.selectColumns).Some? ==>
        r.Pass? && query == old(query).(selectColumns := Some(old(query.selectColumns).value + AggColumns(agg)),
                                        queryColumns := AggQueryColumns(old(query.queryColumns), agg),
                                        columnConcat := ConcatAfter(old(query.columnConcat), agg))
    {
      if query.selectColumns.None? {
        return Fail("'NoneType' object is not iterable");
      }
      var sel := query.selectColumns.value;
      var qc := query.queryColumns;
      var cc := query.columnConcat;
      for i := 0 to |agg|
        invariant sel == old(query.selectColumns).value + AggColumns(agg[..i])
        invariant qc == AggQueryColumns(old(query.queryColumns), agg[..i])
        invariant cc == ConcatAfter(old(query.columnConcat), agg[..i])
      {
        var (fn, cols) := agg[i];
        assert agg[..i + 1][..i] == agg[..i];
        if fn == "group_concat" {
          cc := Some(cols);
        }
        ghost var qc0 := qc;
        ghost var sel0 := sel;
        for j := 0 to |cols|
          invariant sel == sel0 + Wrapped(fn, cols[..j])
          invariant qc == AddMissing(qc0, cols[..j])
        {
          assert cols[..j + 1][..j] == cols[..j];
          sel := sel + [fn + "(" + cols[j] + ")"];
          if cols[j] !in qc {
            qc := qc + [cols[j]];
          }
        }
        assert cols[..|cols|] == cols;
      }
      assert agg[..|agg|] == agg;
      query := query.(selectColumns := Some(sel), queryColumns := qc, columnConcat := cc);
      r := Pass;
    }

    /** `groupby`: the grouping list is set and joins the query columns,
        then the aggregates (if any) go through add_func_to_select. */
    method Groupby(groupList: seq<GroupItem>, agg: Option<seq<(string, seq<string>)>>) returns (r: Outcome)
      modifies this
      ensures L() == old(L()) && G() == old(G())
      ensures var names := old(GroupNames(groupList));
        var q1 := old(query).(columnsToGroup := Some(names), queryColumns := old(query.queryColumns) + names);
        if agg.None? then r.Pass? && query == q1
        else if q1.selectColumns.None? then r.Fail? && query == q1
        else r.Pass? && query == q1.(selectColumns := Some(q1.selectColumns.value + AggColumns(agg.value)),
                                     queryColumns := AggQueryColumns(q1.queryColumns, agg.value),
                                     columnConcat := ConcatAfter(q1.columnConcat, agg.value))
    {
      var names := GroupNames(groupList);
      query := query.(columnsToGroup := Some(names), queryColumns := query.queryColumns + names);
      if agg.Some? {
        r := AddFuncToSelect(agg.value);
      } else {
        r := Pass;
      }
    }

    method Orderby(orderList: seq<string>, ascending: bool)
      modifies this
      ensures L() == old(L()) && G() == old(G())
      ensures query == old(query).(queryColumns := old(query.queryColumns) + orderList,
                                   orderbyStr := Some(OrderText(orderList, ascending)))
    {
      query := query.(queryColumns := query.queryColumns + orderList,
                      orderbyStr := Some(OrderText(orderList, ascending)));
    }

    method Limit(n: int)
      modifies this
      ensures L() == old(L()) && G() == old(G())
      ensures query == old(query).(limitStr := Some(LimitText(n)))
    {
      query := query.(limitStr := Some(LimitText(n)));
    }

    /** `add_table_to_query`: the placeholder `table_name` in the FROM
        table is replaced by the first planned table. */
    method AddTableToQuery(t: string) returns (r: Outcome)
      modifies this
      ensures L() == old(L()) && G() == old(G())
      ensures old(query.selectColumns).None? ==>
        r == Fail("Must provide select statement before adding a table") && query == old(query)
      ensures old(query.selectColumns).Some? && old(query.selectTable).None? ==>
        r.Fail? && query == old(query)
      ensures old(query.selectColumns).Some? && old(query.selectTable).Some? ==>
        r.Pass? && query == old(query).(selectTable := Some(Replace(old(query.selectTable).value, "table_name", t)),
                                        tablesAdded := old(query.tablesAdded) + [t])
    {
      if query.selectColumns.None? {
        return Fail("Must provide select statement before adding a table");
      }
      if query.selectTable.None? {
        return Fail("'NoneType' object has no attribute 'replace'");
      }
      query := query.(selectTable := Some(Replace(query.selectTable.value, "table_name", t)),
                      tablesAdded := query.tablesAdded + [t]);
      r := Pass;
    }

    /** `add_joins`: one pass over the pairs, then a recursive call on the
        deferred ones. A pass that defers every pair calls itself on the
        same list in the same state, which only Python's recursion limit
        ends; the model reports that error at once. */
    method AddJoins(list: seq<Edge>) returns (r: Outcome)
      modifies this
      decreases |list|
      ensures L() == old(L()) && G() == old(G())
      ensures query.(joins := old(query.joins), tablesAdded := old(query.tablesAdded)) == old(query)
      ensures match AddJoinsSpec(list, old(query.tablesAdded), old(query.joins))
        case Ok(res) => r.Pass? && query.joins == res.0 && query.tablesAdded == res.1
        case Err(m) => r == Fail(m)
    {
      ghost var added0, joins0 := query.tablesAdded, query.joins;
      var redo: seq<Edge> := [];
      for i := 0 to |list|
        invariant Round(list[..i], added0, joins0) == JoinRound(query.joins, query.tablesAdded, redo)
        invariant query.(joins := old(query.joins), tablesAdded := old(query.tablesAdded)) == old(query)
        invariant L() == old(L()) && G() == old(G())
      {
        var e := list[i];
        assert list[..i + 1][..i] == list[..i];
        var t1, t2 := e.a.0, e.b.0;
        if t1 !in query.tablesAdded && t2 in query.tablesAdded {
          query := query.(joins := query.joins + [JoinClause(t1, e)], tablesAdded := query.tablesAdded + [t1]);
        } else if t2 !in query.tablesAdded && t1 in query.tablesAdded {
          query := query.(joins := query.joins + [JoinClause(t2, e)], tablesAdded := query.tablesAdded + [t2]);
        } else {
          redo := redo + [e];
        }
      }
      assert list[..|list|] == list;
      if |redo| == 0 {
        r := Pass;
      } else if |redo| == |list| {
        r := Fail("maximum recursion depth exceeded");
      } else {
        r := AddJoins(redo);
      }
    }

    /** `get_sql_query`: the text of the clauses, the select columns as
        they were, and (when asked) a reset builder. */
    method GetSqlQuery(amb: Option<seq<(string, string)>>, reset: bool)
      returns (r: Result<(string, Option<seq<string>>)>)
      modifies this
      ensures L() == old(L()) && G() == old(G())
      ensures old(query.selectColumns).None? ==> r == Err("Must provide select statement") && query == old(query)
      ensures old(query.selectColumns).Some? ==>
        && r == Ok((SqlQuery(old(query), amb).value, old(query.selectColumns)))
        && query == (if reset then Fresh else old(query))
    {
      var text := SqlQuery(query, amb);
      if text.Err? {
        return Err(text.msg);
      }
      var sel := query.selectColumns;
      if reset {
        ResetQuery();
      }
      r := Ok((text.value, sel));
    }

    // ---------------------------------------------------------------------
    // Running a query

    /** `execute_selection`: plan the tables of the query columns (an
        unknown column or an unconnected table resets the builder and
        raises), put the first planned table in the FROM clause, qualify
        ambiguous columns when grouping or joining, add the joins, and emit
        the text. A plan that runs clean always gives the text. */
    method ExecuteSelection(reset: bool, fuel: nat) returns (r: Result<(string, Option<seq<string>>)>, ghost plan: Plan)
      modifies this
      ensures L() == old(L()) && G() == old(G())
      ensures Planning(old(query.queryColumns), G(), columnLookup, fuel, plan)
      ensures old(query.selectColumns).None? ==> r.Err?
      ensures plan.Unresolved? ==>
        r == Err("Column " + plan.column + " not found in database!") && query == Fresh
      ensures plan.Disconnected? ==> r == Err("Selection is not possible!") && query == Fresh
      ensures plan.Crashed? ==> r == Err(plan.msg) && query == old(query)
      ensures plan.Planned? ==> (r.Ok? <==> RunsClean(old(query), columnLookup, plan.tables, plan.joins))
      ensures r.Ok? ==>
        && plan.Planned?
        && PlannedText(old(query), columnLookup, plan.tables, plan.joins, r.value.0)
        && SelectionText(old(query), columnLookup, G(), r.value.0)
        && r.value.1 == old(query.selectColumns)
      ensures r.Ok? && reset ==> query == Fresh
    {
      var planned := PlanTables(query.queryColumns, G(), columnLookup, fuel);
      plan := planned;
      match planned {
        case Unresolved(c) =>
          ResetQuery();
          return Err("Column " + c + " not found in database!"), plan;
        case Disconnected(_) =>
          ResetQuery();
          return Err("Selection is not possible!"), plan;
        case Crashed(m) =>
          return Err(m), plan;
        case Planned(tables, joinList) =>
          ghost var q0 := query;
          r := RunPlanned(tables, joinList, reset);
          assert r.Ok? ==> (PlanOk(q0.queryColumns, G(), columnLookup, tables, joinList) &&
                            PlannedText(q0, columnLookup, tables, joinList, r.value.0));
      }
    }

    /** The rest of `execute_selection` once the tables are planned: the
        first table goes in the FROM clause, ambiguous columns are qualified
        when grouping or joining, the joins are added and the text emitted.
        It succeeds exactly when the plan runs clean. */
    method RunPlanned(tables: seq<string>, joinList: Option<seq<Edge>>, reset: bool)
      returns (r: Result<(string, Option<seq<string>>)>)
      requires |tables| > 0
      modifies this
      ensures L() == old(L()) && G() == old(G())
      ensures r.Ok? <==> RunsClean(old(query), columnLookup, tables, joinList)
      ensures r.Ok? ==> PlannedText(old(query), columnLookup, tables, joinList, r.value.0)
      ensures r.Ok? ==> r.value.1 == old(query.selectColumns)
      ensures r.Ok? && reset ==> query == Fresh
    {
      ghost var q0 := query;
      var added := AddTableToQuery(tables[0]);
      if added.Fail? {
        return Err(added.msg);
      }
      ghost var q1 := query;
      assert q1 == q0.(selectTable := Some(Replace(q0.selectTable.value, "table_name", tables[0])),
                       tablesAdded := q0.tablesAdded + [tables[0]]);
      var amb: Option<seq<(string, string)>> := None;
      if query.columnsToGroup.Some? || joinList.Some? {
        var found := CheckForAmbiguousColumns(query.queryColumns, tables, columnLookup);
        if found.Err? {
          return Err(found.msg);
        }
        amb := Some(found.value);
        assert AmbiguityOk(found.value, q0.queryColumns, tables, columnLookup);
      }
      if |tables| > 1 {
        var joined := AddJoins(if joinList.Some? then joinList.value else []);
        if joined.Fail? {
          assert PlannedQuery(q0, tables, joinList).Err?;
          return Err(joined.msg);
        }
        JoinedQuery(q0, q1, query, tables, joinList);
      } else {
        assert PlannedQuery(q0, tables, joinList) == Ok(q1);
      }
      r := GetSqlQuery(amb, reset);
      PlannedTextIntro(q0, columnLookup, tables, joinList, amb, r.value.0);
    }

    /** `to_list` on the rows SQLite returns for the query text (`fetch`):
        on a plan that runs clean, the rows reshaped by `ToListRows`, whose
        error on an empty result also resets the builder. */
    method ToList(fetch: string -> seq<seq<Cell>>, fuel: nat) returns (r: Result<Listed>, ghost sql: string, ghost plan: Plan)
      modifies this
      ensures L() == old(L()) && G() == old(G())
      ensures Planning(old(query.queryColumns), G(), columnLookup, fuel, plan)
      ensures !plan.Planned? ==> r.Err?
      ensures plan.Planned? && !RunsClean(old(query), columnLookup, plan.tables, plan.joins) ==> r.Err?
      ensures plan.Planned? && RunsClean(old(query), columnLookup, plan.tables, plan.joins) ==>
        && PlannedText(old(query), columnLookup, plan.tables, plan.joins, sql)
        && r == ToListRows(fetch(sql)) && query == Fresh
      ensures r.Ok? ==> SelectionText(old(query), columnLookup, G(), sql)
    {
      var run;
      run, plan := ExecuteSelection(true, fuel);
      if run.Err? {
        return Err(run.msg), "", plan;
      }
      var text := run.value.0;
      sql := text;
      r := ToListRows(fetch(text));
      if r.Err? {
        ResetQuery();
      }
    }

    /** `to_dict` on the rows SQLite returns for the query text: on a plan
        that runs clean, the key columns (the first, or those named by
        `key`) and the mapping `DictOf` builds from the rows. */
    method ToDict(groupByKey: bool, key: Option<seq<string>>, fetch: string -> seq<seq<Cell>>, fuel: nat)
      returns (r: Result<Dict>, ghost sql: string, ghost plan: Plan)
      modifies this
      ensures L() == old(L()) && G() == old(G())
      ensures Planning(old(query.queryColumns), G(), columnLookup, fuel, plan)
      ensures !plan.Planned? ==> r.Err?
      ensures plan.Planned? && !RunsClean(old(query), columnLookup, plan.tables, plan.joins) ==> r.Err?
      ensures plan.Planned? && RunsClean(old(query), columnLookup, plan.tables, plan.joins) ==>
        && PlannedText(old(query), columnLookup, plan.tables, plan.joins, sql)
        && query == Fresh
        && match DictKeys(old(query.selectColumns).value, key)
           case Err(m) => r == Err(m)
           case Ok(idx) => r == DictOf(fetch(sql), idx, groupByKey)
      ensures r.Ok? ==> SelectionText(old(query), columnLookup, G(), sql)
    {
      var run;
      run, plan := ExecuteSelection(true, fuel);
      if run.Err? {
        return Err(run.msg), "", plan;
      }
      var text := run.value.0;
      sql := text;
      var idx := DictKeys(run.value.1.value, key);
      if idx.Err? {
        return Err(idx.msg), sql, plan;
      }
      r := FillDict(fetch(text), idx.value, groupByKey);
    }

    /** `to_numpy` with `column_key` and `row_key` left at None. Given ids
        (`rowIds`, `columnIds`: how many) fix a dimension and map observed
        ids in first-seen order; otherwise the dimension is the column's
        maximum plus one (`rowMaxes`, `colMaxes`: each table's `MAX` of the
        column, as `get_max` reads them) and an id is written at itself. On
        a plan that runs clean with three select columns, the matrix is
        returned exactly when numpy accepts every index. */
    method ToNumpy(columnIds: Option<nat>, rowIds: Option<nat>, rowMaxes: seq<Option<int>>, colMaxes: seq<Option<int>>,
                   fetch: string -> seq<(int, int, int)>, fuel: nat)
      returns (r: Result<(seq<int>, seq<int>)>, x: array2?<int>, ghost sql: string, ghost plan: Plan)
      modifies this
      ensures L() == old(L()) && G() == old(G())
      ensures Planning(old(query.queryColumns), G(), columnLookup, fuel, plan)
      ensures !plan.Planned? ==> r.Err?
      ensures plan.Planned? && !RunsClean(old(query), columnLookup, plan.tables, plan.joins) ==> r.Err?
      ensures plan.Planned? && RunsClean(old(query), columnLookup, plan.tables, plan.joins) ==>
        && PlannedText(old(query), columnLookup, plan.tables, plan.joins, sql)
        && query == Fresh
        && (r.Ok? <==> NumpyShape(old(query.selectColumns).value).Pass? &&
                       Place(fetch(sql), Dimension(rowIds, rowMaxes), Dimension(columnIds, colMaxes),
                             rowIds.Some?, columnIds.Some?).Ok?)
      ensures r.Ok? ==>
        && old(query.selectColumns).Some? && NumpyShape(old(query.selectColumns).value).Pass?
        && SelectionText(old(query), columnLookup, G(), sql)
        && var rowNum, colNum := Dimension(rowIds, rowMaxes), Dimension(columnIds, colMaxes);
           && Place(fetch(sql), rowNum, colNum, rowIds.Some?, columnIds.Some?).Ok?
           && var p := Place(fetch(sql), rowNum, colNum, rowIds.Some?, columnIds.Some?).value;
              && r.value == (p.rowIds, p.colIds)
              && x != null && fresh(x) && x.Length0 == rowNum && x.Length1 == colNum
              && forall i, j :: 0 <= i < rowNum && 0 <= j < colNum ==> x[i, j] == Written(p.cells, i, j)
    {
      x := null;
      var run;
      run, plan := ExecuteSelection(true, fuel);
      if run.Err? {
        return Err(run.msg), x, "", plan;
      }
      var text := run.value.0;
      sql := text;
      var shape := NumpyShape(run.value.1.value);
      if shape.Fail? {
        return Err(shape.msg), x, sql, plan;
      }
      var colNum := Dimension(columnIds, colMaxes);
      var rowNum := Dimension(rowIds, rowMaxes);
      var filled, m := FillMatrix(fetch(text), rowNum, colNum, rowIds.Some?, columnIds.Some?);
      if filled.Err? {
        return Err(filled.msg), x, sql, plan;
      }
      r, x := filled, m;
    }

    /** `__getitem__`. A string must name a column or a table. Without a
        pending select it starts one (a table name selects the table's
        columns); with one it gives a fresh column object for predicates. A
        list of names must all be columns and starts a selection. */
    method GetItem(key: Key) returns (r: Result<Item>)
      modifies this
      ensures L() == old(L()) && G() == old(G())
      ensures key.OtherKey? ==> r == Err("Invalid key type: " + key.typeName) && query == old(query)
      ensures key.Name? && key.s !in columnLookup && key.s !in tableColumns ==>
        r == Err("Column or table " + key.s + " not found in database!") && query == old(query)
      ensures key.Name? && (key.s in columnLookup || key.s in tableColumns) && old(query.selectColumns).Some? ==>
        && r.Ok? && r.value.NewColumn? && fresh(r.value.col)
        && r.value.col.name == key.s && r.value.col.sqlStr == [] && r.value.col.allNames == [key.s]
        && query == old(query)
      ensures key.Name? && (key.s in columnLookup || key.s in tableColumns) && old(query.selectColumns).None? ==>
        var cols := if key.s in tableColumns then tableColumns[key.s] else [key.s];
        && (r.Ok? <==> forall c :: c in cols ==> c in columnLookup)
        && (r.Ok? ==> r.value == SelectionStarted)
        && (r.Ok? ==> query == old(query).(queryColumns := old(query.queryColumns) + cols, selectColumns := Some(cols),
                                           selectTable := Some("table_name")))
      ensures key.Names? ==>
        && (r.Ok? <==> forall c :: c in key.ss ==> c in columnLookup)
        && (r.Err? ==> query == old(query))
        && (r.Ok? ==> r.value == SelectionStarted)
      ensures key.Names? && r.Ok? ==>
        var base := if old(query.selectColumns).Some? then Fresh else old(query);
        query == base.(queryColumns := base.queryColumns + key.ss, selectColumns := Some(key.ss),
                       selectTable := Some("table_name"))
    {
      match key {
        case OtherKey(t) =>
          return Err("Invalid key type: " + t);
        case Name(s) =>
          if s !in columnLookup && s !in tableColumns {
            return Err("Column or table " + s + " not found in database!");
          }
          if query.selectColumns.Some? {
            var c := new DbColumn(s);
            return Ok(NewColumn(c));
          }
          var cols := if s in tableColumns then tableColumns[s] else [s];
          var sel := Select(cols, None);
          if sel.Fail? {
            return Err(sel.msg);
          }
          return Ok(SelectionStarted);
        case Names(ss) =>
          for i := 0 to |ss|
            invariant forall j :: 0 <= j < i ==> ss[j] in columnLookup
          {
            if ss[i] !in columnLookup {
              assert ss[i] in ss;
              return Err("Column " + ss[i] + " not found in database!");
            }
          }
          var sel := Select(ss, None);
          return Ok(SelectionStarted);
      }
    }

    // ---------------------------------------------------------------------
    // The catalog

    /** `add_connection` on the object's two dictionaries. */
    method AddConnection(t1: string, c1: string, t2: string, c2: string)
      modifies this
      ensures G() == Catalog.AddConnection(old(G()), t1, c1, t2, c2)
      ensures query == old(query) && L() == old(L())
    {
      var conn := tableConn;
      if t1 !in conn {
        conn := conn[t1 := []];
      }
      if t2 !in conn {
        conn := conn[t2 := []];
      }
      conn := conn[t1 := conn[t1] + [t2]];
      conn := conn[t2 := conn[t2] + [t1]];
      SetdefaultAppend(tableConn, t1, t2);
      var key := SortEndpoints((t1, c1), (t2, c2));
      tableConn, foreignKeys := conn, foreignKeys[(key.a.0, key.b.0) := key];
    }

    /** `get_foriegn_keys`: both dictionaries start empty and every
        foreign-key row, table by table, is connected. */
    method GetForeignKeys(fks: seq<ForeignKey>)
      modifies this
      ensures G() == ConnectForeignKeys(EmptyGraph, fks)
      ensures query == old(query) && L() == old(L())
    {
      tableConn, foreignKeys := map[], map[];
      for i := 0 to |fks|
        invariant ConnectForeignKeys(G(), fks[i..]) == ConnectForeignKeys(EmptyGraph, fks)
        invariant query == old(query) && L() == old(L())
      {
        assert fks[i..][1..] == fks[i + 1..];
        var f := fks[i];
        AddConnection(f.table, f.column, f.refTable, f.refColumn);
      }
    }

    /** `update_table_conn`: every two tables listed for one column name are
        connected on that column, column by column in catalog order. */
    method UpdateTableConn()
      modifies this
      ensures G() == ShareColumns(old(G()), columnOrder, columnLookup)
      ensures query == old(query) && L() == old(L())
    {
      var order := columnOrder;
      for i := 0 to |order|
        invariant ShareColumns(G(), order[i..], columnLookup) == ShareColumns(old(G()), order, columnLookup)
        invariant query == old(query) && L() == old(L())
      {
        var c := order[i];
        assert order[i..][1..] == order[i + 1..];
        var pairs := Combinations(Get(columnLookup, c));
        for k := 0 to |pairs|
          invariant ShareColumns(ConnectPairs(G(), c, pairs[k..]), order[i + 1..], columnLookup)
                    == ShareColumns(old(G()), order, columnLookup)
          invariant query == old(query) && L() == old(L())
        {
          assert pairs[k..][1..] == pairs[k + 1..];
          AddConnection(pairs[k].0, c, pairs[k].1, c);
        }
      }
    }

    /** One declared column of build_column_lookups. */
    method DeclareColumn(t: string, d: ColumnDecl) returns (r: Outcome)
      modifies this
      ensures query == old(query) && G() == old(G())
      ensures match Step(old(L()), Declare(t, d))
        case Ok(l) => r.Pass? && L() == l
        case Err(m) => r == Fail(m)
    {
      if d.name !in columnLookup {
        columnLookup := columnLookup[d.name := []];
        columnDtype := columnDtype[d.name := d.dtype];
        columnOrder := columnOrder + [d.name];
      }
      columnLookup := columnLookup[d.name := Get(columnLookup, d.name) + [t]];
      tableColumns := tableColumns[t := Get(tableColumns, t) + [d.name]];
      if d.name in columnDtype && d.dtype != columnDtype[d.name] {
        return Fail(d.name + " in table " + t + " is " + d.dtype + ", whereas in table " + t + " " + columnDtype[d.name]);
      }
      r := Pass;
    }

    /** The PRAGMA table_info rows of one table, declared in turn. */
    method ReadTable(t: string, cols: seq<ColumnDecl>) returns (r: Outcome)
      modifies this
      ensures query == old(query) && G() == old(G())
      ensures match Fold(old(L()), TableEvents(t, cols))
        case Ok(l) => r.Pass? && L() == l
        case Err(m) => r == Fail(m)
    {
      for k := 0 to |cols|
        invariant Fold(L(), TableEvents(t, cols[k..])) == Fold(old(L()), TableEvents(t, cols))
        invariant query == old(query) && G() == old(G())
      {
        assert cols[k..][1..] == cols[k + 1..];
        var step := DeclareColumn(t, cols[k]);
        if step.Fail? {
          return step;
        }
      }
      assert cols[|cols|..] == [];
      r := Pass;
    }

    /** `build_column_lookups` over the tables as PRAGMA table_info lists
        them: the catalog it leaves, or the first type conflict. */
    method BuildColumnLookups(schema: seq<TableSchema>) returns (r: Outcome)
      modifies this
      ensures query == old(query) && G() == old(G())
      ensures match BuildLookups(schema)
        case Ok(l) => r.Pass? && L() == l
        case Err(m) => r == Fail(m)
    {
      columnOrder, columnLookup, columnDtype, tableColumns := [], map[], map[], map[];
      for i := 0 to |schema|
        invariant Fold(L(), Events(schema[i..])) == BuildLookups(schema)
        invariant query == old(query) && G() == old(G())
      {
        var t := schema[i].name;
        var cols := schema[i].columns;
        FoldTable(L(), schema, i);
        tableColumns := tableColumns[t := []];
        r := ReadTable(t, cols);
        if r.Fail? {
          return;
        }
      }
      r := Pass;
    }

    /** The catalog part of `__init__`, in its order: foreign keys, then the
        column lookups, then the connections through shared columns. */
    method Load(schema: seq<TableSchema>, fks: seq<ForeignKey>) returns (r: Outcome)
      modifies this
      ensures query == old(query)
      ensures r.Pass? <==> BuildLookups(schema).Ok?
      ensures r.Pass? ==>
        var l := BuildLookups(schema).value;
        L() == l && G() == ShareColumns(ConnectForeignKeys(EmptyGraph, fks), l.columnOrder, l.columnLookup)
    {
      GetForeignKeys(fks);
      r := BuildColumnLookups(schema);
      if r.Fail? {
        return;
      }
      UpdateTableConn();
    }

    /** `new_table`: the CREATE TABLE text for the declared columns (the
        statement itself runs in SQLite), after which the foreign keys and
        the column lookups are read again from the new schema (`schema`,
        `fks`). The shared-column connections are not rebuilt. */
    method NewTable(tableName: string, columns: seq<string>, dataTypes: seq<string>, primaryKey: Option<string>,
                    newKeys: seq<(string, string, string)>, temporary: bool,
                    schema: seq<TableSchema>, fks: seq<ForeignKey>) returns (r: Result<string>)
      modifies this
      ensures query == old(query)
      ensures !GoodColumns(columns, dataTypes) ==> r.Err? && L() == old(L()) && G() == old(G())
      ensures r.Ok? <==> GoodColumns(columns, dataTypes) && BuildLookups(schema).Ok?
      ensures r.Ok? ==>
        && (exists defs :: DefsFor(columns, dataTypes, primaryKey, newKeys, defs) && r.value == CreateText(tableName, temporary, defs))
        && L() == BuildLookups(schema).value
        && G() == ConnectForeignKeys(EmptyGraph, fks)
    {
      r := NewTableDdl(tableName, columns, dataTypes, primaryKey, newKeys, temporary);
      if r.Err? {
        return;
      }
      GetForeignKeys(fks);
      var read := BuildColumnLookups(schema);
      if read.Fail? {
        r := Err(read.msg);
      }
    }
  }

  /** `setdefault(t, [])` for both tables, then the two appends, is what
      the catalog's Append does twice. */
  lemma SetdefaultAppend(m: map<string, seq<string>>, t1: string, t2: string)
    ensures var m1 := if t1 in m then m else m[t1 := []];
      var m2 := if t2 in m1 then m1 else m1[t2 := []];
      var m3 := m2[t1 := m2[t1] + [t2]];
      m3[t2 := m3[t2] + [t1]] == Append(Append(m, t1, t2), t2, t1)
  {
  }
}
