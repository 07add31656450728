/** The text the query builder of src/mpradb/database/db_to_sqlite.py
    (class Select_to_SQL) produces: the clause properties `select_str`,
    `join_str` and `groupby_str`, the assembly of `get_sql_query` with and
    without the rewriting of ambiguous column names, and the rounds of
    `add_joins`. */
module Clauses {
  import opened Common
  import opened Catalog

  /** The builder's fields, as `reset_query` lists them. */
  datatype Query = Query(
    selectColumns: Option<seq<string>>,
    selectTable: Option<string>,
    joins: seq<string>,
    whereStr: Option<string>,
    columnsToGroup: Option<seq<string>>,
    orderbyStr: Option<string>,
    limitStr: Option<string>,
    queryColumns: seq<string>,
    tablesAdded: seq<string>,
    columnConcat: Option<seq<string>>,
    distinct: bool)

  /** The state `reset_query` leaves. */
  const Fresh := Query(None, None, [], None, None, None, None, [], [], None, false)

  /** An f-string renders a missing table as `None`. */
  function TableText(t: Option<string>): string
  {
    if t.Some? then t.value else "None"
  }

  /** `select_str` */
  function SelectStr(q: Query): (r: Option<string>)
    ensures r.Some? <==> q.selectColumns.Some?
  {
    match q.selectColumns
    case None => None
    case Some(cols) =>
      Some((if q.distinct then "SELECT DISTINCT " else "SELECT ") + Join(",", cols) + " FROM " + TableText(q.selectTable))
  }

  /** `join_str` */
  function JoinStr(q: Query): (r: Option<string>)
    ensures r.Some? <==> |q.joins| > 0
  {
    if |q.joins| > 0 then Some(Join(" ", q.joins)) else None
  }

  /** `groupby_str` */
  function GroupbyStr(q: Query): (r: Option<string>)
    ensures r.Some? <==> q.columnsToGroup.Some?
  {
    match q.columnsToGroup
    case None => None
    case Some(g) => Some("GROUP BY " + Join(",", g))
  }

  /** `[s for s in parts if s is not None]` */
  function Present(parts: seq<Option<string>>): (r: seq<string>)
    ensures |r| <= |parts|
  {
    if |parts| == 0 then []
    else (if parts[0].Some? then [parts[0].value] else []) + Present(parts[1..])
  }

  /** `replace_amibiguous_columns`: the rewrites one after the other. */
  function ReplaceAmbiguous(s: string, amb: seq<(string, string)>): string
    decreases |amb|
  {
    if |amb| == 0 then s else ReplaceAmbiguous(Replace(s, amb[0].0, amb[0].1), amb[1..])
  }

  function ReplaceEach(parts: seq<string>, amb: seq<(string, string)>): (r: seq<string>)
    ensures |r| == |parts|
  {
    seq(|parts|, i requires 0 <= i < |parts| => ReplaceAmbiguous(parts[i], amb))
  }

  /** The clauses in the order `get_sql_query` emits them. */
  function ClauseList(q: Query): seq<Option<string>>
  {
    [SelectStr(q), JoinStr(q), q.whereStr, GroupbyStr(q), q.orderbyStr, q.limitStr]
  }

  /** The text of `get_sql_query`. With a list of ambiguous columns, the
      where, group-by and order-by clauses are rewritten and joined into one
      middle part, which is a string even when all three are missing. */
  function SqlQuery(q: Query, amb: Option<seq<(string, string)>>): (r: Result<string>)
    ensures r.Err? <==> q.selectColumns.None?
  {
    match SelectStr(q)
    case None => Err("Must provide select statement")
    case Some(sel) =>
      match amb
      case None => Ok(Join(" ", Present(ClauseList(q))))
      case Some(a) =>
        var middle := Join(" ", ReplaceEach(Present([q.whereStr, GroupbyStr(q), q.orderbyStr]), a));
        Ok(Join(" ", Present([Some(ReplaceAmbiguous(sel, a)), JoinStr(q), Some(middle), q.limitStr])))
  }

  // -----------------------------------------------------------------------
  // Properties of the assembled text

  lemma {:induction false} JoinAppend(sep: string, x: seq<string>, y: seq<string>)
    requires |x| > 0 && |y| > 0
    ensures Join(sep, x + y) == Join(sep, x) + sep + Join(sep, y)
  {
    if |x| == 1 {
      assert (x + y)[1..] == y;
    } else {
      assert (x + y)[1..] == x[1..] + y;
      JoinAppend(sep, x[1..], y);
    }
  }

  /** Joining a joined middle part is joining its parts, when it has any. */
  lemma JoinFlatten(sep: string, a: seq<string>, b: seq<string>, c: seq<string>)
    requires |a| > 0 && |b| > 0
    ensures Join(sep, a + [Join(sep, b)] + c) == Join(sep, a + b + c)
  {
    assert Join(sep, [Join(sep, b)]) == Join(sep, b);
    JoinAppend(sep, a, [Join(sep, b)]);
    JoinAppend(sep, a, b);
    if |c| > 0 {
      JoinAppend(sep, a + [Join(sep, b)], c);
      JoinAppend(sep, a + b, c);
    } else {
      assert a + [Join(sep, b)] + c == a + [Join(sep, b)];
      assert a + b + c == a + b;
    }
  }

  lemma {:induction false} PresentAppend(x: seq<Option<string>>, y: seq<Option<string>>)
    ensures Present(x + y) == Present(x) + Present(y)
  {
    if |x| > 0 {
      assert (x + y)[1..] == x[1..] + y;
      PresentAppend(x[1..], y);
    } else {
      assert x + y == y;
    }
  }

  function PresentOne(x: Option<string>): seq<string>
  {
    if x.Some? then [x.value] else []
  }

  lemma PresentSingle(x: Option<string>)
    ensures Present([x]) == PresentOne(x)
  {
    assert [x][1..] == [];
  }

  lemma Present3(a: Option<string>, b: Option<string>, c: Option<string>)
    ensures Present([a, b, c]) == PresentOne(a) + PresentOne(b) + PresentOne(c)
  {
    assert [a, b, c] == [a] + ([b] + [c]);
    PresentAppend([a], [b] + [c]);
    PresentAppend([b], [c]);
    PresentSingle(a);
    PresentSingle(b);
    PresentSingle(c);
  }

  lemma Present4(a: Option<string>, b: Option<string>, c: Option<string>, d: Option<string>)
    ensures Present([a, b, c, d]) == PresentOne(a) + PresentOne(b) + PresentOne(c) + PresentOne(d)
  {
    assert [a, b, c, d] == [a] + [b, c, d];
    PresentAppend([a], [b, c, d]);
    PresentSingle(a);
    Present3(b, c, d);
  }

  lemma PresentCons(x: Option<string>, rest: seq<Option<string>>)
    ensures Present([x] + rest) == PresentOne(x) + Present(rest)
  {
    assert ([x] + rest)[1..] == rest;
  }

  lemma Present6(a: Option<string>, b: Option<string>, c: Option<string>, d: Option<string>, e: Option<string>, f: Option<string>)
    ensures Present([a, b, c, d, e, f])
      == PresentOne(a) + (PresentOne(b) + (PresentOne(c) + (PresentOne(d) + (PresentOne(e) + PresentOne(f)))))
  {
    assert [a, b, c, d, e, f] == [a] + [b, c, d, e, f];
    PresentCons(a, [b, c, d, e, f]);
    assert [b, c, d, e, f] == [b] + [c, d, e, f];
    PresentCons(b, [c, d, e, f]);
    assert [c, d, e, f] == [c] + [d, e, f];
    PresentCons(c, [d, e, f]);
    assert [d, e, f] == [d] + [e, f];
    PresentCons(d, [e, f]);
    assert [e, f] == [e] + [f];
    PresentCons(e, [f]);
    PresentSingle(f);
  }

  lemma JoinCons(sep: string, x: string, rest: seq<string>)
    requires |rest| > 0
    ensures Join(sep, [x] + rest) == x + sep + Join(sep, rest)
  {
    assert ([x] + rest)[1..] == rest;
  }

  lemma {:induction false} ReplaceNothing(s: string)
    ensures ReplaceAmbiguous(s, []) == s
  {
  }

  lemma Join6(s0: string, s1: string, s2: string, s3: string, s4: string, s5: string)
    ensures Join(" ", [s0, s1, s2, s3, s4, s5]) == s0 + " " + s1 + " " + s2 + " " + s3 + " " + s4 + " " + s5
  {
    assert Join(" ", [s5]) == s5;
    JoinCons(" ", s4, [s5]);
    assert [s4] + [s5] == [s4, s5];
    JoinCons(" ", s3, [s4, s5]);
    assert [s3] + [s4, s5] == [s3, s4, s5];
    JoinCons(" ", s2, [s3, s4, s5]);
    assert [s2] + [s3, s4, s5] == [s2, s3, s4, s5];
    JoinCons(" ", s1, [s2, s3, s4, s5]);
    assert [s1] + [s2, s3, s4, s5] == [s1, s2, s3, s4, s5];
    JoinCons(" ", s0, [s1, s2, s3, s4, s5]);
    assert [s0] + [s1, s2, s3, s4, s5] == [s0, s1, s2, s3, s4, s5];
  }

  /** With every clause present and nothing to rewrite, the clauses appear
      in the order SELECT … FROM, joins, WHERE, GROUP BY, ORDER BY, LIMIT,
      one space apart. */
  lemma FullQueryOrder(q: Query)
    requires q.selectColumns.Some? && |q.joins| > 0 && q.whereStr.Some?
    requires q.columnsToGroup.Some? && q.orderbyStr.Some? && q.limitStr.Some?
    ensures SqlQuery(q, None) == Ok(
      SelectStr(q).value + " " + JoinStr(q).value + " " + q.whereStr.value + " "
      + GroupbyStr(q).value + " " + q.orderbyStr.value + " " + q.limitStr.value)
  {
    var p := [SelectStr(q).value, JoinStr(q).value, q.whereStr.value, GroupbyStr(q).value, q.orderbyStr.value, q.limitStr.value];
    Present6(SelectStr(q), JoinStr(q), q.whereStr, GroupbyStr(q), q.orderbyStr, q.limitStr);
    assert Present(ClauseList(q)) == p;
    Join6(p[0], p[1], p[2], p[3], p[4], p[5]);
    assert p == [p[0], p[1], p[2], p[3], p[4], p[5]];
    assert SqlQuery(q, None) == Ok(Join(" ", Present(ClauseList(q))));
  }

  /** A query with only a select is its SELECT … FROM text. */
  lemma SelectOnly(q: Query)
    requires q.selectColumns.Some? && |q.joins| == 0 && q.whereStr.None?
    requires q.columnsToGroup.None? && q.orderbyStr.None? && q.limitStr.None?
    ensures SqlQuery(q, None) == Ok(SelectStr(q).value)
  {
    Present6(SelectStr(q), JoinStr(q), q.whereStr, GroupbyStr(q), q.orderbyStr, q.limitStr);
    assert Present(ClauseList(q)) == [SelectStr(q).value];
  }

  /** The rewriting path gives the same text as the plain one when there is
      nothing to rewrite, as long as one of WHERE, GROUP BY and ORDER BY is
      present. */
  lemma AmbiguityPathAgrees(q: Query)
    requires q.selectColumns.Some?
    requires q.whereStr.Some? || q.columnsToGroup.Some? || q.orderbyStr.Some?
    ensures SqlQuery(q, Some([])) == SqlQuery(q, None)
  {
    var sel := SelectStr(q).value;
    var mids := Present([q.whereStr, GroupbyStr(q), q.orderbyStr]);
    assert ReplaceEach(mids, []) == mids;
    MiddleFlattens(sel, JoinStr(q), q.whereStr, GroupbyStr(q), q.orderbyStr, q.limitStr);
  }

  /** Joining the middle part first and then the whole gives the same
      text as joining all six clauses, when the middle part has a clause. */
  lemma MiddleFlattens(s: string, j: Option<string>, w: Option<string>, g: Option<string>, o: Option<string>, l: Option<string>)
    requires w.Some? || g.Some? || o.Some?
    ensures Join(" ", Present([Some(s), j, Some(Join(" ", Present([w, g, o]))), l]))
         == Join(" ", Present([Some(s), j, w, g, o, l]))
  {
    var mids := Present([w, g, o]);
    var m := Join(" ", mids);
    Present3(w, g, o);
    assert |mids| > 0;
    Present4(Some(s), j, Some(m), l);
    Present6(Some(s), j, w, g, o, l);
    var a := [s] + PresentOne(j);
    Regroup(a, PresentOne(w), PresentOne(g), PresentOne(o), PresentOne(l));
    assert Present([Some(s), j, Some(m), l]) == a + [m] + PresentOne(l);
    JoinFlatten(" ", a, mids, PresentOne(l));
  }

  lemma Regroup(a: seq<string>, w: seq<string>, g: seq<string>, o: seq<string>, l: seq<string>)
    requires |a| > 0
    ensures a[..1] + (a[1..] + (w + (g + (o + l)))) == a + (w + g + o) + l
  {
  }

  /** As written, the rewriting path with no WHERE, GROUP BY or ORDER BY
      still emits its empty middle part, so the text ends in a space. */
  lemma AmbiguityPathTrailingSpace(q: Query, a: seq<(string, string)>)
    requires q.selectColumns.Some? && |q.joins| == 0 && q.limitStr.None?
    requires q.whereStr.None? && q.columnsToGroup.None? && q.orderbyStr.None?
    ensures SqlQuery(q, Some(a)) == Ok(ReplaceAmbiguous(SelectStr(q).value, a) + " ")
  {
    var sel := ReplaceAmbiguous(SelectStr(q).value, a);
    Present3(q.whereStr, GroupbyStr(q), q.orderbyStr);
    assert Present([q.whereStr, GroupbyStr(q), q.orderbyStr]) == [];
    assert ReplaceEach([], a) == [];
    Present4(Some(sel), JoinStr(q), Some(""), q.limitStr);
    assert Present([Some(sel), JoinStr(q), Some(""), q.limitStr]) == [sel, ""];
    JoinCons(" ", sel, [""]);
    assert [sel, ""] == [sel] + [""];
    assert Join(" ", [sel, ""]) == sel + " ";
    var middle := Join(" ", ReplaceEach(Present([q.whereStr, GroupbyStr(q), q.orderbyStr]), a));
    assert middle == "";
    assert SqlQuery(q, Some(a)) == Ok(Join(" ", Present([Some(sel), JoinStr(q), Some(middle), q.limitStr])));
  }

  // -----------------------------------------------------------------------
  // add_joins

  /** The ON text of a join edge `((t1, c1), (t2, c2))`. */
  function OnText(e: Edge): string
  {
    e.a.0 + "." + e.a.1 + " = " + e.b.0 + "." + e.b.1
  }

  /** `INNER JOIN t ON t1.c1 = t2.c2`, where t is the newly joined table. */
  function JoinClause(t: string, e: Edge): string
  {
    "INNER JOIN " + t + " ON " + OnText(e)
  }

  /** The state after one pass of add_joins over its list: the joins it
      emitted, the tables it added, and the deferred pairs. */
  datatype JoinRound = JoinRound(joins: seq<string>, added: seq<string>, redo: seq<Edge>)

  /** The table an edge joins the query, if exactly one of its tables is
      already in it. */
  function NewTable(e: Edge, added: seq<string>): Option<string>
  {
    if e.a.0 !in added && e.b.0 in added then Some(e.a.0)
    else if e.b.0 !in added && e.a.0 in added then Some(e.b.0)
    else None
  }

  /** One pass of the loop of add_joins, edge by edge. */
  function Round(list: seq<Edge>, added: seq<string>, joins: seq<string>): (r: JoinRound)
    ensures added <= r.added && joins <= r.joins
    ensures |r.redo| + (|r.added| - |added|) == |list|
    ensures |r.joins| - |joins| == |r.added| - |added|
    decreases |list|
  {
    if |list| == 0 then JoinRound(joins, added, [])
    else
      var r := Round(list[..|list| - 1], added, joins);
      var e := list[|list| - 1];
      match NewTable(e, r.added)
      case Some(t) => JoinRound(r.joins + [JoinClause(t, e)], r.added + [t], r.redo)
      case None => JoinRound(r.joins, r.added, r.redo + [e])
  }

  /** add_joins: passes repeat over the deferred pairs. A pass that joins
      nothing but defers something calls add_joins again on the same list
      in the same state, which recurses until Python's recursion limit. */
  function AddJoinsSpec(list: seq<Edge>, added: seq<string>, joins: seq<string>): (r: Result<(seq<string>, seq<string>)>)
    decreases |list|
  {
    var p := Round(list, added, joins);
    if |p.redo| == 0 then Ok((p.joins, p.added))
    else if |p.redo| == |list| then Err("maximum recursion depth exceeded")
    else AddJoinsSpec(p.redo, p.added, p.joins)
  }

  /** The table at position k of `ad` was new when it was joined, by an
      edge of `list`, and its join text is the matching entry of `js`. */
  predicate Witnessed(list: seq<Edge>, added: seq<string>, joins: seq<string>, ad: seq<string>, js: seq<string>, k: nat)
  {
    && |added| <= k < |ad| && 0 <= |joins| + k - |added| < |js|
    && exists e :: e in list && NewTable(e, ad[..k]) == Some(ad[k])
         && js[|joins| + k - |added|] == JoinClause(ad[k], e)
  }

  /** Every table a pass adds is new and comes with the join that adds
      it; the tables stay distinct. */
  lemma {:induction false} RoundAdds(list: seq<Edge>, added: seq<string>, joins: seq<string>)
    requires NoDuplicates(added)
    ensures NoDuplicates(Round(list, added, joins).added)
    ensures forall k :: |added| <= k < |Round(list, added, joins).added| ==>
      Witnessed(list, added, joins, Round(list, added, joins).added, Round(list, added, joins).joins, k)
    decreases |list|
  {
    if |list| > 0 {
      var init := list[..|list| - 1];
      RoundAdds(init, added, joins);
      var r0 := Round(init, added, joins);
      var e := list[|list| - 1];
      var r := Round(list, added, joins);
      forall k | |added| <= k < |r0.added|
        ensures Witnessed(list, added, joins, r.added, r.joins, k)
      {
        assert Witnessed(init, added, joins, r0.added, r0.joins, k);
        var e' :| e' in init && NewTable(e', r0.added[..k]) == Some(r0.added[k])
          && r0.joins[|joins| + k - |added|] == JoinClause(r0.added[k], e');
        assert r.added[..k] == r0.added[..k] && r.added[k] == r0.added[k];
        assert r.joins[|joins| + k - |added|] == r0.joins[|joins| + k - |added|];
        assert e' in list;
      }
      if NewTable(e, r0.added).Some? {
        var t := NewTable(e, r0.added).value;
        assert r.added == r0.added + [t] && t !in r0.added;
        assert r.added[..|r0.added|] == r0.added;
        assert r.joins[|joins| + |r0.added| - |added|] == JoinClause(t, e);
        assert Witnessed(list, added, joins, r.added, r.joins, |r0.added|);
      }
    }
  }

  /** What add_joins leaves: tables only appended, distinct, one join per
      added table, each added table being new when its join was emitted. */
  lemma {:induction false} AddJoinsAdds(list: seq<Edge>, added: seq<string>, joins: seq<string>)
    requires NoDuplicates(added)
    requires AddJoinsSpec(list, added, joins).Ok?
    ensures var (js, ad) := AddJoinsSpec(list, added, joins).value;
      && added <= ad && joins <= js && NoDuplicates(ad)
      && |js| - |joins| == |ad| - |added|
      && (forall k :: |added| <= k < |ad| ==> Witnessed(list, added, joins, ad, js, k))
    decreases |list|
  {
    var p := Round(list, added, joins);
    RoundAdds(list, added, joins);
    if |p.redo| != 0 {
      AddJoinsAdds(p.redo, p.added, p.joins);
      var (js, ad) := AddJoinsSpec(list, added, joins).value;
      forall k | |added| <= k < |ad|
        ensures Witnessed(list, added, joins, ad, js, k)
      {
        if k < |p.added| {
          WitnessKept(list, added, joins, p.added, p.joins, ad, js, k);
        } else {
          WitnessRedo(list, added, joins, ad, js, k);
        }
      }
    }
  }

  /** A witness survives when later passes only append. */
  lemma WitnessKept(list: seq<Edge>, added: seq<string>, joins: seq<string>,
                    pa: seq<string>, pj: seq<string>, ad: seq<string>, js: seq<string>, k: nat)
    requires pa <= ad && pj <= js && k < |pa| && Witnessed(list, added, joins, pa, pj, k)
    ensures Witnessed(list, added, joins, ad, js, k)
  {
    var e :| e in list && NewTable(e, pa[..k]) == Some(pa[k])
      && pj[|joins| + k - |added|] == JoinClause(pa[k], e);
    assert ad[..k] == pa[..k] && ad[k] == pa[k];
    assert js[|joins| + k - |added|] == pj[|joins| + k - |added|];
  }

  /** A table a later pass adds was witnessed by a deferred pair, which
      comes from the list. */
  lemma WitnessRedo(list: seq<Edge>, added: seq<string>, joins: seq<string>, ad: seq<string>, js: seq<string>, k: nat)
    requires var p := Round(list, added, joins);
      |p.added| <= k && Witnessed(p.redo, p.added, p.joins, ad, js, k)
    ensures Witnessed(list, added, joins, ad, js, k)
  {
    var p := Round(list, added, joins);
    var e :| e in p.redo && NewTable(e, ad[..k]) == Some(ad[k])
      && js[|p.joins| + k - |p.added|] == JoinClause(ad[k], e);
    RedoFromList(list, added, joins, e);
    assert |p.joins| + k - |p.added| == |joins| + k - |added|;
  }

  lemma {:induction false} RedoFromList(list: seq<Edge>, added: seq<string>, joins: seq<string>, e: Edge)
    requires e in Round(list, added, joins).redo
    ensures e in list
    decreases |list|
  {
    var init := list[..|list| - 1];
    if e in Round(init, added, joins).redo {
      RedoFromList(init, added, joins, e);
    }
  }

  /** A pair whose two tables are already in the query is deferred by every
      pass, so add_joins never finishes: a join list that closes a cycle of
      tables makes it fail. */
  lemma {:induction false} JoinedPairBlocks(list: seq<Edge>, added: seq<string>, joins: seq<string>, i: nat)
    requires i < |list| && list[i].a.0 in added && list[i].b.0 in added
    ensures AddJoinsSpec(list, added, joins).Err?
    decreases |list|
  {
    var p := Round(list, added, joins);
    var e := list[i];
    DeferredStays(list, added, joins, i);
    var j :| 0 <= j < |p.redo| && p.redo[j] == e;
    if |p.redo| != |list| {
      JoinedPairBlocks(p.redo, p.added, p.joins, j);
    }
  }

  lemma {:induction false} DeferredStays(list: seq<Edge>, added: seq<string>, joins: seq<string>, i: nat)
    requires i < |list| && list[i].a.0 in added && list[i].b.0 in added
    ensures list[i] in Round(list, added, joins).redo
    decreases |list|
  {
    var init := list[..|list| - 1];
    var r0 := Round(init, added, joins);
    assert added <= r0.added;
    assert list[i].a.0 in r0.added && list[i].b.0 in r0.added;
    if i < |list| - 1 {
      assert init[i] == list[i];
      DeferredStays(init, added, joins, i);
    }
  }
}
