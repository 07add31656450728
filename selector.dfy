/** The reporter selection of src/naptrap/database/selector.py. A
    `Selector` keeps a sorted list of reporter ids that each filter
    narrows, combines the reporters passing its read filters, and resolves
    a `sel[rows, names]` request into the rows and the data-group and
    feature columns to read. The query results it works on are
    parameters. */
module Selector {
  import opened Common

  // ------------------------------------------------------------ sorted sets

  lemma NonEmpty(s: set<int>)
    requires s != {}
    ensures exists x :: x in s
  {
    assert (forall x :: x !in s) ==> s == {};
  }

  lemma {:induction false} SetHasMin(s: set<int>)
    requires s != {}
    ensures exists m :: m in s && forall y :: y in s ==> m <= y
    decreases |s|
  {
    NonEmpty(s);
    var x :| x in s;
    var t := s - {x};
    if t != {} {
      SetHasMin(t);
      var m :| m in t && forall y :: y in t ==> m <= y;
      var least := if x < m then x else m;
      forall y | y in s ensures least <= y {
        if y != x { assert y in t; }
      }
      assert least in s;
    } else {
      forall y | y in s ensures x <= y {
        assert y !in t;
      }
    }
  }

  /** Putting the least element of `s` in front of the sorted rest. */
  lemma ConsSorted(m: int, rest: seq<int>, s: set<int>)
    requires m in s && forall y :: y in s ==> m <= y
    requires StrictlyIncreasing(rest) && forall x :: x in rest <==> x in s - {m}
    ensures StrictlyIncreasing([m] + rest)
    ensures forall x :: x in [m] + rest <==> x in s
  {
    var r := [m] + rest;
    forall i, j | 0 <= i < j < |r| ensures r[i] < r[j]
    {
      if i == 0 {
        assert r[j] == rest[j - 1] && rest[j - 1] in rest;
      } else {
        assert r[i] == rest[i - 1] && r[j] == rest[j - 1];
      }
    }
  }

  /** `sorted(list(s))` */
  function SortedOf(s: set<int>): (r: seq<int>)
    ensures StrictlyIncreasing(r) && |r| == |s|
    ensures forall x :: x in r <==> x in s
    decreases |s|
  {
    if s == {} then []
    else
      SetHasMin(s);
      var m :| m in s && forall y :: y in s ==> m <= y;
      var rest := SortedOf(s - {m});
      ConsSorted(m, rest, s);
      [m] + rest
  }

  /** Dropping the first element keeps a list strictly increasing. */
  lemma IncreasingTail(a: seq<int>)
    requires StrictlyIncreasing(a) && |a| > 0
    ensures StrictlyIncreasing(a[1..])
  {
    var ta := a[1..];
    forall i, j | 0 <= i < j < |ta| ensures ta[i] < ta[j] {
      assert ta[i] == a[i + 1] && ta[j] == a[j + 1];
    }
  }

  /** The elements after the first of a strictly increasing list are the
      elements larger than the first. */
  lemma IncreasingTailElements(a: seq<int>, x: int)
    requires StrictlyIncreasing(a) && |a| > 0
    ensures x in a[1..] <==> x in a && a[0] < x
  {
    if x in a[1..] {
      var i :| 0 <= i < |a| - 1 && a[1..][i] == x;
      assert a[i + 1] == x;
    }
    if x in a && a[0] < x {
      var l :| 0 <= l < |a| && a[l] == x;
      assert a[1..][l - 1] == x;
    }
  }

  /** A list with the elements of an empty list is empty. */
  lemma SameElementsEmpty(a: seq<int>, b: seq<int>)
    requires forall x :: x in a <==> x in b
    ensures |a| == 0 ==> |b| == 0
  {
    if |b| > 0 {
      var y := b[0];
      assert y in b;
    }
  }

  /** Two strictly increasing lists with the same elements are equal. */
  lemma {:induction false} IncreasingUnique(a: seq<int>, b: seq<int>)
    requires StrictlyIncreasing(a) && StrictlyIncreasing(b)
    requires forall x :: x in a <==> x in b
    ensures a == b
    decreases |a|
  {
    if |a| == 0 {
      SameElementsEmpty(a, b);
    } else {
      assert a[0] in a;
      assert b[0] in b;
      var k :| 0 <= k < |b| && b[k] == a[0];
      var j :| 0 <= j < |a| && a[j] == b[0];
      assert a[0] <= a[j] && b[0] <= b[k];
      forall x ensures x in a[1..] <==> x in b[1..] {
        IncreasingTailElements(a, x);
        IncreasingTailElements(b, x);
      }
      IncreasingTail(a);
      IncreasingTail(b);
      IncreasingUnique(a[1..], b[1..]);
      assert a == [a[0]] + a[1..];
      assert b == [b[0]] + b[1..];
    }
  }

  /** A strictly increasing list is the sorted list of its elements. */
  lemma SortedOfElements(r: seq<int>)
    requires StrictlyIncreasing(r)
    ensures SortedOf(set x | x in r) == r
  {
    IncreasingUnique(SortedOf(set x | x in r), r);
  }

  // ------------------------------------------------------ update_reporter_ids

  /** The set `update_reporter_ids` sorts: the intersection with the stored
      ids when there are any, the new set otherwise. */
  function UpdatedSet(current: seq<int>, toAdd: set<int>): (r: set<int>)
    ensures |current| != 0 ==> forall x :: x in r <==> x in current && x in toAdd
    ensures |current| == 0 ==> r == toAdd
  {
    if |current| != 0 then (set x | x in current) * toAdd else toAdd
  }

  // -------------------------------------- get_read_filtered_reporter_ids

  /** What the database returns for one read filter `(run_type,
      raw_data_type, rf)`: the run ids of that run type among the selected
      data groups, and for each reporter (spike-ins excluded) the replicate
      ids of the runs where its count reaches the threshold. */
  datatype FilterQuery = FilterQuery(runType: string, runIds: set<int>, reporterLookup: map<int, seq<int>>)

  /** A reporter passes a filter when it reaches the threshold in as many
      runs as the filter has run ids. */
  function Passing(q: FilterQuery): (r: set<int>)
    ensures forall x :: x in r <==> x in q.reporterLookup && |q.reporterLookup[x]| == |q.runIds|
  {
    set x | x in q.reporterLookup && |q.reporterLookup[x]| == |q.runIds|
  }

  function PassSets(qs: seq<FilterQuery>): (r: seq<set<int>>)
    ensures |r| == |qs| && forall i :: 0 <= i < |qs| ==> r[i] == Passing(qs[i])
  {
    seq(|qs|, i requires 0 <= i < |qs| => Passing(qs[i]))
  }

  /** `read_filter_data_ids`: each filter's run type and run ids. */
  function FilterDataIds(qs: seq<FilterQuery>): (r: seq<(string, set<int>)>)
    ensures |r| == |qs| && forall i :: 0 <= i < |qs| ==> r[i] == (qs[i].runType, qs[i].runIds)
  {
    seq(|qs|, i requires 0 <= i < |qs| => (qs[i].runType, qs[i].runIds))
  }

  /** The index of the first filter whose run types match no run of the
      selected data groups, or `|qs|` when every filter has runs. */
  function {:induction false} FirstEmpty(qs: seq<FilterQuery>): (r: nat)
    ensures r <= |qs|
    ensures forall i :: 0 <= i < r ==> qs[i].runIds != {}
    ensures r < |qs| ==> qs[r].runIds == {}
  {
    if |qs| == 0 || qs[0].runIds == {} then 0
    else
      var t := FirstEmpty(qs[1..]);
      assert forall i :: 1 <= i <= t ==> qs[i] == qs[1..][i - 1];
      1 + t
  }

  /** The combining loop over the per-filter sets. As written, the set of
      the first filter is kept and each later `intersection` result is
      dropped; `corrected` keeps the intersection instead. */
  function Combine(sets: seq<set<int>>, corrected: bool): set<int>
  {
    if |sets| == 0 then {}
    else if |sets| == 1 then sets[0]
    else
      var c := Combine(sets[..|sets| - 1], corrected);
      if corrected then c * sets[|sets| - 1] else c
  }

  /** As written only the first filter counts. */
  lemma {:induction false} CombineAsWritten(sets: seq<set<int>>)
    requires |sets| > 0
    ensures Combine(sets, false) == sets[0]
  {
    if |sets| > 1 {
      CombineAsWritten(sets[..|sets| - 1]);
    }
  }

  /** Corrected, a reporter is kept exactly when it passes every filter. */
  lemma {:induction false} CombineIntersects(sets: seq<set<int>>)
    requires |sets| > 0
    ensures forall x :: x in Combine(sets, true) <==> forall i :: 0 <= i < |sets| ==> x in sets[i]
  {
    if |sets| > 1 {
      var init := sets[..|sets| - 1];
      CombineIntersects(init);
      assert forall i :: 0 <= i < |sets| - 1 ==> init[i] == sets[i];
    }
  }

  /** Two filters where the second rejects a reporter the first passes: as
      written the reporter is still selected. */
  lemma DroppedIntersection()
    ensures Combine([{1, 2}, {2}], false) == {1, 2}
    ensures Combine([{1, 2}, {2}], true) == {2}
  {
    var sets: seq<set<int>> := [{1, 2}, {2}];
    assert sets[..1] == [{1, 2}];
  }

  // ---------------------------------------------------------------- __getitem__

  /** The row part of a two-part request: a slice, or a list of reporter ids. */
  datatype Rows = AllRows | RowList(ids: seq<int>)

  /** `sel[rows, names]` or `sel[names]`. */
  datatype Key = Pair(rows: Rows, names: seq<string>) | NamesOnly(names: seq<string>)

  /** What is read: data-group columns, feature columns, or both side by side. */
  datatype Selection =
    | DataCols(rows: seq<int>, cols: seq<int>)
    | FeatureCols(rows: seq<int>, cols: seq<int>)
    | Stacked(rows: seq<int>, dataCols: seq<int>, featureCols: seq<int>)

  /** The rows a request names: all stored reporters for a slice or a
      names-only request, otherwise the sorted stored reporters among the
      listed ones, and None when there are none. A names-only request of
      exactly two names has length 2 and is unpacked as rows and names:
      the characters of the first name are taken for reporter ids, which
      match none, so it yields None. */
  function ResolveRows(current: seq<int>, key: Key): Option<seq<int>>
  {
    match key
    case NamesOnly(names) => if |names| == 2 then None else Some(current)
    case Pair(AllRows, _) => Some(current)
    case Pair(RowList(ids), _) =>
      var r := SortedOf((set x | x in current) * (set x | x in ids));
      if |r| == 0 then None else Some(r)
  }

  const BadName := "Please provide a valid feature_name or data_group_name"

  /** The column loop: each name is looked up as a data group first, then
      as a feature; an unknown name raises. */
  function Columns(names: seq<string>, groups: map<string, int>, features: map<string, int>): Result<(seq<int>, seq<int>)>
  {
    if |names| == 0 then Ok(([], []))
    else
      match Columns(names[..|names| - 1], groups, features)
      case Err(m) => Err(m)
      case Ok((didx, fidx)) =>
        var c := names[|names| - 1];
        if c in groups then Ok((didx + [groups[c]], fidx))
        else if c in features then Ok((didx, fidx + [features[c]]))
        else Err(BadName)
  }

  /** `[groups[c] for c in names if c in groups]` */
  function GroupIndices(names: seq<string>, groups: map<string, int>): seq<int>
  {
    if |names| == 0 then []
    else
      var c := names[|names| - 1];
      GroupIndices(names[..|names| - 1], groups) + (if c in groups then [groups[c]] else [])
  }

  /** `[features[c] for c in names if c not in groups and c in features]` */
  function FeatureIndices(names: seq<string>, groups: map<string, int>, features: map<string, int>): seq<int>
  {
    if |names| == 0 then []
    else
      var c := names[|names| - 1];
      FeatureIndices(names[..|names| - 1], groups, features) +
        (if c !in groups && c in features then [features[c]] else [])
  }

  /** The loop succeeds exactly when every name is known, and then yields
      the data-group indices and the feature indices of the names, each in
      request order. */
  lemma {:induction false} ColumnsSpec(names: seq<string>, groups: map<string, int>, features: map<string, int>)
    ensures Columns(names, groups, features).Ok? <==>
      forall i :: 0 <= i < |names| ==> names[i] in groups || names[i] in features
    ensures Columns(names, groups, features).Ok? ==>
      Columns(names, groups, features).value == (GroupIndices(names, groups), FeatureIndices(names, groups, features))
    ensures Columns(names, groups, features).Err? ==> Columns(names, groups, features).msg == BadName
  {
    if |names| > 0 {
      var n := |names|;
      var init := names[..n - 1];
      var c := names[n - 1];
      ColumnsSpec(init, groups, features);
      assert forall i :: 0 <= i < |init| ==> init[i] == names[i];
      if Columns(init, groups, features).Err? {
        var i :| 0 <= i < n - 1 && !(init[i] in groups || init[i] in features);
        assert !(names[i] in groups || names[i] in features);
      } else if !(c in groups || c in features) {
        assert !(names[n - 1] in groups || names[n - 1] in features);
      } else {
        forall i | 0 <= i < n ensures names[i] in groups || names[i] in features {
          if i < n - 1 { assert init[i] == names[i]; }
        }
        var gi, fi := GroupIndices(init, groups), FeatureIndices(init, groups, features);
        if c in groups {
          assert FeatureIndices(names, groups, features) == fi + [];
          assert fi + [] == fi;
        } else {
          assert GroupIndices(names, groups) == gi + [];
          assert gi + [] == gi;
        }
      }
    }
  }

  /** The selection for known rows and columns. With both kinds of column
      the source reads the feature matrix at the data-group indices;
      `corrected` reads it at the feature indices. */
  function Choose(rows: seq<int>, didx: seq<int>, fidx: seq<int>, corrected: bool): Selection
  {
    if |fidx| == 0 then DataCols(rows, didx)
    else if |didx| == 0 then FeatureCols(rows, fidx)
    else Stacked(rows, didx, if corrected then fidx else didx)
  }

  function GetItemOf(current: seq<int>, groups: map<string, int>, features: map<string, int>, key: Key, corrected: bool): Result<Option<Selection>>
  {
    match ResolveRows(current, key)
    case None => Ok(None)
    case Some(rows) =>
      match Columns(key.names, groups, features)
      case Err(m) => Err(m)
      case Ok((didx, fidx)) => Ok(Some(Choose(rows, didx, fidx, corrected)))
  }

  /** Explicit rows are the stored reporters among those asked for, sorted
      and without repeats; the request yields None exactly when there are
      none. */
  lemma ExplicitRows(current: seq<int>, ids: seq<int>, names: seq<string>)
    ensures ResolveRows(current, Pair(RowList(ids), names)).None? <==>
      forall x :: x in ids ==> x !in current
    ensures ResolveRows(current, Pair(RowList(ids), names)).Some? ==>
      var r := ResolveRows(current, Pair(RowList(ids), names)).value;
      StrictlyIncreasing(r) && forall x :: x in r <==> x in current && x in ids
  {
    var s := (set x | x in current) * (set x | x in ids);
    var r := SortedOf(s);
    if |r| == 0 {
      assert s == {};
      forall x | x in ids ensures x !in current {
        assert x !in s;
      }
    } else {
      assert r[0] in s;
    }
  }

  /** With both kinds of column, the feature part reads the data-group
      indices as written and the feature indices once corrected. */
  lemma MixedColumns(groups: map<string, int>, features: map<string, int>, g: string, f: string)
    requires g in groups && f !in groups && f in features
    ensures GetItemOf([7], groups, features, Pair(AllRows, [g, f]), false) ==
      Ok(Some(Stacked([7], [groups[g]], [groups[g]])))
    ensures GetItemOf([7], groups, features, Pair(AllRows, [g, f]), true) ==
      Ok(Some(Stacked([7], [groups[g]], [features[f]])))
  {
    var names := [g, f];
    assert names[..1] == [g];
    assert [g][..0] == [];
    assert [] + [groups[g]] == [groups[g]] && [] + [features[f]] == [features[f]];
    assert Columns([g], groups, features) == Ok(([groups[g]], []));
    assert Columns(names, groups, features) == Ok(([groups[g]], [features[f]]));
  }

  /** `sel[[a, b]]` is unpacked as `sel[a, b]`: whatever the two names,
      the request yields None and raises no error; every other names-only
      request reads all stored reporters. */
  lemma NamesOnlyRows(current: seq<int>, groups: map<string, int>, features: map<string, int>,
                      names: seq<string>, corrected: bool)
    ensures |names| == 2 ==> GetItemOf(current, groups, features, NamesOnly(names), corrected) == Ok(None)
    ensures |names| != 2 ==> ResolveRows(current, NamesOnly(names)) == Some(current)
  {
  }

  /** Corrected, a request naming both kinds of column reads the data
      matrix at the data-group indices and the feature matrix at the
      feature indices of its names, each in request order. */
  lemma StackedColumns(current: seq<int>, groups: map<string, int>, features: map<string, int>, key: Key)
    requires GetItemOf(current, groups, features, key, true).Ok?
    requires GetItemOf(current, groups, features, key, true).value.Some?
    requires GetItemOf(current, groups, features, key, true).value.value.Stacked?
    ensures GetItemOf(current, groups, features, key, true).value.value.dataCols == GroupIndices(key.names, groups)
    ensures GetItemOf(current, groups, features, key, true).value.value.featureCols ==
      FeatureIndices(key.names, groups, features)
  {
    ColumnsSpec(key.names, groups, features);
  }

  // ------------------------------------------------------------------- the object

  class Selector {
    var reporterIds: seq<int>
    var readFilterDataIds: seq<(string, set<int>)>
    /** `db.data_group_names` and `db.feature_names`: column positions. */
    const dataGroupNames: map<string, int>
    const featureNames: map<string, int>
    /** Select the corrected filter combination and stacked columns. */
    const corrected: bool

    /** A new selector starts with no reporter ids. */
    constructor(dataGroupNames: map<string, int>, featureNames: map<string, int>, corrected: bool)
      ensures reporterIds == [] && readFilterDataIds == [] && Valid()
      ensures this.dataGroupNames == dataGroupNames && this.featureNames == featureNames
      ensures this.corrected == corrected
    {
      reporterIds := [];
      readFilterDataIds := [];
      this.dataGroupNames := dataGroupNames;
      this.featureNames := featureNames;
      this.corrected := corrected;
    }

    /** The stored ids are always strictly increasing. */
    ghost predicate Valid()
      reads this
    {
      StrictlyIncreasing(reporterIds)
    }

    method UpdateReporterIds(toAdd: set<int>)
      modifies this
      ensures reporterIds == SortedOf(UpdatedSet(old(reporterIds), toAdd))
      ensures readFilterDataIds == old(readFilterDataIds)
      ensures Valid()
    {
      var updated: set<int>;
      if |reporterIds| != 0 {
        updated := (set x | x in reporterIds) * toAdd;
      } else {
        updated := toAdd;
      }
      reporterIds := SortedOf(updated);
    }

    /** `get_read_filtered_reporter_ids` given one query result per read
        filter: the filters are recorded up to the first one without runs,
        whose empty run-id fetch makes `to_list` raise. */
    method GetReadFilteredReporterIds(queries: seq<FilterQuery>) returns (r: Outcome)
      requires Valid()
      modifies this
      ensures Valid()
      ensures readFilterDataIds == FilterDataIds(queries[..FirstEmpty(queries)])
      ensures FirstEmpty(queries) < |queries| ==> r == Fail(NotValid) && reporterIds == old(reporterIds)
      ensures |queries| == 0 ==> r == Fail("Read filter failed.") && reporterIds == old(reporterIds)
      ensures |queries| != 0 && FirstEmpty(queries) == |queries| ==>
        (r == Pass && reporterIds == SortedOf(UpdatedSet(old(reporterIds), Combine(PassSets(queries), corrected))))
    {
      readFilterDataIds := [];
      var reporterIdsList: seq<set<int>> := [];
      var filtersAdded := 0;
      for i := 0 to |queries|
        invariant i <= FirstEmpty(queries)
        invariant reporterIdsList == PassSets(queries[..i])
        invariant readFilterDataIds == FilterDataIds(queries[..i])
        invariant filtersAdded == i
        invariant reporterIds == old(reporterIds)
      {
        var q := queries[i];
        if q.runIds == {} {
          return Fail(NotValid);
        }
        reporterIdsList := reporterIdsList + [Passing(q)];
        readFilterDataIds := readFilterDataIds + [(q.runType, q.runIds)];
        filtersAdded := filtersAdded + 1;
      }
      assert queries[..|queries|] == queries;
      var toAdd: set<int>;
      if filtersAdded == 0 {
        return Fail("Read filter failed.");
      } else if filtersAdded == 1 {
        toAdd := reporterIdsList[0];
      } else {
        toAdd := {};
        for i := 0 to |reporterIdsList|
          invariant toAdd == Combine(reporterIdsList[..i], corrected)
        {
          assert reporterIdsList[..i + 1][..i] == reporterIdsList[..i];
          if i == 0 {
            toAdd := reporterIdsList[i];
          } else if corrected {
            toAdd := toAdd * reporterIdsList[i];
          }
        }
        assert reporterIdsList[..|reporterIdsList|] == reporterIdsList;
      }
      UpdateReporterIds(toAdd);
      r := Pass;
    }

    /** `sel[key]` */
    method GetItem(key: Key) returns (r: Result<Option<Selection>>)
      ensures r == GetItemOf(reporterIds, dataGroupNames, featureNames, key, corrected)
    {
      var ridx := ResolveRows(reporterIds, key);
      if ridx.None? {
        return Ok(None);
      }
      var didx: seq<int> := [];
      var fidx: seq<int> := [];
      var names := key.names;
      for i := 0 to |names|
        invariant Columns(names[..i], dataGroupNames, featureNames) == Ok((didx, fidx))
      {
        assert names[..i + 1][..i] == names[..i];
        var c := names[i];
        if c in dataGroupNames {
          didx := didx + [dataGroupNames[c]];
        } else if c in featureNames {
          fidx := fidx + [featureNames[c]];
        } else {
          ColumnsStayErr(names, i + 1, dataGroupNames, featureNames);
          assert names[..|names|] == names;
          return Err(BadName);
        }
      }
      assert names[..|names|] == names;
      r := Ok(Some(Choose(ridx.value, didx, fidx, corrected)));
    }
  }

  /** Once a prefix of the names fails, so do the whole names. */
  lemma {:induction false} ColumnsStayErr(names: seq<string>, k: nat, groups: map<string, int>, features: map<string, int>)
    requires k <= |names| && Columns(names[..k], groups, features).Err?
    ensures Columns(names, groups, features) == Err(BadName)
    decreases |names| - k
  {
    ColumnsSpec(names[..k], groups, features);
    if k < |names| {
      assert names[..k + 1][..k] == names[..k];
      ColumnsStayErr(names, k + 1, groups, features);
    } else {
      assert names[..k] == names;
    }
  }

  // ------------------------------------------------------------------ properties

  /** After an update the ids are the sorted intersection when some were
      stored, and the sorted new set otherwise. */
  lemma UpdateNarrows(current: seq<int>, toAdd: set<int>)
    ensures var r := SortedOf(UpdatedSet(current, toAdd));
      StrictlyIncreasing(r) &&
      (|current| != 0 ==> forall x :: x in r <==> x in current && x in toAdd) &&
      (|current| == 0 ==> forall x :: x in r <==> x in toAdd)
  {
  }

  /** Offering the same set again changes nothing, as long as the first
      update left some ids. */
  lemma UpdateIdempotent(current: seq<int>, toAdd: set<int>)
    ensures var once := SortedOf(UpdatedSet(current, toAdd));
      |once| != 0 ==> SortedOf(UpdatedSet(once, toAdd)) == once
  {
    var once := SortedOf(UpdatedSet(current, toAdd));
    if |once| != 0 {
      assert UpdatedSet(once, toAdd) == (set x | x in once);
      SortedOfElements(once);
    }
  }

  /** An empty intersection clears the ids, and the next filter then
      selects its whole set again instead of narrowing: stored [1] met by
      {2} leaves nothing, and {2} once more selects [2]. */
  lemma EmptyThenRefill()
    ensures SortedOf(UpdatedSet([1], {2})) == []
    ensures SortedOf(UpdatedSet(SortedOf(UpdatedSet([1], {2})), {2})) == [2]
  {
    assert UpdatedSet([1], {2}) == {};
    var r := SortedOf({2});
    assert |r| == 1 && r[0] in {2};
  }
}
