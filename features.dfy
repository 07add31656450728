/** The bookkeeping of src/mpradb/database/mpra_db.py that works on values
    the database hands back: feature-id allocation in `add_features`, the
    sample checks and read filters of `check_samples`, `get_minumum_reads`
    and `add_minumum_reads`, and the run-group lookup of `get_run_groups`.
    Query results enter as parameters and the rows to insert as results. */
module MpraDb {
  import opened Common

  // --------------------------------------------------------------- add_features

  /** One element of `zip(feature_names, feature_types, reporter_ids, feature_data)`. */
  datatype FeatureRow<V> = FeatureRow(name: string, ftype: string, reporterId: int, value: V)

  /** A row of `feature_attribute`: id, name and type. */
  datatype AttrRow = AttrRow(featureId: int, name: string, ftype: string)

  /** A row of `feature`: feature id, reporter id and value. */
  datatype DataRow<V> = DataRow(featureId: int, reporterId: int, value: V)

  function Min(a: nat, b: nat): nat
  {
    if a <= b then a else b
  }

  /** `zip` stops at the shortest of its four lists. */
  function Zip<V>(names: seq<string>, types: seq<string>, rids: seq<int>, vals: seq<V>): (r: seq<FeatureRow<V>>)
    ensures |r| == Min(Min(|names|, |types|), Min(|rids|, |vals|))
    ensures forall i :: 0 <= i < |r| ==> r[i] == FeatureRow(names[i], types[i], rids[i], vals[i])
  {
    var n := Min(Min(|names|, |types|), Min(|rids|, |vals|));
    seq(n, i requires 0 <= i < n => FeatureRow(names[i], types[i], rids[i], vals[i]))
  }

  /** The counter, `fid_lookup` and the two lists of `add_features`. */
  datatype Features<V> = Features(maxId: int, lookup: map<string, int>, attrs: seq<AttrRow>, data: seq<DataRow<V>>)

  /** One pass of the loop: a name not yet seen gets the next id and an
      attribute row; every row gets a data row under its name's id. */
  function FeatureStep<V>(f: Features<V>, r: FeatureRow<V>): Features<V>
  {
    var g := if r.name in f.lookup then f
             else f.(maxId := f.maxId + 1, lookup := f.lookup[r.name := f.maxId + 1],
                     attrs := f.attrs + [AttrRow(f.maxId + 1, r.name, r.ftype)]);
    g.(data := g.data + [DataRow(g.lookup[r.name], r.reporterId, r.value)])
  }

  function FeaturesOf<V>(maxId: int, rows: seq<FeatureRow<V>>): Features<V>
  {
    if |rows| == 0 then Features(maxId, map[], [], [])
    else FeatureStep(FeaturesOf(maxId, rows[..|rows| - 1]), rows[|rows| - 1])
  }

  /** `add_features`: the `feature_attribute` rows and the `feature` rows
      it inserts. */
  method AddFeatures<V>(maxFeatureId: int, names: seq<string>, types: seq<string>, rids: seq<int>, vals: seq<V>)
    returns (attrs: seq<AttrRow>, data: seq<DataRow<V>>)
    ensures attrs == FeaturesOf(maxFeatureId, Zip(names, types, rids, vals)).attrs
    ensures data == FeaturesOf(maxFeatureId, Zip(names, types, rids, vals)).data
  {
    var rows := Zip(names, types, rids, vals);
    var maxId := maxFeatureId;
    var lookup: map<string, int> := map[];
    attrs, data := [], [];
    for i := 0 to |rows|
      invariant FeaturesOf(maxFeatureId, rows[..i]) == Features(maxId, lookup, attrs, data)
    {
      assert rows[..i + 1][..i] == rows[..i];
      var r := rows[i];
      if r.name !in lookup {
        maxId := maxId + 1;
        lookup := lookup[r.name := maxId];
        attrs := attrs + [AttrRow(maxId, r.name, r.ftype)];
      }
      var fid := lookup[r.name];
      data := data + [DataRow(fid, r.reporterId, r.value)];
    }
    assert rows[..|rows|] == rows;
  }

  function Names<V>(rows: seq<FeatureRow<V>>): (r: seq<string>)
    ensures |r| == |rows| && forall i :: 0 <= i < |rows| ==> r[i] == rows[i].name
  {
    seq(|rows|, i requires 0 <= i < |rows| => rows[i].name)
  }

  lemma NamesSnoc<V>(rows: seq<FeatureRow<V>>, r: FeatureRow<V>)
    ensures Names(rows + [r]) == Names(rows) + [r.name]
  {
  }

  /** The index of the first occurrence of `x` in `s`. */
  function FirstIndex<T(==)>(s: seq<T>, x: T): (i: nat)
    requires x in s
    ensures i < |s| && s[i] == x && forall j :: 0 <= j < i ==> s[j] != x
  {
    if x in s[..|s| - 1] then FirstIndex(s[..|s| - 1], x) else |s| - 1
  }

  lemma FirstIndexSnoc<T>(s: seq<T>, y: T, x: T)
    requires x in s
    ensures FirstIndex(s + [y], x) == FirstIndex(s, x)
  {
    assert (s + [y])[..|s|] == s;
  }

  lemma FirstIndexLast<T>(s: seq<T>, x: T)
    requires x !in s
    ensures FirstIndex(s + [x], x) == |s|
  {
    assert (s + [x])[..|s|] == s;
  }

  function AttrNames(attrs: seq<AttrRow>): (r: seq<string>)
    ensures |r| == |attrs| && forall j :: 0 <= j < |attrs| ==> r[j] == attrs[j].name
  {
    seq(|attrs|, j requires 0 <= j < |attrs| => attrs[j].name)
  }

  lemma AttrNamesSnoc(attrs: seq<AttrRow>, a: AttrRow)
    ensures AttrNames(attrs + [a]) == AttrNames(attrs) + [a.name]
  {
  }

  /** The type on the first row named `name`. */
  function TypeOf<V>(rows: seq<FeatureRow<V>>, name: string): string
    requires name in Names(rows)
  {
    rows[FirstIndex(Names(rows), name)].ftype
  }

  lemma TypeOfSnoc<V>(rows: seq<FeatureRow<V>>, r: FeatureRow<V>, name: string)
    requires name in Names(rows)
    ensures name in Names(rows + [r]) && TypeOf(rows + [r], name) == TypeOf(rows, name)
  {
    NamesSnoc(rows, r);
    FirstIndexSnoc(Names(rows), r.name, name);
  }

  lemma TypeOfLast<V>(rows: seq<FeatureRow<V>>, r: FeatureRow<V>)
    requires r.name !in Names(rows)
    ensures r.name in Names(rows + [r]) && TypeOf(rows + [r], r.name) == r.ftype
  {
    NamesSnoc(rows, r);
    FirstIndexLast(Names(rows), r.name);
  }

  /** After the rows `rows`, the attribute rows are the distinct names in
      first-appearance order, with consecutive ids and the type of each
      name's first row. */
  ghost predicate AttrsOk<V>(maxId: int, rows: seq<FeatureRow<V>>, f: Features<V>)
  {
    AttrNames(f.attrs) == Dedup(Names(rows)) && f.maxId == maxId + |f.attrs| && AttrsTyped(maxId, rows, f.attrs)
  }

  ghost predicate AttrsTyped<V>(maxId: int, rows: seq<FeatureRow<V>>, attrs: seq<AttrRow>)
  {
    forall j :: 0 <= j < |attrs| ==>
      attrs[j].featureId == maxId + 1 + j && attrs[j].name in Names(rows) &&
      attrs[j].ftype == TypeOf(rows, attrs[j].name)
  }

  /** The lookup holds exactly the names seen, each under its id. */
  ghost predicate LookupOk<V>(maxId: int, rows: seq<FeatureRow<V>>, f: Features<V>)
  {
    IdsFrom(f.lookup, Names(rows), Dedup(Names(rows)), maxId + 1)
  }

  /** The keys are the names, numbered from `base` by their position in
      `uniq`, the names once each in first-seen order. */
  ghost predicate IdsFrom(lookup: map<string, int>, names: seq<string>, uniq: seq<string>, base: int)
  {
    KeysAre(lookup, names) && Numbered(lookup, uniq, base)
  }

  ghost predicate KeysAre(lookup: map<string, int>, names: seq<string>)
  {
    forall k :: k in lookup <==> k in names
  }

  ghost predicate Numbered(lookup: map<string, int>, uniq: seq<string>, base: int)
  {
    forall k :: k in lookup ==> k in uniq && lookup[k] == base + FirstIndex(uniq, k)
  }

  /** One data row per row, under the id of its name. */
  ghost predicate DataOk<V>(rows: seq<FeatureRow<V>>, f: Features<V>)
  {
    |f.data| == |rows| &&
    forall i :: 0 <= i < |rows| ==>
      rows[i].name in f.lookup &&
      f.data[i] == DataRow(f.lookup[rows[i].name], rows[i].reporterId, rows[i].value)
  }

  ghost predicate FeaturesInv<V>(maxId: int, rows: seq<FeatureRow<V>>, f: Features<V>)
  {
    AttrsOk(maxId, rows, f) && LookupOk(maxId, rows, f) && DataOk(rows, f)
  }

  /** A row whose name was seen adds no attribute row. */
  lemma StepAttrsSeen<V>(maxId: int, rows: seq<FeatureRow<V>>, f: Features<V>, r: FeatureRow<V>)
    requires AttrsOk(maxId, rows, f) && r.name in f.lookup && r.name in Names(rows)
    ensures AttrsOk(maxId, rows + [r], FeatureStep(f, r))
  {
    NamesSnoc(rows, r);
    DedupPrefix(Names(rows), r.name);
    var g := FeatureStep(f, r);
    assert g.attrs == f.attrs && g.maxId == f.maxId;
    forall j | 0 <= j < |f.attrs|
      ensures f.attrs[j].name in Names(rows + [r])
      ensures TypeOf(rows + [r], f.attrs[j].name) == TypeOf(rows, f.attrs[j].name)
    {
      TypeOfSnoc(rows, r, f.attrs[j].name);
    }
  }

  /** Appending the attribute row of a new name keeps the names deduplicated. */
  lemma NewAttrNames(attrs: seq<AttrRow>, names: seq<string>, a: AttrRow)
    requires AttrNames(attrs) == Dedup(names) && a.name !in names
    ensures AttrNames(attrs + [a]) == Dedup(names + [a.name])
  {
    DedupAbsent(names, a.name);
    DedupPrefix(names, a.name);
    AttrNamesSnoc(attrs, a);
  }

  /** A row with a new name adds the attribute row with the next id. */
  lemma StepAttrsNew<V>(maxId: int, rows: seq<FeatureRow<V>>, f: Features<V>, r: FeatureRow<V>)
    requires AttrsOk(maxId, rows, f) && r.name !in f.lookup && r.name !in Names(rows)
    ensures AttrsOk(maxId, rows + [r], FeatureStep(f, r))
  {
    var a := AttrRow(maxId + 1 + |f.attrs|, r.name, r.ftype);
    StepNewAttrs(f, r);
    NamesSnoc(rows, r);
    NewAttrNames(f.attrs, Names(rows), a);
    TypedNew(maxId, rows, f.attrs, r);
  }

  lemma StepNewAttrs<V>(f: Features<V>, r: FeatureRow<V>)
    requires r.name !in f.lookup
    ensures FeatureStep(f, r).attrs == f.attrs + [AttrRow(f.maxId + 1, r.name, r.ftype)]
    ensures FeatureStep(f, r).maxId == f.maxId + 1
  {
  }

  lemma TypedNew<V>(maxId: int, rows: seq<FeatureRow<V>>, attrs: seq<AttrRow>, r: FeatureRow<V>)
    requires AttrsTyped(maxId, rows, attrs) && r.name !in Names(rows)
    ensures AttrsTyped(maxId, rows + [r], attrs + [AttrRow(maxId + 1 + |attrs|, r.name, r.ftype)])
  {
    var attrs' := attrs + [AttrRow(maxId + 1 + |attrs|, r.name, r.ftype)];
    forall j | 0 <= j < |attrs'|
      ensures attrs'[j].featureId == maxId + 1 + j && attrs'[j].name in Names(rows + [r])
      ensures attrs'[j].ftype == TypeOf(rows + [r], attrs'[j].name)
    {
      if j < |attrs| {
        assert attrs'[j] == attrs[j];
        TypeOfSnoc(rows, r, attrs[j].name);
      } else {
        TypeOfLast(rows, r);
      }
    }
  }

  lemma StepAttrs<V>(maxId: int, rows: seq<FeatureRow<V>>, f: Features<V>, r: FeatureRow<V>)
    requires AttrsOk(maxId, rows, f) && (r.name in f.lookup <==> r.name in Names(rows))
    ensures AttrsOk(maxId, rows + [r], FeatureStep(f, r))
  {
    if r.name in f.lookup {
      StepAttrsSeen(maxId, rows, f, r);
    } else {
      StepAttrsNew(maxId, rows, f, r);
    }
  }

  lemma StepLookup<V>(maxId: int, rows: seq<FeatureRow<V>>, f: Features<V>, r: FeatureRow<V>)
    requires LookupOk(maxId, rows, f) && f.maxId == maxId + |Dedup(Names(rows))|
    ensures LookupOk(maxId, rows + [r], FeatureStep(f, r))
  {
    NamesSnoc(rows, r);
    if r.name in f.lookup {
      assert FeatureStep(f, r).lookup == f.lookup;
      IdsFromOld(f.lookup, Names(rows), r.name, maxId + 1);
      assert Names(rows + [r]) == Names(rows) + [r.name];
    } else {
      assert FeatureStep(f, r).lookup == f.lookup[r.name := maxId + 1 + |Dedup(Names(rows))|];
      IdsFromNew(f.lookup, Names(rows), r.name, maxId + 1);
      assert Names(rows + [r]) == Names(rows) + [r.name];
    }
  }

  lemma IdsFromOld(lookup: map<string, int>, names: seq<string>, x: string, base: int)
    requires IdsFrom(lookup, names, Dedup(names), base) && x in lookup
    ensures Dedup(names + [x]) == Dedup(names)
    ensures IdsFrom(lookup, names + [x], Dedup(names), base)
  {
    DedupPrefix(names, x);
    KeysOld(lookup, names, x);
  }

  lemma IdsFromNew(lookup: map<string, int>, names: seq<string>, x: string, base: int)
    requires IdsFrom(lookup, names, Dedup(names), base) && x !in lookup
    ensures Dedup(names + [x]) == Dedup(names) + [x]
    ensures IdsFrom(lookup[x := base + |Dedup(names)|], names + [x], Dedup(names) + [x], base)
  {
    var u := Dedup(names);
    assert x !in names;
    DedupAbsent(names, x);
    DedupPrefix(names, x);
    KeysNew(lookup, names, x, base + |u|);
    NumberedNew(lookup, u, x, base);
  }

  lemma KeysOld(lookup: map<string, int>, names: seq<string>, x: string)
    requires KeysAre(lookup, names) && x in lookup
    ensures KeysAre(lookup, names + [x])
  {
    forall k
      ensures k in lookup <==> k in names + [x]
    {
      assert k in names + [x] <==> k in names || k == x;
    }
  }

  lemma KeysNew(lookup: map<string, int>, names: seq<string>, x: string, v: int)
    requires KeysAre(lookup, names)
    ensures KeysAre(lookup[x := v], names + [x])
  {
    forall k
      ensures k in lookup[x := v] <==> k in names + [x]
    {
      assert k in names + [x] <==> k in names || k == x;
    }
  }

  lemma NumberedNew(lookup: map<string, int>, uniq: seq<string>, x: string, base: int)
    requires Numbered(lookup, uniq, base) && x !in uniq
    ensures Numbered(lookup[x := base + |uniq|], uniq + [x], base)
  {
    forall k | k in lookup[x := base + |uniq|]
      ensures k in uniq + [x] && lookup[x := base + |uniq|][k] == base + FirstIndex(uniq + [x], k)
    {
      if k == x {
        FirstIndexLast(uniq, x);
      } else {
        FirstIndexSnoc(uniq, x, k);
      }
    }
  }

  lemma StepData<V>(rows: seq<FeatureRow<V>>, f: Features<V>, r: FeatureRow<V>)
    requires DataOk(rows, f)
    ensures DataOk(rows + [r], FeatureStep(f, r))
  {
    var rows' := rows + [r];
    var g := FeatureStep(f, r);
    assert forall k :: k in f.lookup ==> k in g.lookup && g.lookup[k] == f.lookup[k];
    forall i | 0 <= i < |rows'|
      ensures rows'[i].name in g.lookup
      ensures g.data[i] == DataRow(g.lookup[rows'[i].name], rows'[i].reporterId, rows'[i].value)
    {
      if i < |rows| {
        assert rows'[i] == rows[i] && g.data[i] == f.data[i];
      }
    }
  }

  lemma {:induction false} FeaturesOfInv<V>(maxId: int, rows: seq<FeatureRow<V>>)
    ensures FeaturesInv(maxId, rows, FeaturesOf(maxId, rows))
  {
    if |rows| > 0 {
      var init := rows[..|rows| - 1];
      var r := rows[|rows| - 1];
      assert init + [r] == rows;
      FeaturesOfInv(maxId, init);
      var f := FeaturesOf(maxId, init);
      assert FeaturesOf(maxId, rows) == FeatureStep(f, r);
      StepAttrs(maxId, init, f, r);
      StepLookup(maxId, init, f, r);
      StepData(init, f, r);
    }
  }

  /** The attribute rows are the distinct names in first-appearance order,
      with the consecutive ids `max_feature_id + 1, …` and the type of each
      name's first row. */
  ghost predicate FirstAppearance<V>(maxId: int, rows: seq<FeatureRow<V>>, attrs: seq<AttrRow>)
  {
    var names := Names(rows);
    var uniq := Dedup(names);
    |attrs| == |uniq| &&
    forall j :: 0 <= j < |uniq| ==>
      attrs[j] == AttrRow(maxId + 1 + j, uniq[j], rows[FirstIndex(names, uniq[j])].ftype)
  }

  /** One data row per input row, in order, under the id of its name. */
  ghost predicate DataUnderIds<V>(maxId: int, rows: seq<FeatureRow<V>>, data: seq<DataRow<V>>)
  {
    var uniq := Dedup(Names(rows));
    |data| == |rows| &&
    forall i :: 0 <= i < |rows| ==>
      rows[i].name in uniq &&
      data[i] == DataRow(maxId + 1 + FirstIndex(uniq, rows[i].name), rows[i].reporterId, rows[i].value)
  }

  lemma AttrsFirstAppearance<V>(maxId: int, rows: seq<FeatureRow<V>>)
    ensures FirstAppearance(maxId, rows, FeaturesOf(maxId, rows).attrs)
  {
    var f := FeaturesOf(maxId, rows);
    FeaturesOfInv(maxId, rows);
    var names := Names(rows);
    var uniq := Dedup(names);
    assert AttrNames(f.attrs) == uniq;
    forall j | 0 <= j < |uniq|
      ensures f.attrs[j] == AttrRow(maxId + 1 + j, uniq[j], rows[FirstIndex(names, uniq[j])].ftype)
    {
      assert f.attrs[j].name == uniq[j];
    }
  }

  lemma DataFollowsIds<V>(maxId: int, rows: seq<FeatureRow<V>>)
    ensures DataUnderIds(maxId, rows, FeaturesOf(maxId, rows).data)
  {
    var f := FeaturesOf(maxId, rows);
    FeaturesOfInv(maxId, rows);
    var uniq := Dedup(Names(rows));
    forall i | 0 <= i < |rows|
      ensures rows[i].name in uniq
      ensures f.data[i] == DataRow(maxId + 1 + FirstIndex(uniq, rows[i].name), rows[i].reporterId, rows[i].value)
    {
      assert rows[i].name in f.lookup;
    }
  }

  /** `add_features` inserts the attribute rows of `FirstAppearance` and the
      data rows of `DataUnderIds`. */
  lemma AddFeaturesSpec<V>(maxId: int, rows: seq<FeatureRow<V>>) returns (f: Features<V>)
    ensures f == FeaturesOf(maxId, rows)
    ensures FirstAppearance(maxId, rows, f.attrs)
    ensures DataUnderIds(maxId, rows, f.data)
  {
    f := FeaturesOf(maxId, rows);
    AttrsFirstAppearance(maxId, rows);
    DataFollowsIds(maxId, rows);
  }

  // ------------------------------------------------ check_samples and read filters

  /** A row of the `samples` table: its id and its read filter. */
  datatype SampleRow = SampleRow(sampleId: int, readFilter: int)

  function SampleIds(table: seq<SampleRow>): (r: seq<int>)
    ensures |r| == |table| && forall i :: 0 <= i < |table| ==> r[i] == table[i].sampleId
  {
    seq(|table|, i requires 0 <= i < |table| => table[i].sampleId)
  }

  /** `str` of a list of ints. */
  function IntList(xs: seq<int>): string
  {
    "[" + Join(", ", seq(|xs|, i requires 0 <= i < |xs| => IntToString(xs[i]))) + "]"
  }

  /** `[s for s in sample_ids if s not in samples_in_db]` */
  function NotFound(ids: seq<int>, known: seq<int>): (r: seq<int>)
    ensures forall x :: x in r <==> x in ids && x !in known
  {
    if |ids| == 0 then []
    else (if ids[0] in known then [] else [ids[0]]) + NotFound(ids[1..], known)
  }

  function NotFoundMessage(missing: seq<int>): string
  {
    "Sample_ids: " + IntList(missing) + " not found in db. Please add samples!"
  }

  /** `check_samples` */
  function CheckSamples(ids: seq<int>, table: seq<SampleRow>): (r: Outcome)
    ensures r.Pass? <==> forall s :: s in ids ==> s in SampleIds(table)
    ensures r.Fail? ==> r.msg == NotFoundMessage(NotFound(ids, SampleIds(table)))
  {
    var missing := NotFound(ids, SampleIds(table));
    if |missing| != 0 then
      assert missing[0] in missing;
      Fail(NotFoundMessage(missing))
    else
      assert forall s :: s in ids ==> s !in missing;
      Pass
  }

  /** `{sample_id: read_filter for ...}`: a later row overwrites an earlier
      one with the same id. */
  function Lookup(table: seq<SampleRow>): (m: map<int, int>)
    ensures forall s :: s in m <==> s in SampleIds(table)
  {
    if |table| == 0 then map[]
    else
      var init := table[..|table| - 1];
      assert SampleIds(table) == SampleIds(init) + [table[|table| - 1].sampleId];
      Lookup(init)[table[|table| - 1].sampleId := table[|table| - 1].readFilter]
  }

  /** The samples whose read filter is unset (-1). */
  function Unset(ids: seq<int>, lk: map<int, int>): (r: seq<int>)
    requires forall i :: 0 <= i < |ids| ==> ids[i] in lk
    ensures forall x :: x in r <==> x in ids && lk[x] == -1
    ensures |r| == 0 <==> forall x :: x in ids ==> lk[x] != -1
  {
    if |ids| == 0 then []
    else
      var init := ids[..|ids| - 1];
      var s := ids[|ids| - 1];
      assert ids == init + [s];
      Unset(init, lk) + (if lk[s] == -1 then [s] else [])
  }

  /** The read filters that are set, in order. */
  function Kept(ids: seq<int>, lk: map<int, int>): seq<int>
    requires forall i :: 0 <= i < |ids| ==> ids[i] in lk
  {
    if |ids| == 0 then []
    else
      var s := ids[|ids| - 1];
      Kept(ids[..|ids| - 1], lk) + (if lk[s] == -1 then [] else [lk[s]])
  }

  function UnsetMessage(unset: seq<int>): string
  {
    "Please add read_filters to " + IntList(unset) + " in samples table."
  }

  /** `get_minumum_reads` */
  function MinimumReadsOf(ids: seq<int>, table: seq<SampleRow>): Result<seq<int>>
  {
    match CheckSamples(ids, table)
    case Fail(m) => Err(m)
    case Pass =>
      var lk := Lookup(table);
      var unset := Unset(ids, lk);
      if |unset| != 0 then Err(UnsetMessage(unset)) else Ok(Kept(ids, lk))
  }

  /** The loop of `get_minumum_reads`: the set filters and the unset samples. */
  method SplitFilters(ids: seq<int>, lk: map<int, int>) returns (minimumReads: seq<int>, notAdded: seq<int>)
    requires forall i :: 0 <= i < |ids| ==> ids[i] in lk
    ensures minimumReads == Kept(ids, lk) && notAdded == Unset(ids, lk)
  {
    minimumReads, notAdded := [], [];
    for i := 0 to |ids|
      invariant minimumReads == Kept(ids[..i], lk) && notAdded == Unset(ids[..i], lk)
    {
      assert ids[..i + 1][..i] == ids[..i];
      var readFilter := lk[ids[i]];
      if readFilter == -1 {
        notAdded := notAdded + [ids[i]];
      } else {
        minimumReads := minimumReads + [readFilter];
      }
    }
    assert ids[..|ids|] == ids;
  }

  method GetMinimumReads(ids: seq<int>, table: seq<SampleRow>) returns (r: Result<seq<int>>)
    ensures r == MinimumReadsOf(ids, table)
  {
    var check := CheckSamples(ids, table);
    if check.Fail? {
      return Err(check.msg);
    }
    var minimumReads, notAdded := SplitFilters(ids, Lookup(table));
    if |notAdded| != 0 {
      return Err(UnsetMessage(notAdded));
    }
    r := Ok(minimumReads);
  }

  lemma {:induction false} KeptAll(ids: seq<int>, lk: map<int, int>)
    requires forall i :: 0 <= i < |ids| ==> ids[i] in lk && lk[ids[i]] != -1
    ensures |Kept(ids, lk)| == |ids|
    ensures forall i :: 0 <= i < |ids| ==> Kept(ids, lk)[i] == lk[ids[i]]
  {
    if |ids| > 0 {
      var init := ids[..|ids| - 1];
      KeptAll(init, lk);
    }
  }

  /** The call succeeds exactly when every requested sample is stored
      with a set read filter, and then returns the filters in request
      order; a stored sample with filter -1 is named in the error. */
  lemma MinimumReadsSpec(ids: seq<int>, table: seq<SampleRow>)
    ensures MinimumReadsOf(ids, table).Ok? <==>
      forall s :: s in ids ==> s in SampleIds(table) && Lookup(table)[s] != -1
    ensures MinimumReadsOf(ids, table).Ok? ==>
      |MinimumReadsOf(ids, table).value| == |ids| &&
      forall i :: 0 <= i < |ids| ==> MinimumReadsOf(ids, table).value[i] == Lookup(table)[ids[i]]
    ensures (forall s :: s in ids ==> s in SampleIds(table)) && MinimumReadsOf(ids, table).Err? ==>
      MinimumReadsOf(ids, table).msg == UnsetMessage(Unset(ids, Lookup(table)))
  {
    if forall s :: s in ids ==> s in SampleIds(table) {
      var lk := Lookup(table);
      var unset := Unset(ids, lk);
      if forall s :: s in ids ==> lk[s] != -1 {
        KeptAll(ids, lk);
      } else {
        var s :| s in ids && lk[s] == -1;
        assert s in unset;
      }
    }
  }

  /** Every row with id `sid` gets read filter `m`
      (`UPDATE samples set read_filter = m WHERE sample_id = sid`). */
  function SetFilter(table: seq<SampleRow>, sid: int, m: int): (r: seq<SampleRow>)
    ensures |r| == |table|
    ensures forall i :: 0 <= i < |table| ==>
      r[i] == if table[i].sampleId == sid then SampleRow(sid, m) else table[i]
  {
    seq(|table|, i requires 0 <= i < |table| => if table[i].sampleId == sid then SampleRow(sid, m) else table[i])
  }

  /** The updates of the `zip(sample_ids, minumum_reads)` loop, in order. */
  function Updated(table: seq<SampleRow>, ids: seq<int>, filters: seq<int>): seq<SampleRow>
    requires |ids| == |filters|
  {
    if |ids| == 0 then table
    else SetFilter(Updated(table, ids[..|ids| - 1], filters[..|ids| - 1]), ids[|ids| - 1], filters[|ids| - 1])
  }

  /** `add_minumum_reads`: the samples table after the updates. */
  function AddMinimumReadsOf(ids: seq<int>, filters: seq<int>, table: seq<SampleRow>): Result<seq<SampleRow>>
  {
    match CheckSamples(ids, table)
    case Fail(m) => Err(m)
    case Pass =>
      if |ids| != |filters| then Err("Please provide a read_filter for each sample_id.")
      else Ok(Updated(table, ids, filters))
  }

  lemma AddMinimumReadsOk(ids: seq<int>, filters: seq<int>, table: seq<SampleRow>)
    ensures AddMinimumReadsOf(ids, filters, table).Ok? <==>
      (forall s :: s in ids ==> s in SampleIds(table)) && |ids| == |filters|
  {
  }

  lemma SetFilterIds(table: seq<SampleRow>, sid: int, m: int)
    ensures SampleIds(SetFilter(table, sid, m)) == SampleIds(table)
  {
  }

  lemma {:induction false} SetFilterLookup(table: seq<SampleRow>, sid: int, m: int)
    requires sid in SampleIds(table)
    ensures Lookup(SetFilter(table, sid, m)) == Lookup(table)[sid := m]
  {
    var t := SetFilter(table, sid, m);
    var n := |table|;
    var init := table[..n - 1];
    assert t[..n - 1] == SetFilter(init, sid, m);
    if sid in SampleIds(init) {
      SetFilterLookup(init, sid, m);
    } else {
      assert table[n - 1].sampleId == sid;
      assert SetFilter(init, sid, m) == init;
    }
  }

  lemma {:induction false} UpdatedFacts(table: seq<SampleRow>, ids: seq<int>, filters: seq<int>)
    requires |ids| == |filters| && NoDuplicates(ids)
    requires forall s :: s in ids ==> s in SampleIds(table)
    ensures SampleIds(Updated(table, ids, filters)) == SampleIds(table)
    ensures forall i :: 0 <= i < |ids| ==> ids[i] in Lookup(Updated(table, ids, filters))
    ensures forall i :: 0 <= i < |ids| ==> Lookup(Updated(table, ids, filters))[ids[i]] == filters[i]
  {
    if |ids| > 0 {
      var n := |ids|;
      var init := ids[..n - 1];
      assert NoDuplicates(init);
      UpdatedFacts(table, init, filters[..n - 1]);
      var t := Updated(table, init, filters[..n - 1]);
      SetFilterIds(t, ids[n - 1], filters[n - 1]);
      SetFilterLookup(t, ids[n - 1], filters[n - 1]);
      forall i | 0 <= i < n - 1
        ensures Lookup(Updated(table, ids, filters))[ids[i]] == filters[i]
      {
        assert ids[i] == init[i] && ids[i] != ids[n - 1];
      }
    }
  }

  /** Storing read filters and reading them back: for distinct samples
      and filters other than -1, `get_minumum_reads` after
      `add_minumum_reads` returns the filters stored. */
  lemma ReadFiltersRoundTrip(ids: seq<int>, filters: seq<int>, table: seq<SampleRow>)
    requires AddMinimumReadsOf(ids, filters, table).Ok?
    requires NoDuplicates(ids) && forall i :: 0 <= i < |filters| ==> filters[i] != -1
    ensures MinimumReadsOf(ids, AddMinimumReadsOf(ids, filters, table).value) == Ok(filters)
  {
    var t := Updated(table, ids, filters);
    assert AddMinimumReadsOf(ids, filters, table) == Ok(t);
    UpdatedFacts(table, ids, filters);
    var lk := Lookup(t);
    forall s | s in ids
      ensures s in SampleIds(t) && lk[s] != -1
    {
      var i :| 0 <= i < |ids| && ids[i] == s;
    }
    MinimumReadsSpec(ids, t);
    var v := MinimumReadsOf(ids, t).value;
    assert forall i :: 0 <= i < |ids| ==> v[i] == filters[i];
    assert v == filters;
  }

  // ------------------------------------------------------------ get_run_groups

  /** A grouped row: a run group and its `group_concat` of run ids. */
  datatype GroupRow = GroupRow(runGroupId: int, runIds: string)

  /** `[int(r) for r in parts]` */
  function ParseAll(parts: seq<string>): (r: Result<seq<int>>)
    ensures r.Ok? ==> |r.value| == |parts| && forall i :: 0 <= i < |parts| ==> ParseInt(parts[i]) == Ok(r.value[i])
  {
    if |parts| == 0 then Ok([])
    else
      match ParseInt(parts[0])
      case Err(m) => Err(m)
      case Ok(v) =>
        match ParseAll(parts[1..])
        case Err(m) => Err(m)
        case Ok(vs) => Ok([v] + vs)
  }

  /** `frozenset([int(r) for r in rids.split(',')])` */
  function GroupKey(rids: string): Result<set<int>>
  {
    match ParseAll(Split(rids, ','))
    case Err(m) => Err(m)
    case Ok(xs) => Ok(set x | x in xs)
  }

  /** `get_run_groups`: a later group with the same set of runs overwrites
      an earlier one. */
  function RunGroupsOf(rows: seq<GroupRow>): Result<map<set<int>, int>>
  {
    if |rows| == 0 then Ok(map[])
    else
      var last := rows[|rows| - 1];
      match RunGroupsOf(rows[..|rows| - 1])
      case Err(m) => Err(m)
      case Ok(m) =>
        match GroupKey(last.runIds)
        case Err(e) => Err(e)
        case Ok(k) => Ok(m[k := last.runGroupId])
  }

  /** Every row's run ids parse. */
  ghost predicate AllParse(rows: seq<GroupRow>)
  {
    forall i :: 0 <= i < |rows| ==> GroupKey(rows[i].runIds).Ok?
  }

  /** The set of runs of row i. */
  ghost function KeyAt(rows: seq<GroupRow>, i: int): set<int>
    requires AllParse(rows) && 0 <= i < |rows|
  {
    GroupKey(rows[i].runIds).value
  }

  /** No later row has the same set of runs as row i. */
  ghost predicate LastWithKey(rows: seq<GroupRow>, i: int)
    requires AllParse(rows) && 0 <= i < |rows|
  {
    forall j :: i < j < |rows| ==> KeyAt(rows, j) != KeyAt(rows, i)
  }

  lemma AllParseInit(rows: seq<GroupRow>)
    requires |rows| > 0 && AllParse(rows)
    ensures AllParse(rows[..|rows| - 1])
    ensures forall i :: 0 <= i < |rows| - 1 ==> KeyAt(rows[..|rows| - 1], i) == KeyAt(rows, i)
  {
  }

  lemma {:induction false} RunGroupsOk(rows: seq<GroupRow>)
    ensures RunGroupsOf(rows).Ok? <==> AllParse(rows)
  {
    if |rows| > 0 {
      var n := |rows|;
      var init := rows[..n - 1];
      RunGroupsOk(init);
      assert forall i :: 0 <= i < n - 1 ==> init[i] == rows[i];
      if !AllParse(init) {
        var i :| 0 <= i < n - 1 && GroupKey(init[i].runIds).Err?;
        assert GroupKey(rows[i].runIds).Err?;
      }
    }
  }

  lemma RunGroupsSnoc(rows: seq<GroupRow>)
    requires |rows| > 0 && AllParse(rows)
    ensures AllParse(rows[..|rows| - 1]) && RunGroupsOf(rows[..|rows| - 1]).Ok?
    ensures RunGroupsOf(rows) ==
      Ok(RunGroupsOf(rows[..|rows| - 1]).value[KeyAt(rows, |rows| - 1) := rows[|rows| - 1].runGroupId])
  {
    AllParseInit(rows);
    RunGroupsOk(rows[..|rows| - 1]);
  }

  lemma {:induction false} RunGroupsKeys(rows: seq<GroupRow>)
    requires AllParse(rows)
    ensures RunGroupsOf(rows).Ok?
    ensures forall k :: k in RunGroupsOf(rows).value <==> exists i :: 0 <= i < |rows| && KeyAt(rows, i) == k
  {
    RunGroupsOk(rows);
    if |rows| > 0 {
      var n := |rows|;
      var init := rows[..n - 1];
      AllParseInit(rows);
      RunGroupsSnoc(rows);
      RunGroupsKeys(init);
      var m := RunGroupsOf(rows).value;
      var k := KeyAt(rows, n - 1);
      forall key
        ensures key in m <==> exists i :: 0 <= i < n && KeyAt(rows, i) == key
      {
        if key in m && key != k {
          var i :| 0 <= i < n - 1 && KeyAt(init, i) == key;
          assert KeyAt(rows, i) == key;
        }
        if exists i :: 0 <= i < n && KeyAt(rows, i) == key {
          var i :| 0 <= i < n && KeyAt(rows, i) == key;
          if i < n - 1 {
            assert KeyAt(init, i) == key;
          }
        }
      }
    }
  }

  lemma {:induction false} RunGroupsLast(rows: seq<GroupRow>, i: int)
    requires AllParse(rows) && 0 <= i < |rows| && LastWithKey(rows, i)
    ensures RunGroupsOf(rows).Ok? && KeyAt(rows, i) in RunGroupsOf(rows).value
    ensures RunGroupsOf(rows).value[KeyAt(rows, i)] == rows[i].runGroupId
  {
    var n := |rows|;
    var init := rows[..n - 1];
    var k := KeyAt(rows, n - 1);
    RunGroupsSnoc(rows);
    if i < n - 1 {
      AllParseInit(rows);
      forall j | i < j < n - 1
        ensures KeyAt(init, j) != KeyAt(init, i)
      {
        assert KeyAt(rows, j) != KeyAt(rows, i);
      }
      RunGroupsLast(init, i);
      assert k != KeyAt(rows, i);
    }
  }

  /** The lookup is built exactly when every row's run ids parse; its keys
      are the rows' run sets, and each maps to the last group with that
      set. */
  lemma RunGroupsSpec(rows: seq<GroupRow>)
    ensures RunGroupsOf(rows).Ok? <==> AllParse(rows)
    ensures AllParse(rows) ==>
      (forall k :: k in RunGroupsOf(rows).value <==> exists i :: 0 <= i < |rows| && KeyAt(rows, i) == k) &&
      (forall i :: 0 <= i < |rows| && LastWithKey(rows, i) ==> RunGroupsOf(rows).value[KeyAt(rows, i)] == rows[i].runGroupId)
  {
    RunGroupsOk(rows);
    if AllParse(rows) {
      RunGroupsKeys(rows);
      forall i | 0 <= i < |rows| && LastWithKey(rows, i)
        ensures RunGroupsOf(rows).value[KeyAt(rows, i)] == rows[i].runGroupId
      {
        RunGroupsLast(rows, i);
      }
    }
  }

  function NatStrings(xs: seq<nat>): (r: seq<string>)
    ensures |r| == |xs| && forall i :: 0 <= i < |xs| ==> r[i] == NatToString(xs[i])
  {
    seq(|xs|, i requires 0 <= i < |xs| => NatToString(xs[i]))
  }

  lemma {:induction false} ParseAllNats(xs: seq<nat>)
    ensures ParseAll(NatStrings(xs)) == Ok(xs)
  {
    if |xs| > 0 {
      ParseNat(xs[0]);
      ParseAllNats(xs[1..]);
      assert NatStrings(xs)[1..] == NatStrings(xs[1..]);
      assert [xs[0]] + xs[1..] == xs;
    }
  }

  /** A `group_concat` of run ids reads back as the set of those ids. */
  lemma GroupKeyRoundTrip(xs: seq<nat>)
    requires |xs| > 0
    ensures GroupKey(Join(",", NatStrings(xs))).Ok?
    ensures forall k :: k in GroupKey(Join(",", NatStrings(xs))).value <==> exists i :: 0 <= i < |xs| && xs[i] == k
  {
    var parts := NatStrings(xs);
    forall k | 0 <= k < |parts|
      ensures ',' !in parts[k]
    {
      DigitsOfNat(xs[k]);
    }
    SplitJoin(',', parts);
    ParseAllNats(xs);
  }
}
