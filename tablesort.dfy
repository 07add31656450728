/** The greedy choice of covering tables in DB_SQLite.get_tables:
    sort_tables orders the candidate tables by how many requested column
    occurrences they hold, and filter_tables keeps, in that order, each
    table that supplies a column not yet covered. */
module TableSort {
  import opened Common

  /** An entry of `tmp_tables`: a table and the requested columns it holds,
      one per occurrence in the request. */
  type Entry = (string, seq<string>)

  function Count(e: Entry): nat
  {
    |e.1|
  }

  /** `table_name.endswith('_iso')` */
  predicate IsIso(e: Entry)
  {
    |e.0| >= 4 && e.0[|e.0| - 4..] == "_iso"
  }

  function Names(s: seq<Entry>): seq<string>
  {
    seq(|s|, i requires 0 <= i < |s| => s[i].0)
  }

  predicate DistinctNames(s: seq<Entry>)
  {
    forall i, j :: 0 <= i < j < |s| ==> s[i].0 != s[j].0
  }

  // -----------------------------------------------------------------------
  // sort_tables

  /** The entries with `k` column occurrences, in input order. */
  function Group(s: seq<Entry>, k: nat): seq<Entry>
  {
    if |s| == 0 then []
    else Group(s[..|s| - 1], k) + (if Count(s[|s| - 1]) == k then [s[|s| - 1]] else [])
  }

  /** The rearrangement of one group: an `_iso` table is appended, any
      other table is put in front. */
  function Arrange(g: seq<Entry>): seq<Entry>
  {
    if |g| == 0 then []
    else
      var prev := Arrange(g[..|g| - 1]);
      var t := g[|g| - 1];
      if IsIso(t) then prev + [t] else [t] + prev
  }

  function MaxCount(s: seq<Entry>): nat
  {
    if |s| == 0 then 0
    else
      var m := MaxCount(s[..|s| - 1]);
      if Count(s[|s| - 1]) > m then Count(s[|s| - 1]) else m
  }

  /** The arranged groups for the counts `top - 1, ..., k`, highest first. */
  function Layers(s: seq<Entry>, top: nat, k: nat): seq<Entry>
    decreases top - k
  {
    if k >= top then [] else Layers(s, top, k + 1) + Arrange(Group(s, k))
  }

  /** What sort_tables returns. */
  function SortedTables(s: seq<Entry>): seq<Entry>
  {
    Layers(s, MaxCount(s) + 1, 0)
  }

  lemma GroupSnoc(s: seq<Entry>, e: Entry)
    ensures forall k :: Group(s + [e], k) == Group(s, k) + (if Count(e) == k then [e] else [])
    ensures MaxCount(s + [e]) == if Count(e) > MaxCount(s) then Count(e) else MaxCount(s)
  {
    assert (s + [e])[..|s|] == s;
  }

  /** What the first loop of sort_tables has built from the entries
      `done`: each count's group, the counts in first-seen order, and the
      largest count. */
  ghost predicate GroupsOk(groups: map<nat, seq<Entry>>, keys: seq<nat>, maxKey: nat, done: seq<Entry>)
  {
    && (forall k :: k in groups <==> k in keys)
    && NoDuplicates(keys)
    && (forall k :: k in groups ==> groups[k] == Group(done, k))
    && (forall k :: k !in groups ==> Group(done, k) == [])
    && maxKey == MaxCount(done)
  }

  /** One round of the first loop of sort_tables. */
  method AddEntry(groups: map<nat, seq<Entry>>, keys: seq<nat>, maxKey: nat, e: Entry, ghost done: seq<Entry>)
    returns (groups': map<nat, seq<Entry>>, keys': seq<nat>, maxKey': nat)
    requires GroupsOk(groups, keys, maxKey, done)
    ensures GroupsOk(groups', keys', maxKey', done + [e])
  {
    GroupSnoc(done, e);
    groups', keys' := groups, keys;
    if Count(e) !in groups {
      NoDuplicatesSnoc(keys, Count(e));
      groups' := groups'[Count(e) := []];
      keys' := keys' + [Count(e)];
    }
    groups' := groups'[Count(e) := groups'[Count(e)] + [e]];
    forall k | k in groups' ensures groups'[k] == Group(done + [e], k) {
      if k != Count(e) {
        assert groups'[k] == groups[k];
      }
    }
    maxKey' := if Count(e) > maxKey then Count(e) else maxKey;
  }

  /** The first loop of sort_tables: the entries grouped by count, the
      counts in first-seen order, and the largest count. */
  method GroupByCount(tmp: seq<Entry>) returns (groups: map<nat, seq<Entry>>, keys: seq<nat>, maxKey: nat)
    ensures forall k :: k in groups <==> k in keys
    ensures NoDuplicates(keys)
    ensures forall k :: k in groups ==> groups[k] == Group(tmp, k)
    ensures forall k :: k !in groups ==> Group(tmp, k) == []
    ensures maxKey == MaxCount(tmp)
  {
    groups := map[];
    keys := [];
    maxKey := 0;
    var i := 0;
    while i < |tmp|
      invariant 0 <= i <= |tmp|
      invariant GroupsOk(groups, keys, maxKey, tmp[..i])
    {
      assert tmp[..i + 1] == tmp[..i] + [tmp[i]];
      groups, keys, maxKey := AddEntry(groups, keys, maxKey, tmp[i], tmp[..i]);
      i := i + 1;
    }
    assert tmp[..|tmp|] == tmp;
  }

  /** The inner loop of sort_tables over one group. */
  method ArrangeGroup(g: seq<Entry>) returns (newTables: seq<Entry>)
    ensures newTables == Arrange(g)
  {
    newTables := [];
    var j := 0;
    while j < |g|
      invariant 0 <= j <= |g|
      invariant newTables == Arrange(g[..j])
    {
      assert g[..j + 1][..j] == g[..j];
      if IsIso(g[j]) {
        newTables := newTables + [g[j]];
      } else {
        newTables := [g[j]] + newTables;
      }
      j := j + 1;
    }
    assert g[..|g|] == g;
  }

  /** The second loop of sort_tables: every group of two or more entries is
      rearranged (one entry is left as it is, which is the same). */
  method ArrangeGroups(groups: map<nat, seq<Entry>>, keys: seq<nat>, ghost tmp: seq<Entry>)
    returns (arranged: map<nat, seq<Entry>>)
    requires forall k :: k in groups <==> k in keys
    requires NoDuplicates(keys)
    requires forall k :: k in groups ==> groups[k] == Group(tmp, k)
    ensures forall k :: k in arranged <==> k in groups
    ensures forall k :: k in arranged ==> arranged[k] == Arrange(Group(tmp, k))
  {
    arranged := groups;
    var idx := 0;
    while idx < |keys|
      invariant 0 <= idx <= |keys|
      invariant arranged.Keys == groups.Keys
      invariant forall j :: 0 <= j < idx ==> arranged[keys[j]] == Arrange(Group(tmp, keys[j]))
      invariant forall j :: idx <= j < |keys| ==> arranged[keys[j]] == Group(tmp, keys[j])
    {
      var k := keys[idx];
      var g := arranged[k];
      if |g| == 1 {
        assert g == [g[0]] && g[..0] == [];
        assert Arrange(g) == g;
        idx := idx + 1;
        continue;
      }
      var newTables := ArrangeGroup(g);
      arranged := arranged[k := newTables];
      idx := idx + 1;
    }
    forall k | k in arranged
      ensures arranged[k] == Arrange(Group(tmp, k))
    {
      var j :| 0 <= j < |keys| && keys[j] == k;
    }
  }

  /** The last step of sort_tables: the arranged groups concatenated by
      decreasing count. */
  method ConcatLayers(arranged: map<nat, seq<Entry>>, maxKey: nat, ghost tmp: seq<Entry>)
    returns (tables: seq<Entry>)
    requires forall k :: k in arranged ==> arranged[k] == Arrange(Group(tmp, k))
    requires forall k :: k !in arranged ==> Group(tmp, k) == []
    ensures tables == Layers(tmp, maxKey + 1, 0)
  {
    // `sorted(..., reverse=True)` over the distinct counts: visiting every
    // count from the largest down to 0 meets them in the same order.
    tables := [];
    var k: int := maxKey;
    while k >= 0
      invariant -1 <= k <= maxKey
      invariant tables == Layers(tmp, maxKey + 1, k + 1)
    {
      var layer := Arrange(Group(tmp, k));
      if k in arranged {
        tables := tables + arranged[k];
      } else {
        assert layer == [];
        assert tables + layer == tables;
      }
      assert tables == Layers(tmp, maxKey + 1, k);
      k := k - 1;
    }
  }

  /** sort_tables: group the entries by count (in first-seen order of the
      counts), rearrange every group of two or more, and concatenate the
      groups by decreasing count. */
  method SortTables(tmp: seq<Entry>) returns (tables: seq<Entry>)
    ensures tables == SortedTables(tmp)
  {
    var groups, keys, maxKey := GroupByCount(tmp);
    var arranged := ArrangeGroups(groups, keys, tmp);
    tables := ConcatLayers(arranged, maxKey, tmp);
  }

  // Properties of the order.

  lemma {:induction false} ArrangePermutes(g: seq<Entry>)
    ensures multiset(Arrange(g)) == multiset(g)
  {
    if |g| > 0 {
      ArrangePermutes(g[..|g| - 1]);
      assert g == g[..|g| - 1] + [g[|g| - 1]];
    }
  }

  lemma {:induction false} ArrangeIsoLast(g: seq<Entry>)
    ensures forall i, j :: 0 <= i < j < |Arrange(g)| && IsIso(Arrange(g)[i]) ==> IsIso(Arrange(g)[j])
  {
    if |g| > 0 {
      ArrangeIsoLast(g[..|g| - 1]);
      var prev := Arrange(g[..|g| - 1]);
      var t := g[|g| - 1];
      if !IsIso(t) {
        var r := [t] + prev;
        forall i, j | 0 <= i < j < |r| && IsIso(r[i])
          ensures IsIso(r[j])
        {
          assert i > 0 && r[i] == prev[i - 1] && r[j] == prev[j - 1];
        }
      }
    }
  }

  lemma {:induction false} GroupCounts(s: seq<Entry>, k: nat)
    ensures forall e :: e in Group(s, k) ==> Count(e) == k && e in s
  {
    if |s| > 0 {
      GroupCounts(s[..|s| - 1], k);
    }
  }

  lemma ArrangedGroupCounts(s: seq<Entry>, k: nat)
    ensures forall e :: e in Arrange(Group(s, k)) ==> Count(e) == k
  {
    GroupCounts(s, k);
    ArrangePermutes(Group(s, k));
    forall e | e in Arrange(Group(s, k)) ensures Count(e) == k {
      assert e in multiset(Arrange(Group(s, k)));
    }
  }

  lemma {:induction false} LayersCounts(s: seq<Entry>, top: nat, k: nat)
    ensures forall e :: e in Layers(s, top, k) ==> k <= Count(e) < top
    decreases top - k
  {
    if k < top {
      LayersCounts(s, top, k + 1);
      ArrangedGroupCounts(s, k);
    }
  }

  /** Entries whose count lies in `[k, top)`, in input order. */
  function CountsIn(s: seq<Entry>, k: nat, top: nat): seq<Entry>
  {
    if |s| == 0 then []
    else CountsIn(s[..|s| - 1], k, top) + (if k <= Count(s[|s| - 1]) < top then [s[|s| - 1]] else [])
  }

  lemma {:induction false} CountsInSplit(s: seq<Entry>, k: nat, top: nat)
    requires k < top
    ensures multiset(CountsIn(s, k, top)) == multiset(CountsIn(s, k + 1, top)) + multiset(Group(s, k))
  {
    if |s| > 0 {
      CountsInSplit(s[..|s| - 1], k, top);
    }
  }

  lemma {:induction false} CountsInEmpty(s: seq<Entry>, k: nat, top: nat)
    requires k >= top
    ensures CountsIn(s, k, top) == []
  {
    if |s| > 0 { CountsInEmpty(s[..|s| - 1], k, top); }
  }

  lemma {:induction false} LayersPermutes(s: seq<Entry>, top: nat, k: nat)
    ensures multiset(Layers(s, top, k)) == multiset(CountsIn(s, k, top))
    decreases top - k
  {
    if k < top {
      LayersPermutes(s, top, k + 1);
      ArrangePermutes(Group(s, k));
      CountsInSplit(s, k, top);
    } else {
      CountsInEmpty(s, k, top);
    }
  }

  lemma {:induction false} MaxCountBounds(s: seq<Entry>)
    ensures forall i :: 0 <= i < |s| ==> Count(s[i]) <= MaxCount(s)
  {
    if |s| > 0 {
      MaxCountBounds(s[..|s| - 1]);
      assert forall i :: 0 <= i < |s| - 1 ==> s[i] == s[..|s| - 1][i];
    }
  }

  lemma {:induction false} CountsInAll(s: seq<Entry>, top: nat)
    requires forall i :: 0 <= i < |s| ==> Count(s[i]) < top
    ensures CountsIn(s, 0, top) == s
  {
    if |s| > 0 {
      var p := s[..|s| - 1];
      assert forall i :: 0 <= i < |p| ==> p[i] == s[i];
      CountsInAll(p, top);
      assert s == p + [s[|s| - 1]];
    }
  }

  /** sort_tables returns a permutation of its input. */
  lemma SortedTablesPermutes(s: seq<Entry>)
    ensures multiset(SortedTables(s)) == multiset(s)
  {
    LayersPermutes(s, MaxCount(s) + 1, 0);
    MaxCountBounds(s);
    CountsInAll(s, MaxCount(s) + 1);
  }

  predicate OrderedTables(r: seq<Entry>)
  {
    forall i, j :: 0 <= i < j < |r| ==>
      Count(r[i]) >= Count(r[j]) && (Count(r[i]) == Count(r[j]) && IsIso(r[i]) ==> IsIso(r[j]))
  }

  lemma {:induction false} LayersOrdered(s: seq<Entry>, top: nat, k: nat)
    ensures OrderedTables(Layers(s, top, k))
    decreases top - k
  {
    if k < top {
      var hi := Layers(s, top, k + 1);
      var a := Arrange(Group(s, k));
      var r := hi + a;
      LayersOrdered(s, top, k + 1);
      LayersCounts(s, top, k + 1);
      ArrangedGroupCounts(s, k);
      ArrangeIsoLast(Group(s, k));
      forall i, j | 0 <= i < j < |r|
        ensures Count(r[i]) >= Count(r[j]) && (Count(r[i]) == Count(r[j]) && IsIso(r[i]) ==> IsIso(r[j]))
      {
        if j < |hi| {
          assert r[i] == hi[i] && r[j] == hi[j];
        } else if i >= |hi| {
          assert r[i] == a[i - |hi|] && r[j] == a[j - |hi|];
        } else {
          assert r[i] == hi[i] && r[j] == a[j - |hi|];
          assert Count(r[i]) >= k + 1 && Count(r[j]) == k;
        }
      }
    }
  }

  /** sort_tables orders entries by count, descending, and within one count
      puts every non-`_iso` table before every `_iso` table. */
  lemma SortedTablesOrdered(s: seq<Entry>)
    ensures OrderedTables(SortedTables(s))
  {
    LayersOrdered(s, MaxCount(s) + 1, 0);
  }

  lemma {:induction false} DistinctCount(s: seq<Entry>, x: Entry)
    requires DistinctNames(s)
    ensures multiset(s)[x] <= 1
  {
    if |s| > 0 {
      var p := s[..|s| - 1];
      assert forall i :: 0 <= i < |p| ==> p[i] == s[i];
      DistinctCount(p, x);
      assert s == p + [s[|s| - 1]];
      if x == s[|s| - 1] {
        assert x !in p;
      }
    }
  }

  lemma RepeatCount(s: seq<Entry>, i: nat, j: nat)
    requires i < j < |s| && s[i] == s[j]
    ensures multiset(s)[s[i]] >= 2
  {
    assert s == s[..j] + [s[j]] + s[j + 1..];
    assert s[i] in s[..j];
  }

  /** A permutation of entries with distinct names has distinct names. */
  lemma PermutationKeepsDistinct(a: seq<Entry>, b: seq<Entry>)
    requires DistinctNames(a) && multiset(a) == multiset(b)
    ensures DistinctNames(b)
  {
    forall i, j | 0 <= i < j < |b|
      ensures b[i].0 != b[j].0
    {
      if b[i] == b[j] {
        RepeatCount(b, i, j);
        DistinctCount(a, b[i]);
      } else {
        assert b[i] in multiset(a) && b[j] in multiset(a);
        var p :| 0 <= p < |a| && a[p] == b[i];
        var q :| 0 <= q < |a| && a[q] == b[j];
      }
    }
  }

  // -----------------------------------------------------------------------
  // filter_tables

  function Elems<T>(s: seq<T>): set<T>
  {
    set x | x in s
  }

  /** filter_tables. The result list of the source is shared across the
      recursion and appended in place; here it is the accumulator `tnames`.
      Running out of tables with columns still uncovered is the IndexError
      of `tlist[0]`. */
  function FilterTables(query: set<string>, tlist: seq<Entry>, tnames: seq<string>, covered: set<string>): Result<seq<string>>
    decreases |tlist|
  {
    var q := query - covered;
    if q == {} then Ok(tnames)
    else if |tlist| == 0 then Err("list index out of range")
    else
      var add := Elems(tlist[0].1) * q;
      if add != {} then FilterTables(q, tlist[1..], tnames + [tlist[0].0], covered + add)
      else FilterTables(q, tlist[1..], tnames, covered)
  }

  function Shift(ix: seq<nat>): seq<nat>
  {
    seq(|ix|, k requires 0 <= k < |ix| => ix[k] + 1)
  }

  /** The positions in `tlist` of the tables filter_tables keeps. */
  function Chosen(query: set<string>, tlist: seq<Entry>, covered: set<string>): Option<seq<nat>>
    decreases |tlist|
  {
    var q := query - covered;
    if q == {} then Some([])
    else if |tlist| == 0 then None
    else
      var add := Elems(tlist[0].1) * q;
      if add != {} then
        match Chosen(q, tlist[1..], covered + add)
        case None => None
        case Some(ix) => Some([0] + Shift(ix))
      else
        match Chosen(q, tlist[1..], covered)
        case None => None
        case Some(ix) => Some(Shift(ix))
  }

  function NamesAt(tlist: seq<Entry>, ix: seq<nat>): seq<string>
    requires forall k :: 0 <= k < |ix| ==> ix[k] < |tlist|
  {
    seq(|ix|, k requires 0 <= k < |ix| => tlist[ix[k]].0)
  }

  predicate ValidPositions(ix: seq<nat>, n: nat)
  {
    (forall k :: 0 <= k < |ix| ==> ix[k] < n) && (forall k, m :: 0 <= k < m < |ix| ==> ix[k] < ix[m])
  }

  lemma ShiftValid(ix: seq<nat>, n: nat)
    requires ValidPositions(ix, n)
    ensures ValidPositions(Shift(ix), n + 1) && ValidPositions([0] + Shift(ix), n + 1)
  {
    var r := [0] + Shift(ix);
    assert forall k :: 0 < k < |r| ==> r[k] == ix[k - 1] + 1;
  }

  lemma {:induction false} ChosenMatchesFilter(query: set<string>, tlist: seq<Entry>, tnames: seq<string>, covered: set<string>)
    ensures Chosen(query, tlist, covered).None? <==> FilterTables(query, tlist, tnames, covered).Err?
    ensures Chosen(query, tlist, covered).Some? ==>
      ValidPositions(Chosen(query, tlist, covered).value, |tlist|)
      && FilterTables(query, tlist, tnames, covered) == Ok(tnames + NamesAt(tlist, Chosen(query, tlist, covered).value))
    decreases |tlist|
  {
    var q := query - covered;
    if q != {} && |tlist| > 0 {
      var add := Elems(tlist[0].1) * q;
      if add != {} {
        var tn' := tnames + [tlist[0].0];
        ChosenMatchesFilter(q, tlist[1..], tn', covered + add);
        var rest := Chosen(q, tlist[1..], covered + add);
        if rest.Some? {
          var ix := [0] + Shift(rest.value);
          ShiftValid(rest.value, |tlist| - 1);
          assert Chosen(query, tlist, covered) == Some(ix);
          assert NamesAt(tlist, ix) == [tlist[0].0] + NamesAt(tlist[1..], rest.value);
          assert tn' + NamesAt(tlist[1..], rest.value) == tnames + NamesAt(tlist, ix);
        }
      } else {
        ChosenMatchesFilter(q, tlist[1..], tnames, covered);
        var rest := Chosen(q, tlist[1..], covered);
        if rest.Some? {
          ShiftValid(rest.value, |tlist| - 1);
          assert Chosen(query, tlist, covered) == Some(Shift(rest.value));
          assert NamesAt(tlist, Shift(rest.value)) == NamesAt(tlist[1..], rest.value);
        }
      }
    } else if q == {} {
      assert tnames + NamesAt(tlist, []) == tnames;
    }
  }

  /** Every requested column not yet covered lies in a kept table. */
  lemma {:induction false} ChosenCovers(query: set<string>, tlist: seq<Entry>, covered: set<string>, ix: seq<nat>, c: string)
    requires Chosen(query, tlist, covered) == Some(ix)
    requires c in query && c !in covered
    ensures exists k :: 0 <= k < |ix| && ix[k] < |tlist| && c in tlist[ix[k]].1
    decreases |tlist|
  {
    var q := query - covered;
    assert c in q;
    var add := Elems(tlist[0].1) * q;
    if c in add {
      assert ix[0] == 0 && c in tlist[0].1;
    } else if add != {} {
      var ix' := Chosen(q, tlist[1..], covered + add).value;
      assert ix == [0] + Shift(ix');
      ChosenCovers(q, tlist[1..], covered + add, ix', c);
      var k' :| 0 <= k' < |ix'| && ix'[k'] < |tlist[1..]| && c in tlist[1..][ix'[k']].1;
      assert ix[k' + 1] == ix'[k'] + 1;
    } else {
      var ix' := Chosen(q, tlist[1..], covered).value;
      assert ix == Shift(ix');
      ChosenCovers(q, tlist[1..], covered, ix', c);
      var k' :| 0 <= k' < |ix'| && ix'[k'] < |tlist[1..]| && c in tlist[1..][ix'[k']].1;
      assert ix[k'] == ix'[k'] + 1;
    }
  }

  /** The kept table at position `k` holds a requested column that was not
      covered and that no earlier kept table holds. */
  predicate Contributes(query: set<string>, tlist: seq<Entry>, covered: set<string>, ix: seq<nat>, k: nat, c: string)
    requires ValidPositions(ix, |tlist|) && k < |ix|
  {
    c in query && c !in covered && c in tlist[ix[k]].1
    && forall m :: 0 <= m < k ==> c !in tlist[ix[m]].1
  }

  ghost predicate SuppliesNewColumn(query: set<string>, tlist: seq<Entry>, covered: set<string>, ix: seq<nat>, k: nat)
    requires ValidPositions(ix, |tlist|) && k < |ix|
  {
    exists c :: Contributes(query, tlist, covered, ix, k, c)
  }

  lemma {:induction false} ChosenContributes(query: set<string>, tlist: seq<Entry>, covered: set<string>, ix: seq<nat>, k: nat)
    requires Chosen(query, tlist, covered) == Some(ix)
    requires k < |ix|
    ensures ValidPositions(ix, |tlist|)
    ensures SuppliesNewColumn(query, tlist, covered, ix, k)
    decreases |tlist|
  {
    ChosenMatchesFilter(query, tlist, [], covered);
    var q := query - covered;
    var add := Elems(tlist[0].1) * q;
    var cov' := if add != {} then covered + add else covered;
    var ix' := Chosen(q, tlist[1..], cov').value;
    ChosenMatchesFilter(q, tlist[1..], [], cov');
    if add != {} && k == 0 {
      var c :| c in add;
      assert Contributes(query, tlist, covered, ix, 0, c);
    } else {
      var k' := if add != {} then k - 1 else k;
      if add != {} {
        assert ix == [0] + Shift(ix');
      } else {
        assert ix == Shift(ix');
      }
      assert ix[k] == ix'[k'] + 1;
      ChosenContributes(q, tlist[1..], cov', ix', k');
      var c :| Contributes(q, tlist[1..], cov', ix', k', c);
      forall m | 0 <= m < k ensures c !in tlist[ix[m]].1 {
        if add != {} && m == 0 {
          assert c !in add;
        } else {
          var m' := if add != {} then m - 1 else m;
          assert ix[m] == ix'[m'] + 1;
          assert tlist[ix[m]] == tlist[1..][ix'[m']];
        }
      }
      assert Contributes(query, tlist, covered, ix, k, c);
    }
  }

  /** filter_tables keeps the candidates' order, covers every requested
      column, and each kept table supplies a column no earlier kept table
      holds. */
  lemma FilterTablesSpec(query: set<string>, tlist: seq<Entry>, ix: seq<nat>)
    requires Chosen(query, tlist, {}) == Some(ix)
    ensures ValidPositions(ix, |tlist|)
    ensures FilterTables(query, tlist, [], {}) == Ok(NamesAt(tlist, ix))
    ensures forall c :: c in query ==> exists k :: 0 <= k < |ix| && ix[k] < |tlist| && c in tlist[ix[k]].1
    ensures forall k :: 0 <= k < |ix| ==> SuppliesNewColumn(query, tlist, {}, ix, k)
  {
    ChosenMatchesFilter(query, tlist, [], {});
    assert [] + NamesAt(tlist, ix) == NamesAt(tlist, ix);
    forall c | c in query
      ensures exists k :: 0 <= k < |ix| && ix[k] < |tlist| && c in tlist[ix[k]].1
    {
      ChosenCovers(query, tlist, {}, ix, c);
    }
    forall k | 0 <= k < |ix|
      ensures SuppliesNewColumn(query, tlist, {}, ix, k)
    {
      ChosenContributes(query, tlist, {}, ix, k);
    }
  }

  function AllColumns(tlist: seq<Entry>): set<string>
  {
    if |tlist| == 0 then {} else Elems(tlist[0].1) + AllColumns(tlist[1..])
  }

  /** When the tables hold every requested column, filter_tables succeeds. */
  lemma {:induction false} FilterTablesSucceeds(query: set<string>, tlist: seq<Entry>, tnames: seq<string>, covered: set<string>)
    requires query - covered <= AllColumns(tlist)
    ensures FilterTables(query, tlist, tnames, covered).Ok?
    decreases |tlist|
  {
    var q := query - covered;
    if q != {} && |tlist| > 0 {
      var add := Elems(tlist[0].1) * q;
      var tn' := if add != {} then tnames + [tlist[0].0] else tnames;
      var cov' := if add != {} then covered + add else covered;
      forall c | c in q - cov' ensures c in AllColumns(tlist[1..]) {
        assert c in q && c !in add;
      }
      FilterTablesSucceeds(q, tlist[1..], tn', cov');
    }
  }

  /** What filter_tables keeps are distinct tables when the candidates are. */
  lemma ChosenDistinct(tlist: seq<Entry>, ix: seq<nat>)
    requires DistinctNames(tlist) && ValidPositions(ix, |tlist|)
    ensures NoDuplicates(NamesAt(tlist, ix))
  {
  }
}
