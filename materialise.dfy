/** How DB_SQLite (src/mpradb/database/db_to_sqlite.py) reshapes fetched
    rows: `to_list`, `to_dict` and the fill loop of `to_numpy`. The rows are
    given; nothing here talks to SQLite. */
module Materialise {
  import opened Common

  /** A value SQLite hands back. */
  datatype Cell = IntCell(i: int) | TextCell(s: string) | RealCell(text: string) | NullCell

  // -----------------------------------------------------------------------
  // to_list

  datatype Listed = Flat(cells: seq<Cell>) | Tuples(rows: seq<seq<Cell>>)

  /** `[s for e in q for s in e]` */
  function Concat(q: seq<seq<Cell>>): seq<Cell>
  {
    if |q| == 0 then [] else q[0] + Concat(q[1..])
  }

  /** to_list on the fetched rows: an empty result fails (`q[0]`); when the
      first row has one value every row is flattened, otherwise the rows are
      kept as tuples. */
  function ToListRows(q: seq<seq<Cell>>): Result<Listed>
  {
    if |q| == 0 then Err(NotValid)
    else if |q[0]| == 1 then Ok(Flat(Concat(q)))
    else Ok(Tuples(q))
  }

  /** For a one-column result, to_list gives the column's values in order;
      with wider rows it gives the rows themselves. */
  lemma {:induction false} ToListShape(q: seq<seq<Cell>>)
    ensures ToListRows(q).Err? <==> |q| == 0
    ensures (forall i :: 0 <= i < |q| ==> |q[i]| == 1) && |q| > 0 ==>
      ToListRows(q).Ok? && ToListRows(q).value.Flat?
      && |ToListRows(q).value.cells| == |q|
      && forall i :: 0 <= i < |q| ==> ToListRows(q).value.cells[i] == q[i][0]
    ensures |q| > 0 && |q[0]| != 1 ==> ToListRows(q) == Ok(Tuples(q))
  {
    if |q| > 0 && forall i :: 0 <= i < |q| ==> |q[i]| == 1 {
      ConcatSingles(q);
    }
  }

  lemma {:induction false} ConcatSingles(q: seq<seq<Cell>>)
    requires forall i :: 0 <= i < |q| ==> |q[i]| == 1
    ensures |Concat(q)| == |q| && forall i :: 0 <= i < |q| ==> Concat(q)[i] == q[i][0]
  {
    if |q| > 0 {
      ConcatSingles(q[1..]);
      assert forall i :: 1 <= i < |q| ==> q[1..][i - 1] == q[i];
    }
  }

  // -----------------------------------------------------------------------
  // to_dict

  /** `k[0] if len(k) == 1 else k` */
  datatype Item = One(c: Cell) | Many(cs: seq<Cell>)

  function Unwrap(cs: seq<Cell>): (r: Item)
    ensures |cs| == 1 <==> r.One?
    ensures r.One? ==> r.c == cs[0]
    ensures r.Many? ==> r.cs == cs
  {
    if |cs| == 1 then One(cs[0]) else Many(cs)
  }

  /** A dictionary value: the row's value, or with `group_by_key` the list
      of values. */
  datatype Slot = Single(v: Item) | Grouped(vs: seq<Item>)

  /** A Python dictionary in insertion order. */
  type Dict = seq<(Item, Slot)>

  function Keys(d: Dict): seq<Item>
  {
    seq(|d|, i requires 0 <= i < |d| => d[i].0)
  }

  /** `select_columns.index(k)`; None is the ValueError. */
  function IndexOf<T(==)>(s: seq<T>, k: T): (r: Option<nat>)
    ensures r.Some? ==> r.value < |s| && s[r.value] == k && k !in s[..r.value]
    ensures r.None? <==> k !in s
  {
    if |s| == 0 then None
    else if s[0] == k then Some(0)
    else match IndexOf(s[1..], k)
      case None => None
      case Some(i) =>
        assert s[..i + 1] == [s[0]] + s[1..][..i];
        Some(i + 1)
  }

  predicate SortedNats(s: seq<nat>)
  {
    forall i, j :: 0 <= i < j < |s| ==> s[i] <= s[j]
  }

  function InsertNat(s: seq<nat>, x: nat): (r: seq<nat>)
    ensures multiset(r) == multiset(s) + multiset{x}
  {
    if |s| == 0 then [x]
    else if x <= s[0] then [x] + s
    else
      assert s == [s[0]] + s[1..];
      [s[0]] + InsertNat(s[1..], x)
  }

  lemma {:induction false} InsertNatSorted(s: seq<nat>, x: nat)
    requires SortedNats(s)
    ensures SortedNats(InsertNat(s, x))
  {
    if |s| > 0 && x > s[0] {
      InsertNatSorted(s[1..], x);
      var rest := InsertNat(s[1..], x);
      forall i | 0 <= i < |rest| ensures s[0] <= rest[i] {
        assert rest[i] in multiset(rest);
        if rest[i] != x {
          assert rest[i] in multiset(s[1..]);
          var j :| 0 <= j < |s[1..]| && s[1..][j] == rest[i];
          assert s[j + 1] == rest[i];
        }
      }
    }
  }

  /** `sorted(s)` */
  function SortNats(s: seq<nat>): (r: seq<nat>)
    ensures multiset(r) == multiset(s)
  {
    if |s| == 0 then []
    else
      assert s == s[..|s| - 1] + [s[|s| - 1]];
      InsertNat(SortNats(s[..|s| - 1]), s[|s| - 1])
  }

  lemma {:induction false} SortNatsSorted(s: seq<nat>)
    ensures SortedNats(SortNats(s))
  {
    if |s| > 0 {
      SortNatsSorted(s[..|s| - 1]);
      InsertNatSorted(SortNats(s[..|s| - 1]), s[|s| - 1]);
    }
  }

  /** The key positions to_dict pops: the sorted positions of the key
      columns, or the first column; a key column not selected is a
      ValueError. */
  /** Where each key column sits in the selected columns. */
  function KeyPositions(selectColumns: seq<string>, key: seq<string>): (r: seq<nat>)
    requires forall k :: k in key ==> k in selectColumns
    ensures |r| == |key|
    ensures forall i :: 0 <= i < |r| ==> r[i] < |selectColumns| && selectColumns[r[i]] == key[i]
  {
    seq(|key|, i requires 0 <= i < |key| => IndexOf(selectColumns, key[i]).value)
  }

  function KeyIndices(selectColumns: seq<string>, key: seq<string>): (r: Result<seq<nat>>)
    ensures r.Err? <==> exists k :: k in key && k !in selectColumns
    ensures r.Ok? ==> |r.value| == |key| && SortedNats(r.value)
    ensures r.Ok? ==> forall j :: 0 <= j < |r.value| ==> r.value[j] < |selectColumns|
  {
    if exists k :: k in key && k !in selectColumns then Err("is not in list")
    else
      var pos := KeyPositions(selectColumns, key);
      var r := SortNats(pos);
      SortNatsSorted(pos);
      assert |r| == |multiset(r)| == |multiset(pos)| == |pos|;
      forall j | 0 <= j < |r| ensures r[j] < |selectColumns| {
        assert r[j] in multiset(pos);
      }
      Ok(r)
  }

  /** `x.pop(j)` with Python's reading of a negative index. */
  function Pop(x: seq<Cell>, j: int): (r: Result<(Cell, seq<Cell>)>)
    ensures r.Ok? ==> |r.value.1| == |x| - 1
  {
    match PyIndex(j, |x|)
    case None => Err("pop index out of range")
    case Some(p) => Ok((x[p], x[..p] + x[p + 1..]))
  }

  /** `tuple(x.pop(k - i) for i, k in enumerate(key_idx))`: the popped
      values and what is left of the row. */
  function PopKeys(x: seq<Cell>, idx: seq<nat>, i: nat): Result<(seq<Cell>, seq<Cell>)>
    decreases |idx|
  {
    if |idx| == 0 then Ok(([], x))
    else match Pop(x, idx[0] - i)
      case Err(m) => Err(m)
      case Ok((c, rest)) =>
        match PopKeys(rest, idx[1..], i + 1)
        case Err(m) => Err(m)
        case Ok((ks, left)) => Ok(([c] + ks, left))
  }

  /** Popping at strictly increasing positions, each shifted by the number
      of values already popped, takes exactly the values at those positions
      of the original row. */
  lemma {:induction false} PopIncreasing(x: seq<Cell>, idx: seq<nat>, i: nat)
    requires StrictlyIncreasing(idx)
    requires forall j :: 0 <= j < |idx| ==> i <= idx[j] < |x| + i
    ensures PopKeys(x, idx, i).Ok?
    ensures |PopKeys(x, idx, i).value.0| == |idx|
    ensures |PopKeys(x, idx, i).value.1| + |idx| == |x|
    ensures forall j :: 0 <= j < |idx| ==> PopKeys(x, idx, i).value.0[j] == x[idx[j] - i]
    decreases |idx|
  {
    if |idx| > 0 {
      var p := idx[0] - i;
      var rest := x[..p] + x[p + 1..];
      assert Pop(x, idx[0] - i) == Ok((x[p], rest));
      forall j | 0 <= j < |idx[1..]| ensures i + 1 <= idx[1..][j] < |rest| + i + 1 {
        assert idx[1..][j] == idx[j + 1] > idx[0];
      }
      PopIncreasing(rest, idx[1..], i + 1);
      var (ks, left) := PopKeys(rest, idx[1..], i + 1).value;
      forall j | 1 <= j < |idx| ensures ks[j - 1] == x[idx[j] - i] {
        assert idx[1..][j - 1] == idx[j] > idx[0];
        assert rest[idx[j] - i - 1] == x[idx[j] - i];
      }
    }
  }

  lemma {:induction false} InsertNatDistinct(s: seq<nat>, x: nat)
    requires NoDuplicates(s) && x !in s
    ensures NoDuplicates(InsertNat(s, x))
  {
    if |s| > 0 && x > s[0] {
      InsertNatDistinct(s[1..], x);
      var rest := InsertNat(s[1..], x);
      assert s[0] !in s[1..];
      assert s[0] !in multiset(rest);
      NoDuplicatesCons(s[0], rest);
    } else if |s| > 0 {
      NoDuplicatesCons(x, s);
    }
  }

  lemma NoDuplicatesCons<T>(x: T, s: seq<T>)
    requires NoDuplicates(s) && x !in s
    ensures NoDuplicates([x] + s)
  {
    var t := [x] + s;
    forall i, j | 0 <= i < j < |t| ensures t[i] != t[j] {
      assert t[j] == s[j - 1];
      if i > 0 { assert t[i] == s[i - 1]; }
    }
  }

  lemma {:induction false} SortNatsDistinct(s: seq<nat>)
    requires NoDuplicates(s)
    ensures NoDuplicates(SortNats(s))
  {
    if |s| > 0 {
      var init := s[..|s| - 1];
      SortNatsDistinct(init);
      assert s[|s| - 1] !in init;
      assert s[|s| - 1] !in multiset(SortNats(init));
      InsertNatDistinct(SortNats(init), s[|s| - 1]);
    }
  }

  lemma KeyIndicesIncrease(selectColumns: seq<string>, key: seq<string>)
    requires NoDuplicates(key) && KeyIndices(selectColumns, key).Ok?
    ensures StrictlyIncreasing(KeyIndices(selectColumns, key).value)
    ensures forall j :: 0 <= j < |key| ==> selectColumns[KeyIndices(selectColumns, key).value[j]] in key
  {
    var pos := KeyPositions(selectColumns, key);
    var idx := KeyIndices(selectColumns, key).value;
    assert idx == SortNats(pos);
    forall a, b | 0 <= a < b < |pos| ensures pos[a] != pos[b] {
      assert selectColumns[pos[a]] == key[a] && selectColumns[pos[b]] == key[b];
    }
    SortNatsDistinct(pos);
    SortNatsSorted(pos);
    forall j | 0 <= j < |idx| ensures selectColumns[idx[j]] in key {
      assert idx[j] in multiset(pos);
      var a :| 0 <= a < |pos| && pos[a] == idx[j];
    }
  }

  /** With distinct key columns, the key positions strictly increase, and a
      full row yields as key the values of the key columns in select order. */
  lemma KeyedRow(selectColumns: seq<string>, key: seq<string>, x: seq<Cell>)
    requires NoDuplicates(key) && KeyIndices(selectColumns, key).Ok?
    requires |x| == |selectColumns|
    ensures var idx := KeyIndices(selectColumns, key).value;
      && StrictlyIncreasing(idx)
      && PopKeys(x, idx, 0).Ok?
      && |PopKeys(x, idx, 0).value.0| == |key|
      && |PopKeys(x, idx, 0).value.1| == |x| - |key|
      && forall j :: 0 <= j < |key| ==>
           selectColumns[idx[j]] in key && PopKeys(x, idx, 0).value.0[j] == x[idx[j]]
  {
    KeyIndicesIncrease(selectColumns, key);
    PopIncreasing(x, KeyIndices(selectColumns, key).value, 0);
  }

  /** The key and the value to_dict takes from one row. */
  function RowPair(x: seq<Cell>, idx: seq<nat>): Result<(Item, Item)>
  {
    match PopKeys(x, idx, 0)
    case Err(m) => Err(m)
    case Ok((ks, left)) => Ok((Unwrap(ks), Unwrap(left)))
  }

  function Find(d: Dict, k: Item): (r: Option<nat>)
    ensures r.Some? ==> r.value < |d| && d[r.value].0 == k
    ensures r.None? <==> k !in Keys(d)
  {
    if |d| == 0 then None
    else if d[0].0 == k then
      assert Keys(d)[0] == k;
      Some(0)
    else match Find(d[1..], k)
      case None =>
        assert Keys(d) == [d[0].0] + Keys(d[1..]);
        None
      case Some(i) =>
        assert Keys(d)[i + 1] == Keys(d[1..])[i];
        Some(i + 1)
  }

  const DuplicateKey := "There is duplicate keys in query. Resolve or set group_by_key = True"

  /** One row's insertion into `output_dic`. */
  function Insert(d: Dict, k: Item, v: Item, group: bool): Result<Dict>
  {
    match Find(d, k)
    case None => Ok(d + [(k, if group then Grouped([v]) else Single(v))])
    case Some(i) =>
      if group && d[i].1.Grouped? then Ok(d[i := (k, Grouped(d[i].1.vs + [v]))])
      else Err(DuplicateKey)
  }

  /** The loop of to_dict over the fetched rows. */
  function DictOf(rows: seq<seq<Cell>>, idx: seq<nat>, group: bool): Result<Dict>
  {
    if |rows| == 0 then Ok([])
    else match DictOf(rows[..|rows| - 1], idx, group)
      case Err(m) => Err(m)
      case Ok(d) =>
        match RowPair(rows[|rows| - 1], idx)
        case Err(m) => Err(m)
        case Ok((k, v)) => Insert(d, k, v, group)
  }

  /** to_dict's loop over the fetched rows. */
  method FillDict(rows: seq<seq<Cell>>, idx: seq<nat>, group: bool) returns (r: Result<Dict>)
    ensures r == DictOf(rows, idx, group)
  {
    var d: Dict := [];
    var n := 0;
    while n < |rows|
      invariant 0 <= n <= |rows|
      invariant DictOf(rows[..n], idx, group) == Ok(d)
    {
      assert rows[..n + 1][..n] == rows[..n];
      assert rows[..n + 1][n] == rows[n];
      var kv := RowPair(rows[n], idx);
      if kv.Err? {
        DictOfFailsFrom(rows, idx, group, n + 1);
        return Err(kv.msg);
      }
      var (k, v) := kv.value;
      var ins := Insert(d, k, v, group);
      if ins.Err? {
        DictOfFailsFrom(rows, idx, group, n + 1);
        return ins;
      }
      d := ins.value;
      n := n + 1;
    }
    assert rows[..|rows|] == rows;
    return Ok(d);
  }

  lemma {:induction false} DictOfFailsFrom(rows: seq<seq<Cell>>, idx: seq<nat>, group: bool, n: nat)
    requires n <= |rows| && DictOf(rows[..n], idx, group).Err?
    ensures DictOf(rows, idx, group) == DictOf(rows[..n], idx, group)
    decreases |rows| - n
  {
    if n < |rows| {
      assert rows[..n + 1][..n] == rows[..n];
      DictOfFailsFrom(rows, idx, group, n + 1);
    } else {
      assert rows[..n] == rows;
    }
  }

  // -----------------------------------------------------------------------
  // Properties of to_dict

  /** The key/value pairs of the rows, when every row yields one. */
  function Pairs(rows: seq<seq<Cell>>, idx: seq<nat>): (r: Option<seq<(Item, Item)>>)
    ensures r.Some? ==> |r.value| == |rows|
  {
    if |rows| == 0 then Some([])
    else match Pairs(rows[..|rows| - 1], idx)
      case None => None
      case Some(ps) =>
        match RowPair(rows[|rows| - 1], idx)
        case Err(_) => None
        case Ok(kv) => Some(ps + [kv])
  }

  function PairKeys(ps: seq<(Item, Item)>): seq<Item>
  {
    seq(|ps|, i requires 0 <= i < |ps| => ps[i].0)
  }

  /** The values of the pairs with key `k`, in order. */
  function ValuesFor(ps: seq<(Item, Item)>, k: Item): seq<Item>
  {
    if |ps| == 0 then []
    else ValuesFor(ps[..|ps| - 1], k) + (if ps[|ps| - 1].0 == k then [ps[|ps| - 1].1] else [])
  }

  predicate GroupedFrom(d: Dict, ps: seq<(Item, Item)>)
  {
    && Keys(d) == Dedup(PairKeys(ps))
    && forall i :: 0 <= i < |d| ==> d[i].1 == Grouped(ValuesFor(ps, d[i].0))
  }

  lemma PairKeysSnoc(ps: seq<(Item, Item)>, kv: (Item, Item))
    ensures PairKeys(ps + [kv]) == PairKeys(ps) + [kv.0]
  {
  }

  lemma ValuesForSnoc(ps: seq<(Item, Item)>, kv: (Item, Item), u: Item)
    ensures ValuesFor(ps + [kv], u) == ValuesFor(ps, u) + (if kv.0 == u then [kv.1] else [])
  {
    assert (ps + [kv])[..|ps|] == ps;
  }

  /** One grouped insertion keeps the dictionary in step with the pairs. */
  lemma GroupStep(d: Dict, ps: seq<(Item, Item)>, k: Item, v: Item)
    requires GroupedFrom(d, ps)
    ensures Insert(d, k, v, true).Ok? && GroupedFrom(Insert(d, k, v, true).value, ps + [(k, v)])
  {
    PairKeysSnoc(ps, (k, v));
    DedupPrefix(PairKeys(ps), k);
    if Find(d, k).None? {
      GroupStepNew(d, ps, k, v);
    } else {
      GroupStepOld(d, ps, k, v, Find(d, k).value);
    }
  }

  lemma GroupStepNew(d: Dict, ps: seq<(Item, Item)>, k: Item, v: Item)
    requires GroupedFrom(d, ps) && k !in Keys(d)
    ensures GroupedFrom(d + [(k, Grouped([v]))], ps + [(k, v)])
  {
    var d' := d + [(k, Grouped([v]))];
    PairKeysSnoc(ps, (k, v));
    DedupPrefix(PairKeys(ps), k);
    KeysSnoc(d, (k, Grouped([v])));
    forall i | 0 <= i < |d'| ensures d'[i].1 == Grouped(ValuesFor(ps + [(k, v)], d'[i].0)) {
      NewSlot(d, ps, k, v, i);
    }
  }

  lemma KeysSnoc(d: Dict, e: (Item, Slot))
    ensures Keys(d + [e]) == Keys(d) + [e.0]
  {
  }

  lemma KeysUpdate(d: Dict, j: nat, e: (Item, Slot))
    requires j < |d| && d[j].0 == e.0
    ensures Keys(d[j := e]) == Keys(d)
  {
  }

  lemma NewSlot(d: Dict, ps: seq<(Item, Item)>, k: Item, v: Item, i: nat)
    requires GroupedFrom(d, ps) && k !in Keys(d) && i <= |d|
    ensures var d' := d + [(k, Grouped([v]))];
      d'[i].1 == Grouped(ValuesFor(ps + [(k, v)], d'[i].0))
  {
    var d' := d + [(k, Grouped([v]))];
    ValuesForSnoc(ps, (k, v), d'[i].0);
    if i < |d| {
      assert d'[i] == d[i];
      assert Keys(d)[i] == d[i].0;
    } else {
      PairKeysSnoc(ps, (k, v));
      NoValuesForAbsent(ps, k);
    }
  }

  lemma GroupStepOld(d: Dict, ps: seq<(Item, Item)>, k: Item, v: Item, j: nat)
    requires GroupedFrom(d, ps) && j < |d| && d[j].0 == k
    ensures GroupedFrom(d[j := (k, Grouped(d[j].1.vs + [v]))], ps + [(k, v)])
  {
    var d' := d[j := (k, Grouped(d[j].1.vs + [v]))];
    PairKeysSnoc(ps, (k, v));
    DedupPrefix(PairKeys(ps), k);
    KeysUpdate(d, j, (k, Grouped(d[j].1.vs + [v])));
    assert Keys(d)[j] == k;
    forall i | 0 <= i < |d'| ensures d'[i].1 == Grouped(ValuesFor(ps + [(k, v)], d'[i].0)) {
      OldSlot(d, ps, k, v, j, i);
    }
  }

  lemma OldSlot(d: Dict, ps: seq<(Item, Item)>, k: Item, v: Item, j: nat, i: nat)
    requires GroupedFrom(d, ps) && j < |d| && d[j].0 == k && i < |d|
    ensures var d' := d[j := (k, Grouped(d[j].1.vs + [v]))];
      d'[i].1 == Grouped(ValuesFor(ps + [(k, v)], d'[i].0))
  {
    var d' := d[j := (k, Grouped(d[j].1.vs + [v]))];
    ValuesForSnoc(ps, (k, v), d'[i].0);
    if i != j {
      assert d'[i] == d[i];
      DistinctKeysDiffer(d, ps, i, j);
    }
  }

  lemma DistinctKeysDiffer(d: Dict, ps: seq<(Item, Item)>, i: nat, j: nat)
    requires Keys(d) == Dedup(PairKeys(ps)) && i < |d| && j < |d| && i != j
    ensures d[i].0 != d[j].0
  {
    assert Keys(d)[i] == d[i].0 && Keys(d)[j] == d[j].0;
  }

  /** With `group_by_key` every row lands in the dictionary: the keys are
      the distinct row keys in first-seen order, and each key holds the
      values of its rows in fetch order. */
  lemma {:induction false} GroupedDict(rows: seq<seq<Cell>>, idx: seq<nat>, ps: seq<(Item, Item)>)
    requires Pairs(rows, idx) == Some(ps)
    ensures DictOf(rows, idx, true).Ok?
    ensures Keys(DictOf(rows, idx, true).value) == Dedup(PairKeys(ps))
    ensures forall i :: 0 <= i < |DictOf(rows, idx, true).value| ==>
      DictOf(rows, idx, true).value[i].1 == Grouped(ValuesFor(ps, DictOf(rows, idx, true).value[i].0))
  {
    if |rows| > 0 {
      var init := rows[..|rows| - 1];
      var ps0 := Pairs(init, idx).value;
      GroupedDict(init, idx, ps0);
      var d0 := DictOf(init, idx, true).value;
      assert GroupedFrom(d0, ps0);
      var (k, v) := RowPair(rows[|rows| - 1], idx).value;
      assert ps == ps0 + [(k, v)];
      GroupStep(d0, ps0, k, v);
      assert GroupedFrom(DictOf(rows, idx, true).value, ps);
    }
  }

  lemma {:induction false} NoValuesForAbsent(ps: seq<(Item, Item)>, k: Item)
    requires k !in Dedup(PairKeys(ps))
    ensures ValuesFor(ps, k) == []
  {
    if |ps| > 0 {
      var init := ps[..|ps| - 1];
      assert PairKeys(ps) == PairKeys(init) + [ps[|ps| - 1].0];
      assert PairKeys(ps)[..|PairKeys(ps)| - 1] == PairKeys(init);
      NoValuesForAbsent(init, k);
    }
  }

  /** Without `group_by_key` to_dict fails exactly on a repeated key, and
      otherwise holds each row's value under its key, in fetch order. */
  lemma {:induction false} PlainDict(rows: seq<seq<Cell>>, idx: seq<nat>, ps: seq<(Item, Item)>)
    requires Pairs(rows, idx) == Some(ps)
    ensures DictOf(rows, idx, false).Ok? <==> NoDuplicates(PairKeys(ps))
    ensures DictOf(rows, idx, false).Ok? ==>
      DictOf(rows, idx, false).value == seq(|ps|, i requires 0 <= i < |ps| => (ps[i].0, Single(ps[i].1)))
  {
    if |rows| > 0 {
      var init := rows[..|rows| - 1];
      var ps0 := Pairs(init, idx).value;
      PlainDict(init, idx, ps0);
      var (k, v) := RowPair(rows[|rows| - 1], idx).value;
      assert ps == ps0 + [(k, v)];
      PairKeysSnoc(ps0, (k, v));
      NoDuplicatesSnoc(PairKeys(ps0), k);
      if DictOf(init, idx, false).Ok? {
        var d0 := DictOf(init, idx, false).value;
        assert Keys(d0) == PairKeys(ps0);
        match Find(d0, k)
        case None =>
        case Some(j) =>
          assert d0[j].1.Single?;
      }
    }
  }

  /** Whatever the mode, the keys of the dictionary are distinct. */
  lemma {:induction false} DictKeysDistinct(rows: seq<seq<Cell>>, idx: seq<nat>, group: bool)
    requires DictOf(rows, idx, group).Ok?
    ensures NoDuplicates(Keys(DictOf(rows, idx, group).value))
  {
    if |rows| > 0 {
      var init := rows[..|rows| - 1];
      DictKeysDistinct(init, idx, group);
      var d0 := DictOf(init, idx, group).value;
      var (k, v) := RowPair(rows[|rows| - 1], idx).value;
      var d := DictOf(rows, idx, group).value;
      match Find(d0, k)
      case None =>
        assert Keys(d) == Keys(d0) + [k];
        forall i, j | 0 <= i < j < |d| ensures Keys(d)[i] != Keys(d)[j] {
          if j < |d0| {
            assert Keys(d)[i] == Keys(d0)[i] && Keys(d)[j] == Keys(d0)[j];
          } else {
            assert Keys(d)[i] == Keys(d0)[i];
          }
        }
      case Some(j) =>
        assert Keys(d) == Keys(d0);
    }
  }

  const DictShape := "Please structure query so as follows: db.select(columns = [key,value]) or provide key"

  /** The key positions of to_dict: without a key the result must have two
      columns and the first is the key; a given key (a single name is a
      one-element list) is looked up among the select columns and sorted. */
  function DictKeys(selectColumns: seq<string>, key: Option<seq<string>>): (r: Result<seq<nat>>)
    ensures key.None? ==> (r.Ok? <==> |selectColumns| == 2)
    ensures key.None? && r.Ok? ==> r.value == [0]
    ensures key.None? && r.Err? ==> r.msg == DictShape
    ensures key.Some? ==> (r.Err? <==> exists k :: k in key.value && k !in selectColumns)
    ensures r.Ok? ==> SortedNats(r.value) && forall j :: 0 <= j < |r.value| ==> r.value[j] < |selectColumns|
  {
    match key
    case None => if |selectColumns| != 2 then Err(DictShape) else Ok([0])
    case Some(k) => KeyIndices(selectColumns, k)
  }

  /** With the default key (the first column) of a two-column result, a
      row `[a, b]` is entry `a: b`. */
  lemma DefaultKeyPair(a: Cell, b: Cell)
    ensures RowPair([a, b], [0]) == Ok((One(a), One(b)))
  {
    assert [a, b][..0] + [a, b][1..] == [b];
  }

  // ---------------------------------------------------------------------
  // to_numpy: a (row id, column id, value) result filled into a matrix.

  /** `select_columns[0]` and `[1]` are read before the length check, so
      fewer than two columns raise IndexError and any other count than three
      raises the source's structuring message. */
  function NumpyShape(selectColumns: seq<string>): (r: Outcome)
    ensures r.Pass? <==> |selectColumns| == 3
  {
    if |selectColumns| < 2 then Fail("list index out of range")
    else if |selectColumns| != 3 then
      Fail("Please structure query so as follows: db.select(columns = [row_identifier, column_identifier, value])")
    else Pass
  }

  /** `get_max`: the running maximum starts at -1 and takes each table's
      `MAX` unless that is None (an empty table) or below it. */
  function GetMax(maxes: seq<Option<int>>): int
  {
    if |maxes| == 0 then -1
    else
      var m := GetMax(maxes[..|maxes| - 1]);
      var t := maxes[|maxes| - 1];
      if t.None? || m > t.value then m else t.value
  }

  /** `get_max` is never below -1, bounds every table's maximum, and is -1
      or one of them. */
  lemma {:induction false} GetMaxIsMax(maxes: seq<Option<int>>)
    ensures GetMax(maxes) >= -1
    ensures forall k :: 0 <= k < |maxes| && maxes[k].Some? ==> maxes[k].value <= GetMax(maxes)
    ensures GetMax(maxes) == -1 || exists k :: 0 <= k < |maxes| && maxes[k] == Some(GetMax(maxes))
  {
    if |maxes| > 0 {
      var init := maxes[..|maxes| - 1];
      GetMaxIsMax(init);
      assert forall k :: 0 <= k < |init| ==> init[k] == maxes[k];
      if GetMax(init) != -1 && GetMax(maxes) == GetMax(init) {
        var k :| 0 <= k < |init| && init[k] == Some(GetMax(init));
        assert maxes[k] == Some(GetMax(maxes));
      }
    }
  }

  /** One dimension of the matrix: the number of given ids, or, when all
      ids are used, one more than `get_max` over the column's tables, so
      that every stored id fits and the last index is a stored id. */
  function Dimension(ids: Option<nat>, maxes: seq<Option<int>>): (r: nat)
    ensures ids.Some? ==> r == ids.value
    ensures ids.None? ==> forall k :: 0 <= k < |maxes| && maxes[k].Some? ==> maxes[k].value < r
    ensures ids.None? && r > 0 ==> exists k :: 0 <= k < |maxes| && maxes[k] == Some(r - 1)
  {
    match ids
    case Some(n) => n
    case None => GetMaxIsMax(maxes); GetMax(maxes) + 1
  }

  const OutOfBounds := "index is out of bounds for axis"

  /** The lookups built so far and the cells written so far, in order. */
  datatype Placed = Placed(rowIds: seq<int>, colIds: seq<int>, cells: seq<(nat, nat, int)>)

  /** One axis of a row: a mapped id is numbered in first-seen order and
      written at its number; an unmapped id is written at itself. */
  function AxisIndex(seen: seq<int>, id: int, mapped: bool): (seq<int>, int)
  {
    if !mapped then (seen, id)
    else if id in seen then (seen, IndexOf(seen, id).value)
    else (seen + [id], |seen|)
  }

  /** One row of the fill loop: number its ids, then write its value. */
  function PlaceRow(p: Placed, row: (int, int, int), rowNum: nat, colNum: nat, mapRows: bool, mapCols: bool)
    : Result<Placed>
  {
    var (rs, ri) := AxisIndex(p.rowIds, row.0, mapRows);
    var (cs, ci) := AxisIndex(p.colIds, row.1, mapCols);
    match (PyIndex(ri, rowNum), PyIndex(ci, colNum))
    case (Some(i), Some(j)) => Ok(Placed(rs, cs, p.cells + [(i, j, row.2)]))
    case _ => Err(OutOfBounds)
  }

  /** What the fill loop does with the rows, up to the first index numpy
      refuses. */
  function Place(rows: seq<(int, int, int)>, rowNum: nat, colNum: nat, mapRows: bool, mapCols: bool)
    : Result<Placed>
    decreases |rows|
  {
    if |rows| == 0 then Ok(Placed([], [], []))
    else
      match Place(rows[..|rows| - 1], rowNum, colNum, mapRows, mapCols)
      case Err(m) => Err(m)
      case Ok(p) => PlaceRow(p, rows[|rows| - 1], rowNum, colNum, mapRows, mapCols)
  }

  /** The value left at (i, j): the last write there, or the zero the
      matrix starts with. */
  function Written(cells: seq<(nat, nat, int)>, i: nat, j: nat): int
    decreases |cells|
  {
    if |cells| == 0 then 0
    else if cells[|cells| - 1].0 == i && cells[|cells| - 1].1 == j then cells[|cells| - 1].2
    else Written(cells[..|cells| - 1], i, j)
  }

  /** The fill loop of to_numpy; the lookups come back as the ids in the
      order they were numbered. */
  method FillMatrix(rows: seq<(int, int, int)>, rowNum: nat, colNum: nat, mapRows: bool, mapCols: bool)
    returns (r: Result<(seq<int>, seq<int>)>, x: array2<int>)
    ensures fresh(x) && x.Length0 == rowNum && x.Length1 == colNum
    ensures match Place(rows, rowNum, colNum, mapRows, mapCols)
      case Err(m) => r == Err(m)
      case Ok(p) =>
        && r == Ok((p.rowIds, p.colIds))
        && forall i, j :: 0 <= i < rowNum && 0 <= j < colNum ==> x[i, j] == Written(p.cells, i, j)
  {
    x := new int[rowNum, colNum]((i, j) => 0);
    var rowLookup: seq<int> := [];
    var colLookup: seq<int> := [];
    ghost var cells: seq<(nat, nat, int)> := [];
    var k := 0;
    while k < |rows|
      invariant 0 <= k <= |rows|
      invariant Place(rows[..k], rowNum, colNum, mapRows, mapCols) == Ok(Placed(rowLookup, colLookup, cells))
      invariant forall i, j :: 0 <= i < rowNum && 0 <= j < colNum ==> x[i, j] == Written(cells, i, j)
    {
      var (rid, cid, v) := rows[k];
      PlaceStep(rows, rowNum, colNum, mapRows, mapCols, k, Placed(rowLookup, colLookup, cells));
      var ra := AxisIndex(rowLookup, rid, mapRows);
      var ca := AxisIndex(colLookup, cid, mapCols);
      var pi, pj := PyIndex(ra.1, rowNum), PyIndex(ca.1, colNum);
      if pi.None? || pj.None? {
        PlaceFailsFrom(rows, rowNum, colNum, mapRows, mapCols, k + 1);
        r := Err(OutOfBounds);
        return;
      }
      ghost var c := (pi.value, pj.value, v);
      x[pi.value, pj.value] := v;
      forall i, j | 0 <= i < rowNum && 0 <= j < colNum ensures x[i, j] == Written(cells + [c], i, j) {
        WrittenSnoc(cells, c, i, j);
      }
      rowLookup, colLookup := ra.0, ca.0;
      cells := cells + [c];
      k := k + 1;
    }
    assert rows[..|rows|] == rows;
    r := Ok((rowLookup, colLookup));
  }

  lemma PlaceStep(rows: seq<(int, int, int)>, rowNum: nat, colNum: nat, mapRows: bool, mapCols: bool,
                  k: nat, p: Placed)
    requires k < |rows| && Place(rows[..k], rowNum, colNum, mapRows, mapCols) == Ok(p)
    ensures Place(rows[..k + 1], rowNum, colNum, mapRows, mapCols)
            == PlaceRow(p, rows[k], rowNum, colNum, mapRows, mapCols)
  {
    assert rows[..k + 1][..k] == rows[..k];
  }

  lemma WrittenSnoc(cells: seq<(nat, nat, int)>, c: (nat, nat, int), i: nat, j: nat)
    ensures Written(cells + [c], i, j) == if c.0 == i && c.1 == j then c.2 else Written(cells, i, j)
  {
    assert (cells + [c])[..|cells|] == cells;
  }

  lemma {:induction false} PlaceFailsFrom(rows: seq<(int, int, int)>, rowNum: nat, colNum: nat,
                                          mapRows: bool, mapCols: bool, n: nat)
    requires n <= |rows| && Place(rows[..n], rowNum, colNum, mapRows, mapCols).Err?
    ensures Place(rows, rowNum, colNum, mapRows, mapCols) == Place(rows[..n], rowNum, colNum, mapRows, mapCols)
    decreases |rows| - n
  {
    if n < |rows| {
      assert rows[..n + 1][..n] == rows[..n];
      PlaceFailsFrom(rows, rowNum, colNum, mapRows, mapCols, n + 1);
    } else {
      assert rows[..n] == rows;
    }
  }

  function RowIdsOf(rows: seq<(int, int, int)>): (r: seq<int>)
    ensures |r| == |rows|
    decreases |rows|
  {
    if |rows| == 0 then [] else RowIdsOf(rows[..|rows| - 1]) + [rows[|rows| - 1].0]
  }

  function ColIdsOf(rows: seq<(int, int, int)>): (r: seq<int>)
    ensures |r| == |rows|
    decreases |rows|
  {
    if |rows| == 0 then [] else ColIdsOf(rows[..|rows| - 1]) + [rows[|rows| - 1].1]
  }

  /** Whether every id of one axis lands inside a dimension of size n:
      numbered ids need at most n distinct values, raw ids must each be a
      valid (possibly negative) numpy index. */
  predicate AxisFits(ids: seq<int>, n: nat, mapped: bool)
  {
    if mapped then |Dedup(ids)| <= n else forall k :: 0 <= k < |ids| ==> PyIndex(ids[k], n).Some?
  }

  lemma AxisStep(seen: seq<int>, ids: seq<int>, id: int, n: nat, mapped: bool)
    requires seen == if mapped then Dedup(ids) else []
    ensures AxisIndex(seen, id, mapped).0 == if mapped then Dedup(ids + [id]) else []
    ensures AxisFits(ids + [id], n, mapped) <==>
            AxisFits(ids, n, mapped) && PyIndex(AxisIndex(seen, id, mapped).1, n).Some?
    ensures mapped ==> AxisIndex(seen, id, mapped).1 < |AxisIndex(seen, id, mapped).0|
                       && AxisIndex(seen, id, mapped).0[AxisIndex(seen, id, mapped).1] == id
  {
    if mapped {
      AxisStepMapped(ids, id, n);
    } else {
      AxisStepRaw(ids, id, n);
    }
  }

  lemma AxisStepMapped(ids: seq<int>, id: int, n: nat)
    ensures var (s, i) := AxisIndex(Dedup(ids), id, true);
      && s == Dedup(ids + [id])
      && (|s| <= n <==> |Dedup(ids)| <= n && PyIndex(i, n).Some?)
      && i < |s| && s[i] == id
  {
    DedupPrefix(ids, id);
    var d := Dedup(ids);
    if id in d {
      SeenIndex(d, id, n);
    } else {
      FreshIndex(d, id, n);
    }
  }

  lemma SeenIndex(d: seq<int>, id: int, n: nat)
    requires id in d
    ensures var i := IndexOf(d, id).value;
      i < |d| && d[i] == id && (|d| <= n <==> |d| <= n && PyIndex(i, n).Some?)
  {
  }

  lemma FreshIndex(d: seq<int>, id: int, n: nat)
    ensures var s := d + [id];
      s[|d|] == id && (|s| <= n <==> |d| <= n && PyIndex(|d|, n).Some?)
  {
  }

  lemma AxisStepRaw(ids: seq<int>, id: int, n: nat)
    ensures AxisFits(ids + [id], n, false) <==> AxisFits(ids, n, false) && PyIndex(id, n).Some?
  {
    var t := ids + [id];
    if AxisFits(ids, n, false) && PyIndex(id, n).Some? {
      forall k | 0 <= k < |t| ensures PyIndex(t[k], n).Some? {
        if k < |ids| { assert t[k] == ids[k]; }
      }
    }
    if AxisFits(t, n, false) {
      forall k | 0 <= k < |ids| ensures PyIndex(ids[k], n).Some? {
        assert t[k] == ids[k];
      }
      assert t[|ids|] == id;
    }
  }

  /** One step of a successful fill, spelled out. */
  lemma PlaceUnfold(p: Placed, row: (int, int, int), rowNum: nat, colNum: nat, mapRows: bool, mapCols: bool)
    requires PlaceRow(p, row, rowNum, colNum, mapRows, mapCols).Ok?
    ensures var ra := AxisIndex(p.rowIds, row.0, mapRows);
      var ca := AxisIndex(p.colIds, row.1, mapCols);
      && PyIndex(ra.1, rowNum).Some? && PyIndex(ca.1, colNum).Some?
      && PlaceRow(p, row, rowNum, colNum, mapRows, mapCols).value
         == Placed(ra.0, ca.0, p.cells + [(PyIndex(ra.1, rowNum).value, PyIndex(ca.1, colNum).value, row.2)])
  {
  }

  /** The lookups of a successful fill: numbered ids once each, in the
      order they were first seen; one cell per row. */
  lemma {:induction false} PlaceIds(rows: seq<(int, int, int)>, rowNum: nat, colNum: nat,
                                    mapRows: bool, mapCols: bool)
    requires Place(rows, rowNum, colNum, mapRows, mapCols).Ok?
    ensures var p := Place(rows, rowNum, colNum, mapRows, mapCols).value;
      && |p.cells| == |rows|
      && p.rowIds == (if mapRows then Dedup(RowIdsOf(rows)) else [])
      && p.colIds == (if mapCols then Dedup(ColIdsOf(rows)) else [])
    decreases |rows|
  {
    if |rows| > 0 {
      var init := rows[..|rows| - 1];
      PlaceIds(init, rowNum, colNum, mapRows, mapCols);
      var p0 := Place(init, rowNum, colNum, mapRows, mapCols).value;
      var last := rows[|rows| - 1];
      PlaceUnfold(p0, last, rowNum, colNum, mapRows, mapCols);
      AxisStep(p0.rowIds, RowIdsOf(init), last.0, rowNum, mapRows);
      AxisStep(p0.colIds, ColIdsOf(init), last.1, colNum, mapCols);
    }
  }

  /** How one axis of the last row was written. */
  predicate AxisWritten(ids: seq<int>, at: nat, id: int, n: nat, mapped: bool)
  {
    if mapped then at < |ids| && ids[at] == id else PyIndex(id, n) == Some(at)
  }

  lemma AxisWrittenLast(seen: seq<int>, ids: seq<int>, id: int, n: nat, mapped: bool)
    requires seen == if mapped then Dedup(ids) else []
    requires PyIndex(AxisIndex(seen, id, mapped).1, n).Some?
    ensures AxisWritten(AxisIndex(seen, id, mapped).0, PyIndex(AxisIndex(seen, id, mapped).1, n).value, id, n, mapped)
  {
    AxisStep(seen, ids, id, n, mapped);
  }

  lemma AxisWrittenPrefix(a: seq<int>, b: seq<int>, at: nat, id: int, n: nat, mapped: bool)
    requires AxisWritten(a, at, id, n, mapped) && a <= b
    ensures AxisWritten(b, at, id, n, mapped)
  {
    if mapped { PrefixAt(a, b, at); }
  }

  /** Where a successful fill wrote row k: its value, at the number its
      ids got in the lookups, or at the ids themselves when unmapped. */
  lemma {:induction false} PlaceCell(rows: seq<(int, int, int)>, rowNum: nat, colNum: nat,
                                     mapRows: bool, mapCols: bool, k: nat)
    requires Place(rows, rowNum, colNum, mapRows, mapCols).Ok? && k < |rows|
    ensures var p := Place(rows, rowNum, colNum, mapRows, mapCols).value;
      && k < |p.cells|
      && p.cells[k].2 == rows[k].2
      && AxisWritten(p.rowIds, p.cells[k].0, rows[k].0, rowNum, mapRows)
      && AxisWritten(p.colIds, p.cells[k].1, rows[k].1, colNum, mapCols)
    decreases |rows|
  {
    var init := rows[..|rows| - 1];
    PlaceIds(init, rowNum, colNum, mapRows, mapCols);
    var p0 := Place(init, rowNum, colNum, mapRows, mapCols).value;
    var p := Place(rows, rowNum, colNum, mapRows, mapCols).value;
    var last := rows[|rows| - 1];
    PlaceUnfold(p0, last, rowNum, colNum, mapRows, mapCols);
    if k < |init| {
      PlaceCell(init, rowNum, colNum, mapRows, mapCols, k);
      assert p.cells[k] == p0.cells[k] && init[k] == rows[k];
      AxisGrows(p0.rowIds, last.0, mapRows);
      AxisGrows(p0.colIds, last.1, mapCols);
      AxisWrittenPrefix(p0.rowIds, p.rowIds, p0.cells[k].0, rows[k].0, rowNum, mapRows);
      AxisWrittenPrefix(p0.colIds, p.colIds, p0.cells[k].1, rows[k].1, colNum, mapCols);
    } else {
      AxisWrittenLast(p0.rowIds, RowIdsOf(init), last.0, rowNum, mapRows);
      AxisWrittenLast(p0.colIds, ColIdsOf(init), last.1, colNum, mapCols);
    }
  }

  lemma AxisGrows(seen: seq<int>, id: int, mapped: bool)
    ensures seen <= AxisIndex(seen, id, mapped).0
  {
  }

  lemma PrefixAt(a: seq<int>, b: seq<int>, i: nat)
    requires a <= b && i < |a|
    ensures i < |b| && b[i] == a[i]
  {
  }

  /** The fill succeeds exactly when both axes fit their dimension. */
  lemma {:induction false} PlaceOkIff(rows: seq<(int, int, int)>, rowNum: nat, colNum: nat,
                                      mapRows: bool, mapCols: bool)
    ensures Place(rows, rowNum, colNum, mapRows, mapCols).Ok? <==>
            AxisFits(RowIdsOf(rows), rowNum, mapRows) && AxisFits(ColIdsOf(rows), colNum, mapCols)
    decreases |rows|
  {
    if |rows| > 0 {
      var init := rows[..|rows| - 1];
      PlaceOkIff(init, rowNum, colNum, mapRows, mapCols);
      if Place(init, rowNum, colNum, mapRows, mapCols).Ok? {
        PlaceOkStep(rows, rowNum, colNum, mapRows, mapCols);
      } else {
        PlaceErrStep(rows, rowNum, colNum, mapRows, mapCols);
      }
    }
  }

  /** The ids of all rows are those of the rows before the last, then the
      last row's. */
  lemma IdsSnoc(rows: seq<(int, int, int)>)
    requires |rows| > 0
    ensures RowIdsOf(rows) == RowIdsOf(rows[..|rows| - 1]) + [rows[|rows| - 1].0]
    ensures ColIdsOf(rows) == ColIdsOf(rows[..|rows| - 1]) + [rows[|rows| - 1].1]
  {
  }

  lemma PlaceOkStep(rows: seq<(int, int, int)>, rowNum: nat, colNum: nat, mapRows: bool, mapCols: bool)
    requires |rows| > 0 && Place(rows[..|rows| - 1], rowNum, colNum, mapRows, mapCols).Ok?
    requires AxisFits(RowIdsOf(rows[..|rows| - 1]), rowNum, mapRows)
    requires AxisFits(ColIdsOf(rows[..|rows| - 1]), colNum, mapCols)
    ensures Place(rows, rowNum, colNum, mapRows, mapCols).Ok? <==>
            AxisFits(RowIdsOf(rows), rowNum, mapRows) && AxisFits(ColIdsOf(rows), colNum, mapCols)
  {
    var init := rows[..|rows| - 1];
    var last := rows[|rows| - 1];
    IdsSnoc(rows);
    PlaceIds(init, rowNum, colNum, mapRows, mapCols);
    var p0 := Place(init, rowNum, colNum, mapRows, mapCols).value;
    assert Place(rows, rowNum, colNum, mapRows, mapCols) == PlaceRow(p0, last, rowNum, colNum, mapRows, mapCols);
    AxisStep(p0.rowIds, RowIdsOf(init), last.0, rowNum, mapRows);
    AxisStep(p0.colIds, ColIdsOf(init), last.1, colNum, mapCols);
  }

  lemma PlaceErrStep(rows: seq<(int, int, int)>, rowNum: nat, colNum: nat, mapRows: bool, mapCols: bool)
    requires |rows| > 0 && Place(rows[..|rows| - 1], rowNum, colNum, mapRows, mapCols).Err?
    requires !(AxisFits(RowIdsOf(rows[..|rows| - 1]), rowNum, mapRows)
               && AxisFits(ColIdsOf(rows[..|rows| - 1]), colNum, mapCols))
    ensures Place(rows, rowNum, colNum, mapRows, mapCols).Err?
    ensures !(AxisFits(RowIdsOf(rows), rowNum, mapRows) && AxisFits(ColIdsOf(rows), colNum, mapCols))
  {
    var init := rows[..|rows| - 1];
    var last := rows[|rows| - 1];
    IdsSnoc(rows);
    var rs := if mapRows then Dedup(RowIdsOf(init)) else [];
    var cs := if mapCols then Dedup(ColIdsOf(init)) else [];
    AxisStep(rs, RowIdsOf(init), last.0, rowNum, mapRows);
    AxisStep(cs, ColIdsOf(init), last.1, colNum, mapCols);
  }
}
