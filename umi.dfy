/** UMI de-duplication of src/naptrap/preprocessing/count_unique.py.
    Every distinct sequence gets one Umi object, counted as often as it
    occurs; two passes then merge each Umi into a running representative
    that lies within the Hamming threshold, once over the sequences in
    sorted order and once over the survivors sorted on their reversed
    text. A Umi object is identified with its sequence (the constructor
    makes one per distinct sequence); the sentinel representative `Umi('')`
    that starts each pass is a case of its own. */
module UmiCount {
  import opened Common

  /** `Umi_counter.thres` */
  const Thres: nat := 1

  // ---------------------------------------------------------------------
  // hd

  /** Mismatching positions among the first `n` pairs of `zip(x, y)`. */
  function MismatchCount(x: string, y: string, n: nat): (r: nat)
    requires n <= |x| && n <= |y|
    ensures r <= n
  {
    if n == 0 then 0
    else MismatchCount(x, y, n - 1) + (if x[n - 1] != y[n - 1] then 1 else 0)
  }

  function Min(a: nat, b: nat): nat
  {
    if a <= b then a else b
  }

  /** Mismatching positions over `zip(x, y)`: never more than the shorter
      length, so against the empty string there are none. */
  function Mismatches(x: string, y: string): (r: nat)
    ensures r <= |x| && r <= |y|
  {
    MismatchCount(x, y, Min(|x|, |y|))
  }

  lemma {:induction false} MismatchGrows(x: string, y: string, i: nat, n: nat)
    requires i <= n <= |x| && n <= |y|
    ensures MismatchCount(x, y, i) <= MismatchCount(x, y, n)
    decreases n - i
  {
    if i < n {
      MismatchGrows(x, y, i, n - 1);
    }
  }

  /** `hd`: the scan gives up at a mismatch met with more than `thres`
      already counted, so it answers False exactly when there are more than
      `thres + 1` mismatches. */
  method Hd(x: string, y: string) returns (b: bool)
    ensures b <==> Mismatches(x, y) <= Thres + 1
  {
    var n := Min(|x|, |y|);
    var d: nat := 0;
    for i := 0 to n
      invariant d == MismatchCount(x, y, i) && d <= Thres + 1
    {
      if x[i] == y[i] {
        continue;
      } else if d > Thres {
        MismatchGrows(x, y, i + 1, n);
        return false;
      } else {
        d := d + 1;
      }
    }
    return true;
  }

  // ---------------------------------------------------------------------
  // The dictionary of Umi objects

  /** The keys of `umi_dic` in insertion order, and the `read_count` of the
      Umi of each sequence seen (a popped Umi keeps its count). */
  datatype Umis = Umis(keys: seq<string>, counts: map<string, nat>)

  function CountOf(counts: map<string, nat>, k: string): nat
  {
    if k in counts then counts[k] else 0
  }

  /** The counting loop of `__init__` over the first sequences. */
  function TallyOf(seqs: seq<string>): Umis
  {
    if |seqs| == 0 then Umis([], map[])
    else TallyAdd(TallyOf(seqs[..|seqs| - 1]), seqs[|seqs| - 1])
  }

  /** One pass of the counting loop. */
  function TallyAdd(u: Umis, s: string): Umis
  {
    if s in u.counts then Umis(u.keys, u.counts[s := u.counts[s] + 1])
    else Umis(u.keys + [s], u.counts[s := 1])
  }

  /** `umi_dic.pop(k, None)` */
  function Remove(keys: seq<string>, k: string): (r: seq<string>)
    ensures |r| <= |keys|
    ensures forall x :: x in r <==> x in keys && x != k
    ensures k !in keys ==> r == keys
    ensures NoDuplicates(keys) ==> NoDuplicates(r)
    ensures NoDuplicates(keys) && k in keys ==> |r| == |keys| - 1
  {
    if |keys| == 0 then []
    else if keys[0] == k then Remove(keys[1..], k)
    else
      var rest := Remove(keys[1..], k);
      assert NoDuplicates(keys) ==> keys[0] !in keys[1..] && NoDuplicates(keys[1..]);
      [keys[0]] + rest
  }

  // ---------------------------------------------------------------------
  // sorted(..., key = lambda a: a.seq) and key = lambda a: a.seq[::-1]

  function SortKey(s: string, rev: bool): string
  {
    if rev then Reverse(s) else s
  }

  predicate SortedBy(s: seq<string>, rev: bool)
  {
    forall i, j :: 0 <= i < j < |s| ==> StrLe(SortKey(s[i], rev), SortKey(s[j], rev))
  }

  function InsertBy(s: seq<string>, x: string, rev: bool): (r: seq<string>)
    ensures multiset(r) == multiset(s) + multiset{x}
    ensures forall y :: y in r <==> y == x || y in s
  {
    if |s| == 0 then [x]
    else if StrLe(SortKey(x, rev), SortKey(s[0], rev)) then [x] + s
    else
      assert s == [s[0]] + s[1..];
      [s[0]] + InsertBy(s[1..], x, rev)
  }

  /** Python's `sorted` on the given key. */
  function SortBy(s: seq<string>, rev: bool): (r: seq<string>)
    ensures multiset(r) == multiset(s)
    ensures forall y :: y in r <==> y in s
  {
    if |s| == 0 then []
    else
      assert s == s[..|s| - 1] + [s[|s| - 1]];
      InsertBy(SortBy(s[..|s| - 1], rev), s[|s| - 1], rev)
  }

  lemma {:induction false} InsertBySorted(s: seq<string>, x: string, rev: bool)
    requires SortedBy(s, rev)
    ensures SortedBy(InsertBy(s, x, rev), rev)
  {
    var kx := SortKey(x, rev);
    if |s| > 0 {
      var k0 := SortKey(s[0], rev);
      if StrLe(kx, k0) {
        var r := [x] + s;
        forall i, j | 0 <= i < j < |r| ensures StrLe(SortKey(r[i], rev), SortKey(r[j], rev)) {
          if i == 0 && j > 1 {
            assert r[j] == s[j - 1];
            if kx != k0 && k0 != SortKey(s[j - 1], rev) {
              StrLtTrans(kx, k0, SortKey(s[j - 1], rev));
            }
          } else if i > 0 {
            assert r[i] == s[i - 1] && r[j] == s[j - 1];
          }
        }
      } else {
        StrLtTotal(kx, k0);
        InsertBySorted(s[1..], x, rev);
        var rest := InsertBy(s[1..], x, rev);
        var r := [s[0]] + rest;
        forall j | 0 <= j < |rest| ensures StrLe(k0, SortKey(rest[j], rev)) {
          assert rest[j] in rest;
          if rest[j] != x {
            var m :| 0 <= m < |s[1..]| && s[1..][m] == rest[j];
            assert s[m + 1] == rest[j];
          }
        }
        forall i, j | 0 <= i < j < |r| ensures StrLe(SortKey(r[i], rev), SortKey(r[j], rev)) {
          if i > 0 {
            assert r[i] == rest[i - 1] && r[j] == rest[j - 1];
          } else {
            assert r[j] == rest[j - 1];
          }
        }
      }
    }
  }

  lemma {:induction false} SortBySorted(s: seq<string>, rev: bool)
    ensures SortedBy(SortBy(s, rev), rev)
  {
    if |s| > 0 {
      SortBySorted(s[..|s| - 1], rev);
      InsertBySorted(SortBy(s[..|s| - 1], rev), s[|s| - 1], rev);
    }
  }

  lemma {:induction false} InsertByDistinct(s: seq<string>, x: string, rev: bool)
    requires NoDuplicates(s) && x !in s
    ensures NoDuplicates(InsertBy(s, x, rev))
  {
    if |s| > 0 && !StrLe(SortKey(x, rev), SortKey(s[0], rev)) {
      assert s[0] !in s[1..] && NoDuplicates(s[1..]) by {
        forall j | 0 <= j < |s[1..]| ensures s[1..][j] != s[0] {
          assert s[j + 1] != s[0];
        }
      }
      InsertByDistinct(s[1..], x, rev);
      NoDuplicatesCons(s[0], InsertBy(s[1..], x, rev));
    } else if |s| > 0 {
      NoDuplicatesCons(x, s);
    }
  }

  lemma NoDuplicatesCons(x: string, s: seq<string>)
    requires NoDuplicates(s) && x !in s
    ensures NoDuplicates([x] + s)
  {
    var t := [x] + s;
    forall i, j | 0 <= i < j < |t| ensures t[i] != t[j] {
      assert t[j] == s[j - 1];
      if i > 0 { assert t[i] == s[i - 1]; }
    }
  }

  lemma {:induction false} SortByDistinct(s: seq<string>, rev: bool)
    requires NoDuplicates(s)
    ensures NoDuplicates(SortBy(s, rev))
  {
    if |s| > 0 {
      var init := s[..|s| - 1];
      assert NoDuplicates(init) && s[|s| - 1] !in init by {
        NoDuplicatesSnoc(init, s[|s| - 1]);
        assert init + [s[|s| - 1]] == s;
      }
      SortByDistinct(init, rev);
      InsertByDistinct(SortBy(init, rev), s[|s| - 1], rev);
    }
  }

  /** The sort keeps the keys and puts them in ascending order. */
  lemma SortByPermutes(s: seq<string>, rev: bool)
    ensures multiset(SortBy(s, rev)) == multiset(s)
    ensures SortedBy(SortBy(s, rev), rev)
    ensures NoDuplicates(s) ==> NoDuplicates(SortBy(s, rev))
  {
    SortBySorted(s, rev);
    if NoDuplicates(s) {
      SortByDistinct(s, rev);
    }
  }

  // ---------------------------------------------------------------------
  // cluster_umi

  /** The running representative `umi2`: the sentinel `Umi('')` with its
      count, or the Umi of a real sequence. */
  datatype Rep = Sentinel(count: nat) | Real(s: string)

  datatype PassState = PassState(rep: Rep, keys: seq<string>, counts: map<string, nat>)

  function RepSeq(rep: Rep): string
  {
    if rep.Sentinel? then "" else rep.s
  }

  function RepCount(st: PassState): nat
  {
    if st.rep.Sentinel? then st.rep.count else CountOf(st.counts, st.rep.s)
  }

  /** One element `u` of the pass. When `sentinelPops` is set, absorbing
      the sentinel pops the key `''`, as `pop(umi2.seq)` does; when it is
      not, a sentinel representative pops nothing. */
  function Step(st: PassState, u: string, sentinelPops: bool): PassState
  {
    if Mismatches(u, RepSeq(st.rep)) <= Thres + 1 then
      if CountOf(st.counts, u) >= RepCount(st) then
        var popped := if st.rep.Sentinel? && !sentinelPops then st.keys else Remove(st.keys, RepSeq(st.rep));
        PassState(Real(u), popped, st.counts[u := CountOf(st.counts, u) + RepCount(st)])
      else if st.rep.Sentinel? then
        PassState(Sentinel(st.rep.count + CountOf(st.counts, u)), Remove(st.keys, u), st.counts)
      else
        PassState(st.rep, Remove(st.keys, u), st.counts[st.rep.s := RepCount(st) + CountOf(st.counts, u)])
    else st
  }

  /** `cluster_umi` over the first elements of the sorted list. */
  function RunPass(u: Umis, sorted: seq<string>, sentinelPops: bool): PassState
  {
    if |sorted| == 0 then PassState(Sentinel(1), u.keys, u.counts)
    else Step(RunPass(u, sorted[..|sorted| - 1], sentinelPops), sorted[|sorted| - 1], sentinelPops)
  }

  function AfterPass(u: Umis, rev: bool, sentinelPops: bool): Umis
  {
    var p := RunPass(u, SortBy(u.keys, rev), sentinelPops);
    Umis(p.keys, p.counts)
  }

  /** What `__init__` leaves: the tally, a forward-sorted pass, then a pass
      over the survivors sorted on their reversed text. */
  function Clustered(seqs: seq<string>, sentinelPops: bool): Umis
  {
    AfterPass(AfterPass(TallyOf(seqs), false, sentinelPops), true, sentinelPops)
  }

  // ---------------------------------------------------------------------
  // What the counting and the passes keep

  /** The reads held by the Umis of the given keys. */
  function Sum(keys: seq<string>, counts: map<string, nat>): nat
  {
    if |keys| == 0 then 0 else CountOf(counts, keys[0]) + Sum(keys[1..], counts)
  }

  lemma {:induction false} SumSnoc(keys: seq<string>, counts: map<string, nat>, x: string)
    ensures Sum(keys + [x], counts) == Sum(keys, counts) + CountOf(counts, x)
  {
    if |keys| > 0 {
      assert (keys + [x])[1..] == keys[1..] + [x];
      SumSnoc(keys[1..], counts, x);
    }
  }

  lemma {:induction false} SumUpdate(keys: seq<string>, counts: map<string, nat>, k: string, v: nat)
    requires NoDuplicates(keys)
    ensures k in keys ==> Sum(keys, counts[k := v]) + CountOf(counts, k) == Sum(keys, counts) + v
    ensures k !in keys ==> Sum(keys, counts[k := v]) == Sum(keys, counts)
  {
    if |keys| > 0 {
      assert keys[0] !in keys[1..] && NoDuplicates(keys[1..]) by {
        forall j | 0 <= j < |keys[1..]| ensures keys[1..][j] != keys[0] {
          assert keys[j + 1] != keys[0];
        }
      }
      SumUpdate(keys[1..], counts, k, v);
    }
  }

  lemma {:induction false} SumRemove(keys: seq<string>, counts: map<string, nat>, k: string)
    requires NoDuplicates(keys) && k in keys
    ensures Sum(Remove(keys, k), counts) + CountOf(counts, k) == Sum(keys, counts)
  {
    assert keys[0] !in keys[1..] && NoDuplicates(keys[1..]) by {
      forall j | 0 <= j < |keys[1..]| ensures keys[1..][j] != keys[0] {
        assert keys[j + 1] != keys[0];
      }
    }
    if keys[0] == k {
      assert Remove(keys[1..], k) == keys[1..];
    } else {
      SumRemove(keys[1..], counts, k);
    }
  }

  /** Merging the Umi of `drop` into that of `keep` and popping `drop`
      keeps the reads. */
  lemma SumMerge(keys: seq<string>, counts: map<string, nat>, keep: string, drop: string)
    requires NoDuplicates(keys) && keep in keys && drop in keys && keep != drop
    ensures Sum(Remove(keys, drop), counts[keep := CountOf(counts, keep) + CountOf(counts, drop)]) == Sum(keys, counts)
  {
    var v := CountOf(counts, keep) + CountOf(counts, drop);
    var c := counts[keep := v];
    SumUpdate(keys, counts, keep, v);
    assert CountOf(c, drop) == CountOf(counts, drop);
    SumRemove(keys, c, drop);
  }

  /** Before clustering, the keys are the distinct sequences in order of
      first appearance and each Umi counts its sequence's occurrences, so
      the Umis hold one read per sequence. */
  lemma {:induction false} TallySpec(seqs: seq<string>)
    ensures TallyOf(seqs).keys == Dedup(seqs)
    ensures forall k :: k in TallyOf(seqs).counts <==> k in seqs
    ensures forall k :: k in TallyOf(seqs).counts ==> TallyOf(seqs).counts[k] == multiset(seqs)[k]
    ensures Sum(TallyOf(seqs).keys, TallyOf(seqs).counts) == |seqs|
  {
    if |seqs| > 0 {
      var init, x := seqs[..|seqs| - 1], seqs[|seqs| - 1];
      assert seqs == init + [x];
      TallySpec(init);
      var u := TallyOf(init);
      TallyKeys(init, x, u);
      TallyCounts(init, x, u);
      TallySum(u, x);
    }
  }

  lemma TallyKeys(init: seq<string>, x: string, u: Umis)
    requires u.keys == Dedup(init) && forall k :: k in u.counts <==> k in init
    ensures TallyAdd(u, x).keys == Dedup(init + [x])
    ensures forall k :: k in TallyAdd(u, x).counts <==> k in init + [x]
  {
    DedupPrefix(init, x);
    forall k ensures k in init + [x] <==> k in init || k == x {
    }
  }

  lemma TallyCounts(init: seq<string>, x: string, u: Umis)
    requires forall k :: k in u.counts <==> k in init
    requires forall k :: k in u.counts ==> u.counts[k] == multiset(init)[k]
    ensures forall k :: k in TallyAdd(u, x).counts ==> TallyAdd(u, x).counts[k] == multiset(init + [x])[k]
  {
    assert multiset(init + [x]) == multiset(init) + multiset{x};
    if x !in u.counts {
      assert multiset(init)[x] == 0;
    }
  }

  lemma TallySum(u: Umis, x: string)
    requires NoDuplicates(u.keys) && forall k :: k in u.keys ==> k in u.counts
    requires x in u.counts ==> x in u.keys
    ensures Sum(TallyAdd(u, x).keys, TallyAdd(u, x).counts) == Sum(u.keys, u.counts) + 1
  {
    if x in u.counts {
      SumUpdate(u.keys, u.counts, x, u.counts[x] + 1);
    } else {
      SumUpdate(u.keys, u.counts, x, 1);
      SumSnoc(u.keys, u.counts[x := 1], x);
    }
  }

  predicate GoodUmis(u: Umis)
  {
    && NoDuplicates(u.keys)
    && (forall k :: k in u.keys ==> k in u.counts)
    && (forall k :: k in u.counts ==> u.counts[k] >= 1)
  }

  /** What a pass may assume: the Umis are consistent, the list is distinct
      and made of keys, and (when the sentinel pops `''`) no key is `''`. */
  predicate PassPre(u: Umis, sorted: seq<string>, sentinelPops: bool)
  {
    && GoodUmis(u) && NoDuplicates(sorted)
    && (forall x :: x in sorted ==> x in u.keys)
    && (sentinelPops ==> "" !in u.keys)
  }

  /** The state after the first `n` elements of a pass. */
  predicate PassInv(u: Umis, sorted: seq<string>, n: nat, st: PassState)
  {
    && n <= |sorted|
    && GoodUmis(Umis(st.keys, st.counts))
    && |st.keys| <= |u.keys|
    && (forall k :: k in st.keys ==> k in u.keys)
    && st.counts.Keys == u.counts.Keys
    && (forall j :: n <= j < |sorted| ==> sorted[j] in st.keys)
    && (n == 0 ==> st.rep == Sentinel(1))
    && (n > 0 ==> st.rep.Real? && st.rep.s in st.keys && st.rep.s in sorted[..n])
    && Sum(st.keys, st.counts) == Sum(u.keys, u.counts) + (if n > 0 then 1 else 0)
  }

  /** The facts about one step that do not depend on its branch. */
  lemma StepSetup(u: Umis, sorted: seq<string>, n: nat, st: PassState, sentinelPops: bool)
    requires PassPre(u, sorted, sentinelPops) && n < |sorted| && PassInv(u, sorted, n, st)
    ensures sorted[n] in st.keys
    ensures sorted[..n + 1] == sorted[..n] + [sorted[n]]
    ensures forall j :: n + 1 <= j < |sorted| ==> sorted[j] != sorted[n]
    ensures st.rep.Real? ==> st.rep.s != sorted[n]
    ensures st.rep.Real? ==> forall j :: n + 1 <= j < |sorted| ==> sorted[j] != st.rep.s
  {
    forall j | n + 1 <= j < |sorted| ensures sorted[j] != sorted[n] && (st.rep.Real? ==> sorted[j] != st.rep.s) {
      assert sorted[n] != sorted[j];
      if st.rep.Real? {
        var m :| 0 <= m < n && sorted[..n][m] == st.rep.s;
        assert sorted[m] != sorted[j];
      }
    }
    if st.rep.Real? {
      var m :| 0 <= m < n && sorted[..n][m] == st.rep.s;
      assert sorted[m] != sorted[n];
    }
  }

  /** From the sentinel, the first element becomes the representative
      and takes the sentinel's one read. */
  lemma StepOfSentinel(st: PassState, x: string, sentinelPops: bool)
    requires st.rep == Sentinel(1) && CountOf(st.counts, x) >= 1
    requires sentinelPops ==> "" !in st.keys
    ensures Step(st, x, sentinelPops) == PassState(Real(x), st.keys, st.counts[x := CountOf(st.counts, x) + 1])
  {
    assert Mismatches(x, "") == 0;
  }

  lemma StepFromSentinel(u: Umis, sorted: seq<string>, n: nat, st: PassState, sentinelPops: bool)
    requires PassPre(u, sorted, sentinelPops) && n < |sorted| && PassInv(u, sorted, n, st)
    requires st.rep.Sentinel?
    ensures PassInv(u, sorted, n + 1, Step(st, sorted[n], sentinelPops))
  {
    var x := sorted[n];
    StepSetup(u, sorted, n, st, sentinelPops);
    assert CountOf(st.counts, x) >= 1;
    StepOfSentinel(st, x, sentinelPops);
    SumUpdate(st.keys, st.counts, x, CountOf(st.counts, x) + 1);
  }

  lemma StepWhenAbsorbs(st: PassState, x: string, sentinelPops: bool)
    requires st.rep.Real? && Mismatches(x, st.rep.s) <= Thres + 1
    requires CountOf(st.counts, x) >= CountOf(st.counts, st.rep.s)
    ensures Step(st, x, sentinelPops).rep == Real(x)
    ensures Step(st, x, sentinelPops).keys == Remove(st.keys, st.rep.s)
    ensures Step(st, x, sentinelPops).counts == st.counts[x := CountOf(st.counts, x) + CountOf(st.counts, st.rep.s)]
  {
  }

  lemma StepWhenAbsorbed(st: PassState, x: string, sentinelPops: bool)
    requires st.rep.Real? && Mismatches(x, st.rep.s) <= Thres + 1
    requires CountOf(st.counts, x) < CountOf(st.counts, st.rep.s)
    ensures Step(st, x, sentinelPops).rep == st.rep
    ensures Step(st, x, sentinelPops).keys == Remove(st.keys, x)
    ensures Step(st, x, sentinelPops).counts == st.counts[st.rep.s := CountOf(st.counts, st.rep.s) + CountOf(st.counts, x)]
  {
  }

  /** A step that merges the Umi of `drop` into that of `keep`, pops
      `drop` and makes `keep` the representative keeps the invariant. */
  lemma MergeKeeps(u: Umis, sorted: seq<string>, n: nat, st: PassState, keep: string, drop: string, next: PassState)
    requires n < |sorted| && PassInv(u, sorted, n, st) && n > 0
    requires keep in st.keys && drop in st.keys && keep != drop
    requires forall j :: n + 1 <= j < |sorted| ==> sorted[j] != drop
    requires keep in sorted[..n + 1]
    requires next == PassState(Real(keep), Remove(st.keys, drop), st.counts[keep := CountOf(st.counts, keep) + CountOf(st.counts, drop)])
    ensures PassInv(u, sorted, n + 1, next)
  {
    SumMerge(st.keys, st.counts, keep, drop);
    forall j | n + 1 <= j < |sorted| ensures sorted[j] in next.keys {
      assert sorted[j] in st.keys;
    }
  }

  /** An element too far from the representative changes nothing. */
  lemma StepFar(u: Umis, sorted: seq<string>, n: nat, st: PassState, sentinelPops: bool)
    requires PassPre(u, sorted, sentinelPops) && n < |sorted| && PassInv(u, sorted, n, st)
    requires st.rep.Real? && Mismatches(sorted[n], st.rep.s) > Thres + 1
    ensures PassInv(u, sorted, n + 1, st)
  {
    StepSetup(u, sorted, n, st, sentinelPops);
    assert sorted[..n] <= sorted[..n + 1];
  }

  /** An element close to the representative merges with it. */
  lemma StepNear(u: Umis, sorted: seq<string>, n: nat, st: PassState, sentinelPops: bool)
    requires PassPre(u, sorted, sentinelPops) && n < |sorted| && PassInv(u, sorted, n, st)
    requires st.rep.Real? && Mismatches(sorted[n], st.rep.s) <= Thres + 1
    ensures PassInv(u, sorted, n + 1, Step(st, sorted[n], sentinelPops))
  {
    var x, r := sorted[n], st.rep.s;
    StepSetup(u, sorted, n, st, sentinelPops);
    assert sorted[..n] <= sorted[..n + 1];
    if CountOf(st.counts, x) >= CountOf(st.counts, r) {
      StepWhenAbsorbs(st, x, sentinelPops);
      MergeKeeps(u, sorted, n, st, x, r, Step(st, x, sentinelPops));
    } else {
      StepWhenAbsorbed(st, x, sentinelPops);
      MergeKeeps(u, sorted, n, st, r, x, Step(st, x, sentinelPops));
    }
  }

  lemma StepInv(u: Umis, sorted: seq<string>, n: nat, st: PassState, sentinelPops: bool)
    requires PassPre(u, sorted, sentinelPops) && n < |sorted| && PassInv(u, sorted, n, st)
    ensures PassInv(u, sorted, n + 1, Step(st, sorted[n], sentinelPops))
  {
    if st.rep.Sentinel? {
      StepFromSentinel(u, sorted, n, st, sentinelPops);
    } else if Mismatches(sorted[n], st.rep.s) > Thres + 1 {
      StepFar(u, sorted, n, st, sentinelPops);
      assert Step(st, sorted[n], sentinelPops) == st;
    } else {
      StepNear(u, sorted, n, st, sentinelPops);
    }
  }

  lemma {:induction false} PassFacts(u: Umis, sorted: seq<string>, n: nat, sentinelPops: bool)
    requires PassPre(u, sorted, sentinelPops) && n <= |sorted|
    ensures PassInv(u, sorted, n, RunPass(u, sorted[..n], sentinelPops))
  {
    if n > 0 {
      assert sorted[..n][..n - 1] == sorted[..n - 1];
      PassFacts(u, sorted, n - 1, sentinelPops);
      StepInv(u, sorted, n - 1, RunPass(u, sorted[..n - 1], sentinelPops), sentinelPops);
    } else {
      forall j | 0 <= j < |sorted| ensures sorted[j] in u.keys {
        assert sorted[j] in sorted;
      }
    }
  }

  /** One pass over the keys sorted on either key: the survivors are a
      subset of its input, no more of them, a non-empty input keeps one,
      and the reads are those of its input plus the sentinel's one. */
  lemma PassOver(u: Umis, rev: bool, sentinelPops: bool)
    requires GoodUmis(u) && (sentinelPops ==> "" !in u.keys)
    ensures GoodUmis(AfterPass(u, rev, sentinelPops))
    ensures forall k :: k in AfterPass(u, rev, sentinelPops).keys ==> k in u.keys
    ensures |AfterPass(u, rev, sentinelPops).keys| <= |u.keys|
    ensures |u.keys| > 0 ==> |AfterPass(u, rev, sentinelPops).keys| > 0
    ensures var v := AfterPass(u, rev, sentinelPops);
      Sum(v.keys, v.counts) == Sum(u.keys, u.counts) + (if |u.keys| > 0 then 1 else 0)
  {
    var sorted := SortBy(u.keys, rev);
    SortByDistinct(u.keys, rev);
    assert |sorted| == |u.keys| by {
      assert |multiset(sorted)| == |multiset(u.keys)|;
    }
    PassFacts(u, sorted, |sorted|, sentinelPops);
    assert sorted[..|sorted|] == sorted;
  }

  /** The counter's result: only input sequences survive, no more than
      there are distinct inputs. */
  lemma ClusteredSubset(seqs: seq<string>, sentinelPops: bool)
    requires sentinelPops ==> "" !in seqs
    ensures NoDuplicates(Clustered(seqs, sentinelPops).keys)
    ensures forall k :: k in Clustered(seqs, sentinelPops).keys ==> k in seqs
    ensures |Clustered(seqs, sentinelPops).keys| <= |Dedup(seqs)|
  {
    TallySpec(seqs);
    var t := TallyOf(seqs);
    PassOver(t, false, sentinelPops);
    PassOver(AfterPass(t, false, sentinelPops), true, sentinelPops);
  }

  /** A non-empty input without the empty sequence keeps at least one Umi,
      and its Umis hold every read plus one from the sentinel per pass. */
  lemma ClusteredCounts(seqs: seq<string>, sentinelPops: bool)
    requires sentinelPops ==> "" !in seqs
    ensures |seqs| > 0 ==> |Clustered(seqs, sentinelPops).keys| >= 1
    ensures var c := Clustered(seqs, sentinelPops);
      Sum(c.keys, c.counts) == |seqs| + (if |seqs| > 0 then 2 else 0)
  {
    TallySpec(seqs);
    var t := TallyOf(seqs);
    assert |seqs| > 0 ==> seqs[0] in t.keys;
    PassOver(t, false, sentinelPops);
    PassOver(AfterPass(t, false, sentinelPops), true, sentinelPops);
  }

  /** The first Umi of a pass always matches the sentinel (`hd` against
      `''` is True): it gains the sentinel's one read and becomes the
      representative. */
  lemma FirstAbsorbsSentinel(keys: seq<string>, counts: map<string, nat>, x: string, sentinelPops: bool)
    requires x in counts && counts[x] >= 1
    ensures Step(PassState(Sentinel(1), keys, counts), x, sentinelPops).rep == Real(x)
    ensures Step(PassState(Sentinel(1), keys, counts), x, sentinelPops).counts[x] == counts[x] + 1
  {
    assert Mismatches(x, "") == 0;
  }

  /** As written, a real empty UMI is popped by the sentinel's
      `pop(umi2.seq)`: the input `['']` leaves no Umi at all. */
  lemma EmptyUmiLost()
    ensures Clustered([""], true).keys == []
    ensures |Clustered([""], false).keys| == 1
  {
    var t := TallyOf([""]);
    assert [""][..0] == [];
    assert t == Umis([""], map["" := 1]);
    assert SortBy([""], false) == [""] && SortBy([""], true) == [""] by {
      assert [""][..0] == [];
    }
    assert Mismatches("", "") == 0;
    assert [""][..0] == [];
    var p1 := RunPass(t, [""], true);
    assert p1 == Step(PassState(Sentinel(1), [""], map["" := 1]), "", true);
    assert p1.keys == [];
    var q1 := RunPass(t, [""], false);
    assert q1 == Step(PassState(Sentinel(1), [""], map["" := 1]), "", false);
    assert q1 == PassState(Real(""), [""], map["" := 2]);
    var q2 := RunPass(Umis(q1.keys, q1.counts), [""], false);
    assert q2 == Step(PassState(Sentinel(1), [""], map["" := 2]), "", false);
  }

  // ---------------------------------------------------------------------
  // The object

  class UmiCounter {
    var seqList: seq<string>
    var keys: seq<string>
    var counts: map<string, nat>
    /** As written the sentinel's merge pops the key `''`; `corrected`
        leaves a real empty UMI in place. */
    const corrected: bool

    /** `total_count` */
    function TotalCount(): nat
      reads this
    {
      |keys|
    }

    constructor (seqList: seq<string>, corrected: bool)
      ensures this.seqList == seqList && this.corrected == corrected
      ensures Umis(keys, counts) == Clustered(seqList, !corrected)
    {
      this.seqList := seqList;
      this.corrected := corrected;
      keys, counts := [], map[];
      new;
      Tally();
      var forward := SortBy(keys, false);
      ClusterUmi(forward);
      var backward := SortBy(keys, true);
      ClusterUmi(backward);
    }

    /** The counting loop of `__init__`. */
    method Tally()
      modifies this
      requires keys == [] && counts == map[]
      ensures seqList == old(seqList)
      ensures Umis(keys, counts) == TallyOf(seqList)
    {
      for i := 0 to |seqList|
        invariant seqList == old(seqList)
        invariant Umis(keys, counts) == TallyOf(seqList[..i])
      {
        var s := seqList[i];
        assert seqList[..i + 1][..i] == seqList[..i];
        if s in counts {
          counts := counts[s := counts[s] + 1];
        } else {
          keys, counts := keys + [s], counts[s := 1];
        }
      }
      assert seqList[..|seqList|] == seqList;
    }

    /** `cluster_umi`: the representative starts as the sentinel and each
        Umi of the list is merged with it in turn. */
    method ClusterUmi(sorted: seq<string>)
      modifies this
      ensures seqList == old(seqList)
      ensures var p := RunPass(Umis(old(keys), old(counts)), sorted, !corrected);
        keys == p.keys && counts == p.counts
    {
      ghost var u0 := Umis(keys, counts);
      var rep := Sentinel(1);
      for i := 0 to |sorted|
        invariant seqList == old(seqList)
        invariant RunPass(u0, sorted[..i], !corrected) == PassState(rep, keys, counts)
      {
        assert sorted[..i + 1][..i] == sorted[..i] && sorted[..i + 1][i] == sorted[i];
        rep := Merge(sorted[i], rep);
      }
      assert sorted[..|sorted|] == sorted;
    }

    /** One element of the pass: a Umi within the threshold either absorbs
        the representative and takes its place or is absorbed by it, and the
        absorbed key is popped. */
    method Merge(u: string, rep: Rep) returns (next: Rep)
      modifies this
      ensures seqList == old(seqList)
      ensures PassState(next, keys, counts) == Step(PassState(rep, old(keys), old(counts)), u, !corrected)
    {
      var repSeq := if rep.Sentinel? then "" else rep.s;
      var repCount := if rep.Sentinel? then rep.count else CountOf(counts, rep.s);
      var near := Hd(u, repSeq);
      ghost var st := PassState(rep, keys, counts);
      assert RepSeq(rep) == repSeq && RepCount(st) == repCount;
      next := rep;
      if near {
        if CountOf(counts, u) >= repCount {
          counts := counts[u := CountOf(counts, u) + repCount];
          if !(rep.Sentinel? && corrected) {
            keys := Remove(keys, repSeq);
          }
          next := Real(u);
        } else if rep.Sentinel? {
          next := Sentinel(rep.count + CountOf(counts, u));
          keys := Remove(keys, u);
        } else {
          counts := counts[rep.s := repCount + CountOf(counts, u)];
          keys := Remove(keys, u);
        }
      }
    }
  }
}
