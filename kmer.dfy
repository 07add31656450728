/** The unique k-mer scanner of src/naptrap/db_features/kmer_counter.py.
    A `Unique_counter` keeps a queue of `kmax` slots of recently recorded
    k-mers; each call shifts the queue by one slot, drops the offered
    k-mers still in the queue and puts each remaining one into the slot of
    its length, so a k-mer of length L stays in the queue for L - 1 further
    calls. `batch_kmers` offers, at every position of a reporter sequence,
    the k-mers starting there. */
module Kmer {
  import opened Common

  /** The two lists the object keeps: `kmer_queue` and `all_kmers`. */
  datatype Counter = Counter(queue: seq<seq<string>>, all: seq<seq<string>>)

  /** `[[] for n in range(kmax)]` */
  function EmptyQueue(kmax: int): (r: seq<seq<string>>)
    ensures |r| == if kmax < 0 then 0 else kmax
    ensures forall s :: 0 <= s < |r| ==> r[s] == []
  {
    seq(if kmax < 0 then 0 else kmax, _ => [])
  }

  function Fresh(kmax: int): Counter
  {
    Counter(EmptyQueue(kmax), [])
  }

  /** `kmer_queue[1:] + [[]]`: slot s takes what was in slot s + 1 and the
      last slot is empty; an empty queue gains its one slot here. */
  function Shift(q: seq<seq<string>>): (r: seq<seq<string>>)
    ensures |r| == if |q| == 0 then 1 else |q|
    ensures r[|r| - 1] == []
    ensures forall s :: 0 <= s < |r| - 1 ==> r[s] == q[s + 1]
  {
    (if |q| == 0 then [] else q[1..]) + [[]]
  }

  /** `stored_kmers`: every k-mer in some slot. */
  function Stored(q: seq<seq<string>>): (r: set<string>)
    ensures forall k :: k in r <==> exists s :: 0 <= s < |q| && k in q[s]
  {
    set s, k | 0 <= s < |q| && k in q[s] :: k
  }

  /** `[k for k in kmer_list if not k in all_kmers]` */
  function Unseen(ks: seq<string>, stored: set<string>): (r: seq<string>)
    ensures |r| <= |ks|
    ensures forall k :: k in r <==> k in ks && k !in stored
  {
    if |ks| == 0 then []
    else
      var rest := Unseen(ks[..|ks| - 1], stored);
      var k := ks[|ks| - 1];
      assert ks == ks[..|ks| - 1] + [k];
      if k in stored then rest else rest + [k]
  }

  /** The recording loop: each k-mer is appended to slot `len(k) - 1`
      (Python's negative index for the empty k-mer); an index outside the
      queue raises IndexError, with the earlier appends already made, which
      the second component reports as false. */
  function Record(q: seq<seq<string>>, ks: seq<string>): (r: (seq<seq<string>>, bool))
    ensures |r.0| == |q|
  {
    if |ks| == 0 then (q, true)
    else
      var prev := Record(q, ks[..|ks| - 1]);
      var k := ks[|ks| - 1];
      if !prev.1 then prev
      else
        match PyIndex(|k| - 1, |prev.0|)
        case None => (prev.0, false)
        case Some(i) => (prev.0[i := prev.0[i] + [k]], true)
  }

  /** `add_kmers`: the new state and whether the call returned normally;
      only a call that returns normally appends to `all_kmers`. */
  function Offer(c: Counter, ks: seq<string>): (r: (Counter, bool))
    ensures |r.0.queue| == if |c.queue| == 0 then 1 else |c.queue|
    ensures r.1 ==> r.0.all == c.all + [Unseen(ks, Stored(Shift(c.queue)))]
    ensures !r.1 ==> r.0.all == c.all
  {
    var q := Shift(c.queue);
    var kept := Unseen(ks, Stored(q));
    var rec := Record(q, kept);
    if rec.1 then (Counter(rec.0, c.all + [kept]), true) else (Counter(rec.0, c.all), false)
  }

  /** A counter made with `kmax` after the given calls, or None once a call
      raises. */
  function Run(kmax: int, calls: seq<seq<string>>): Option<Counter>
  {
    if |calls| == 0 then Some(Fresh(kmax))
    else
      match Run(kmax, calls[..|calls| - 1])
      case None => None
      case Some(c) =>
        var o := Offer(c, calls[|calls| - 1]);
        if o.1 then Some(o.0) else None
  }

  /** `get_kmer_counts`: one `(reporter_id, i, k)` per k-mer recorded at
      call i, calls in order. */
  function KmerCounts(rid: int, all: seq<seq<string>>): seq<(int, int, string)>
  {
    if |all| == 0 then []
    else
      var l := all[|all| - 1];
      KmerCounts(rid, all[..|all| - 1]) + seq(|l|, j requires 0 <= j < |l| => (rid, |all| - 1, l[j]))
  }

  lemma KmerCountsSnoc(rid: int, all: seq<seq<string>>, l: seq<string>)
    ensures KmerCounts(rid, all + [l]) == KmerCounts(rid, all) + seq(|l|, j requires 0 <= j < |l| => (rid, |all|, l[j]))
  {
    assert (all + [l])[..|all|] == all;
  }

  // ---------------------------------------------------------------------
  // The suppression window

  predicate Fits(ks: seq<string>, kmax: int)
  {
    forall j :: 0 <= j < |ks| ==> 1 <= |ks[j]| <= kmax
  }

  /** With every length between 1 and the number of slots, recording never
      raises and puts exactly the recorded k-mers into the slots of their
      lengths. */
  lemma {:induction false} RecordSlots(q: seq<seq<string>>, ks: seq<string>, s: nat, k: string)
    requires Fits(ks, |q|) && s < |q|
    ensures Record(q, ks).1
    ensures k in Record(q, ks).0[s] <==> k in q[s] || (k in ks && s == |k| - 1)
  {
    if |ks| > 0 {
      var init, x := ks[..|ks| - 1], ks[|ks| - 1];
      assert ks == init + [x];
      assert Fits(init, |q|) by {
        forall j | 0 <= j < |init| ensures 1 <= |init[j]| <= |q| {
          assert init[j] == ks[j];
        }
      }
      RecordSlots(q, init, s, k);
      assert 1 <= |x| <= |q|;
      assert k in ks <==> k in init || k == x;
    }
  }

  /** k-mer k was recorded |k| - 1 - s calls before the end of `all`. */
  predicate InWindow(all: seq<seq<string>>, k: string, s: int)
  {
    1 <= |k| && s <= |k| - 1 && 0 <= |all| - |k| + s && k in all[|all| - |k| + s]
  }

  /** What the queue of a counter with `kmax` slots holds: k-mer k sits in
      slot s exactly when it was recorded |k| - 1 - s calls ago, and every
      recorded k-mer has a length between 1 and `kmax`. */
  ghost predicate Windowed(c: Counter, kmax: nat)
  {
    && |c.queue| == kmax
    && (forall t, k :: 0 <= t < |c.all| && k in c.all[t] ==> 1 <= |k| <= kmax)
    && (forall s, k :: 0 <= s < kmax ==> (k in c.queue[s] <==> InWindow(c.all, k, s)))
  }

  lemma FreshWindowed(kmax: nat)
    ensures Windowed(Fresh(kmax), kmax)
  {
  }

  /** One slot and one k-mer of the window description after a call that
      recorded `kept` into queue `q'`. */
  lemma WindowSlot(hist: seq<seq<string>>, kept: seq<string>, kmax: nat, s: nat, k: string,
                   shifted: seq<string>, slot: seq<string>)
    requires Fits(kept, kmax) && s < kmax
    requires forall t :: 0 <= t < |hist| && k in hist[t] ==> |k| <= kmax
    requires s == kmax - 1 ==> shifted == []
    requires s < kmax - 1 ==>
      (k in shifted <==> InWindow(hist, k, s + 1))
    requires k in slot <==> k in shifted || (k in kept && s == |k| - 1)
    ensures var all := hist + [kept];
      k in slot <==> InWindow(all, k, s)
  {
    var all := hist + [kept];
    var t := |hist| + 1 - |k| + s;
    if 0 <= t < |hist| {
      assert all[t] == hist[t];
    }
    if k in kept {
      var m :| 0 <= m < |kept| && kept[m] == k;
    }
  }

  lemma KeptFits(ks: seq<string>, stored: set<string>, kmax: int)
    requires Fits(ks, kmax)
    ensures Fits(Unseen(ks, stored), kmax)
  {
    var kept := Unseen(ks, stored);
    forall j | 0 <= j < |kept| ensures 1 <= |kept[j]| <= kmax {
      assert kept[j] in kept;
      var m :| 0 <= m < |ks| && ks[m] == kept[j];
    }
  }

  lemma HistoryFits(all: seq<seq<string>>, kept: seq<string>, kmax: nat)
    requires forall t, k :: 0 <= t < |all| && k in all[t] ==> 1 <= |k| <= kmax
    requires Fits(kept, kmax)
    ensures forall t, k :: 0 <= t < |all + [kept]| && k in (all + [kept])[t] ==> 1 <= |k| <= kmax
  {
    forall t, k | 0 <= t < |all + [kept]| && k in (all + [kept])[t] ensures 1 <= |k| <= kmax {
      if t == |all| {
        var m :| 0 <= m < |kept| && kept[m] == k;
      } else {
        assert (all + [kept])[t] == all[t];
      }
    }
  }

  /** One slot and one k-mer of the window description after a call. */
  lemma SlotAfter(c: Counter, kmax: nat, kept: seq<string>, s: nat, k: string)
    requires kmax >= 1 && Windowed(c, kmax) && Fits(kept, kmax) && s < kmax
    ensures var all := c.all + [kept];
      k in Record(Shift(c.queue), kept).0[s] <==>
        InWindow(all, k, s)
  {
    RecordSlots(Shift(c.queue), kept, s, k);
    var shifted := Shift(c.queue)[s];
    if s < kmax - 1 {
      assert shifted == c.queue[s + 1];
    }
    WindowSlot(c.all, kept, kmax, s, k, shifted, Record(Shift(c.queue), kept).0[s]);
  }

  lemma AllSlotsAfter(c: Counter, kmax: nat, kept: seq<string>)
    requires kmax >= 1 && Windowed(c, kmax) && Fits(kept, kmax)
    ensures var q', all := Record(Shift(c.queue), kept).0, c.all + [kept];
      forall s, k :: 0 <= s < kmax ==>
        (k in q'[s] <==> InWindow(all, k, s))
  {
    forall s, k | 0 <= s < kmax
      ensures var q', all := Record(Shift(c.queue), kept).0, c.all + [kept];
        k in q'[s] <==> InWindow(all, k, s)
    {
      SlotAfter(c, kmax, kept, s, k);
    }
  }

  /** Recording `kept` into the shifted queue keeps the window
      description. */
  lemma SlotsAfter(c: Counter, kmax: nat, kept: seq<string>)
    requires kmax >= 1 && Windowed(c, kmax) && Fits(kept, kmax)
    ensures Windowed(Counter(Record(Shift(c.queue), kept).0, c.all + [kept]), kmax)
  {
    HistoryFits(c.all, kept, kmax);
    AllSlotsAfter(c, kmax, kept);
  }

  /** A call keeps the window description. */
  lemma OfferKeeps(c: Counter, kmax: nat, ks: seq<string>)
    requires kmax >= 1 && Windowed(c, kmax) && Fits(ks, kmax)
    ensures Offer(c, ks).1
    ensures Windowed(Offer(c, ks).0, kmax)
  {
    var q := Shift(c.queue);
    var kept := Unseen(ks, Stored(q));
    KeptFits(ks, Stored(q), kmax);
    RecordSlots(q, kept, 0, "");
    SlotsAfter(c, kmax, kept);
  }

  lemma StoredRecent(c: Counter, kmax: nat, k: string)
    requires kmax >= 1 && Windowed(c, kmax) && 1 <= |k| <= kmax
    requires k in Stored(Shift(c.queue))
    ensures exists t :: |c.all| - |k| < t < |c.all| && 0 <= t && k in c.all[t]
  {
    var q := Shift(c.queue);
    var s :| 0 <= s < |q| && k in q[s];
    assert s < kmax - 1 && q[s] == c.queue[s + 1];
    var t := |c.all| - |k| + s + 1;
    assert |c.all| - |k| < t < |c.all| && 0 <= t && k in c.all[t];
  }

  lemma RecentStored(c: Counter, kmax: nat, k: string, t: int)
    requires kmax >= 1 && Windowed(c, kmax) && 1 <= |k| <= kmax
    requires |c.all| - |k| < t < |c.all| && 0 <= t && k in c.all[t]
    ensures k in Stored(Shift(c.queue))
  {
    var q := Shift(c.queue);
    var s := t - |c.all| + |k| - 1;
    assert 0 <= s < kmax - 1;
    assert k in c.queue[s + 1];
    assert q[s] == c.queue[s + 1];
  }

  /** `stored_kmers` after the shift holds a k-mer exactly when it was
      recorded in one of the previous |k| - 1 calls. */
  lemma StoredIff(c: Counter, kmax: nat, k: string)
    requires kmax >= 1 && Windowed(c, kmax) && 1 <= |k| <= kmax
    ensures k in Stored(Shift(c.queue)) <==>
      exists t :: |c.all| - |k| < t < |c.all| && 0 <= t && k in c.all[t]
  {
    if k in Stored(Shift(c.queue)) {
      StoredRecent(c, kmax, k);
    }
    if exists t :: |c.all| - |k| < t < |c.all| && 0 <= t && k in c.all[t] {
      var t :| |c.all| - |k| < t < |c.all| && 0 <= t && k in c.all[t];
      RecentStored(c, kmax, k, t);
    }
  }

  lemma {:induction false} RunWindowed(kmax: nat, calls: seq<seq<string>>)
    requires kmax >= 1 && forall i :: 0 <= i < |calls| ==> Fits(calls[i], kmax)
    ensures Run(kmax, calls).Some? && Windowed(Run(kmax, calls).value, kmax)
    ensures |Run(kmax, calls).value.all| == |calls|
  {
    if |calls| == 0 {
      FreshWindowed(kmax);
    } else {
      var init := calls[..|calls| - 1];
      RunWindowed(kmax, init);
      OfferKeeps(Run(kmax, init).value, kmax, calls[|calls| - 1]);
    }
  }

  /** A run that returns normally has one history entry per call, and
      every recorded k-mer was offered at its call. */
  lemma {:induction false} RunAll(kmax: int, calls: seq<seq<string>>)
    requires Run(kmax, calls).Some?
    ensures |Run(kmax, calls).value.all| == |calls|
    ensures forall t, k :: 0 <= t < |calls| && k in Run(kmax, calls).value.all[t] ==> k in calls[t]
  {
    if |calls| > 0 {
      var init := calls[..|calls| - 1];
      var c := Run(kmax, init).value;
      RunAll(kmax, init);
      var all := Run(kmax, calls).value.all;
      assert all == c.all + [Unseen(calls[|calls| - 1], Stored(Shift(c.queue)))];
      forall t, k | 0 <= t < |calls| && k in all[t] ensures k in calls[t] {
        if t < |init| {
          assert all[t] == c.all[t];
          assert calls[t] == init[t];
        }
      }
    }
  }

  /** The history of a run extends the histories of its prefixes. */
  lemma {:induction false} RunPrefix(kmax: int, calls: seq<seq<string>>, m: nat)
    requires m <= |calls| && Run(kmax, calls).Some?
    ensures |Run(kmax, calls).value.all| == |calls|
    ensures Run(kmax, calls[..m]).Some?
    ensures Run(kmax, calls[..m]).value.all == Run(kmax, calls).value.all[..m]
    decreases |calls|
  {
    RunAll(kmax, calls);
    if m == |calls| {
      assert calls[..m] == calls;
    } else {
      var init := calls[..|calls| - 1];
      var c := Run(kmax, init).value;
      assert calls[..m] == init[..m];
      RunPrefix(kmax, init, m);
      RunAll(kmax, init);
      assert Run(kmax, calls).value.all == c.all + [Unseen(calls[|calls| - 1], Stored(Shift(c.queue)))];
    }
  }

  /** The suppression window: call n records a k-mer of length L (at most
      `kmax`) exactly when it is offered and was not recorded at any of the
      calls n - L + 1 .. n - 1. So a k-mer recorded at call i is suppressed
      at calls i + 1 .. i + L - 1 and recorded again at its next offer
      after that. */
  lemma RecordedIff(kmax: nat, calls: seq<seq<string>>, n: nat, k: string)
    requires kmax >= 1 && forall i :: 0 <= i < |calls| ==> Fits(calls[i], kmax)
    requires n < |calls| && 1 <= |k| <= kmax
    ensures Run(kmax, calls).Some? && |Run(kmax, calls).value.all| == |calls|
    ensures var all := Run(kmax, calls).value.all;
      k in all[n] <==> k in calls[n] && forall t :: n - |k| < t < n && 0 <= t ==> k !in all[t]
  {
    RunWindowed(kmax, calls);
    var all := Run(kmax, calls).value.all;
    RunAll(kmax, calls);
    RunPrefix(kmax, calls, n + 1);
    RunPrefix(kmax, calls, n);
    var pre := calls[..n + 1];
    assert pre[..n] == calls[..n];
    assert forall i :: 0 <= i < |calls[..n]| ==> Fits(calls[..n][i], kmax);
    RunWindowed(kmax, calls[..n]);
    var c := Run(kmax, calls[..n]).value;
    assert Run(kmax, pre).value == Offer(c, calls[n]).0;
    assert all[n] == Run(kmax, pre).value.all[n];
    StoredIff(c, kmax, k);
    assert forall t :: 0 <= t < n ==> c.all[t] == all[t];
  }

  /** Each call appends exactly one list, so the positions of
      `get_kmer_counts` are call indices; its triples are exactly the
      recorded k-mers. */
  lemma {:induction false} KmerCountsIff(rid: int, all: seq<seq<string>>, x: (int, int, string))
    ensures x in KmerCounts(rid, all) <==> x.0 == rid && 0 <= x.1 < |all| && x.2 in all[x.1]
  {
    if |all| > 0 {
      var init, l := all[..|all| - 1], all[|all| - 1];
      KmerCountsIff(rid, init, x);
      var tail := seq(|l|, j requires 0 <= j < |l| => (rid, |all| - 1, l[j]));
      if x in tail {
        var j :| 0 <= j < |l| && tail[j] == x;
      }
      if x.0 == rid && x.1 == |all| - 1 && x.2 in l {
        var j :| 0 <= j < |l| && l[j] == x.2;
        assert tail[j] == x;
      }
      if 0 <= x.1 < |init| {
        assert init[x.1] == all[x.1];
      }
    }
  }

  // ---------------------------------------------------------------------
  // The object

  class UniqueCounter {
    var kmax: int
    var reporterId: int
    var kmerQueue: seq<seq<string>>
    var allKmers: seq<seq<string>>

    function State(): Counter
      reads this
    {
      Counter(kmerQueue, allKmers)
    }

    /** `stored_kmers` */
    function StoredKmers(): set<string>
      reads this
    {
      Stored(kmerQueue)
    }

    constructor (kmax: int, reporterId: int)
      ensures this.kmax == kmax && this.reporterId == reporterId
      ensures State() == Fresh(kmax)
    {
      this.kmax := kmax;
      this.reporterId := reporterId;
      kmerQueue := EmptyQueue(kmax);
      allKmers := [];
    }

    /** `add_kmers`; false is the IndexError of a k-mer longer than the
        queue, raised after the appends before it. */
    method AddKmers(kmerList: seq<string>) returns (ok: bool)
      modifies this
      ensures kmax == old(kmax) && reporterId == old(reporterId)
      ensures (State(), ok) == Offer(old(State()), kmerList)
    {
      kmerQueue := Shift(kmerQueue);
      ghost var q0 := kmerQueue;
      var stored := StoredKmers();
      var kept: seq<string> := [];
      for i := 0 to |kmerList|
        invariant kept == Unseen(kmerList[..i], stored)
      {
        assert kmerList[..i + 1][..i] == kmerList[..i];
        if kmerList[i] !in stored {
          kept := kept + [kmerList[i]];
        }
      }
      assert kmerList[..|kmerList|] == kmerList;
      for i := 0 to |kept|
        invariant kmax == old(kmax) && reporterId == old(reporterId) && allKmers == old(allKmers)
        invariant Record(q0, kept[..i]) == (kmerQueue, true)
      {
        assert kept[..i + 1][..i] == kept[..i];
        var k := kept[i];
        var slot := PyIndex(|k| - 1, |kmerQueue|);
        if slot.None? {
          assert Record(q0, kept[..i + 1]) == (kmerQueue, false);
          StopRecording(q0, kept, i + 1);
          return false;
        }
        kmerQueue := kmerQueue[slot.value := kmerQueue[slot.value] + [k]];
      }
      assert kept[..|kept|] == kept;
      allKmers := allKmers + [kept];
      return true;
    }

    /** `get_kmer_counts` */
    method GetKmerCounts() returns (r: seq<(int, int, string)>)
      ensures r == KmerCounts(reporterId, allKmers)
    {
      var rid, all := reporterId, allKmers;
      r := [];
      for i := 0 to |all|
        invariant r == KmerCounts(rid, all[..i])
      {
        assert all[..i + 1] == all[..i] + [all[i]];
        KmerCountsSnoc(rid, all[..i], all[i]);
        var l := all[i];
        ghost var r0 := r;
        for j := 0 to |l|
          invariant r == r0 + seq(j, m requires 0 <= m < j => (rid, i, l[m]))
        {
          r := r + [(rid, i, l[j])];
        }
      }
      assert all[..|all|] == all;
    }
  }

  /** Once recording has failed, later k-mers change nothing. */
  lemma {:induction false} StopRecording(q: seq<seq<string>>, ks: seq<string>, i: nat)
    requires i <= |ks| && !Record(q, ks[..i]).1
    ensures Record(q, ks) == Record(q, ks[..i])
    decreases |ks| - i
  {
    if i < |ks| {
      assert ks[..i + 1][..i] == ks[..i];
      StopRecording(q, ks, i + 1);
    } else {
      assert ks[..i] == ks;
    }
  }

  // ---------------------------------------------------------------------
  // batch_kmers

  /** The k-mers offered at position i: `seq[i:i+x]` for x = 1 .. km,
      with km the distance to the end when `kmax` would run past it. */
  function Offers(s: string, i: nat, kmax: int): (r: seq<string>)
    requires i < |s|
    ensures |r| == if kmax < 0 then 0 else if i + kmax > |s| then |s| - i else kmax
    ensures forall j :: 0 <= j < |r| ==> i + j + 1 <= |s| && |r[j]| == j + 1 && r[j] == s[i..i + j + 1]
  {
    var km := if i + kmax > |s| then |s| - i else kmax;
    seq(if km < 0 then 0 else km, x requires 0 <= x < (if km < 0 then 0 else km) => s[i..i + x + 1])
  }

  function Scan(s: string, kmax: int): (r: seq<seq<string>>)
    ensures |r| == |s|
    ensures forall i :: 0 <= i < |s| ==> r[i] == Offers(s, i, kmax)
  {
    seq(|s|, i requires 0 <= i < |s| => Offers(s, i, kmax))
  }

  /** The triples one reporter contributes, or None if a call raised. */
  function ReporterRows(rid: int, s: string, kmax: int): Option<seq<(int, int, string)>>
  {
    match Run(kmax, Scan(s, kmax))
    case None => None
    case Some(c) => Some(KmerCounts(rid, c.all))
  }

  const KmerIds: seq<string> := ["reporter_id", "position", "kmer"]

  const NoCounter := "UnboundLocalError: ucounter"

  function BatchRows(reporters: seq<(int, string)>, kmax: int): Option<seq<(int, int, string)>>
  {
    if |reporters| == 0 then Some([])
    else
      match BatchRows(reporters[..|reporters| - 1], kmax)
      case None => None
      case Some(rows) =>
        var last := reporters[|reporters| - 1];
        match ReporterRows(last.0, last.1, kmax)
        case None => None
        case Some(more) => Some(rows + more)
  }

  /** `batch_kmers`: an empty reporter list reaches `ucounter.kmer_ids`
      with `ucounter` never bound. */
  function Batch(reporters: seq<(int, string)>, kmax: int): Result<(seq<string>, seq<(int, int, string)>)>
  {
    if |reporters| == 0 then Err(NoCounter)
    else
      match BatchRows(reporters, kmax)
      case None => Err("list index out of range")
      case Some(rows) => Ok((KmerIds, rows))
  }

  /** With `kmax` at most 0 nothing is ever offered. */
  lemma {:induction false} RunEmptyCalls(kmax: int, calls: seq<seq<string>>)
    requires forall i :: 0 <= i < |calls| ==> calls[i] == []
    ensures Run(kmax, calls).Some?
  {
    if |calls| > 0 {
      RunEmptyCalls(kmax, calls[..|calls| - 1]);
    }
  }

  lemma ScanFits(s: string, kmax: int)
    ensures forall i :: 0 <= i < |s| ==> Fits(Scan(s, kmax)[i], kmax)
  {
  }

  lemma ReporterNeverRaises(rid: int, s: string, kmax: int)
    ensures ReporterRows(rid, s, kmax).Some?
  {
    if kmax >= 1 {
      ScanFits(s, kmax);
      RunWindowed(kmax, Scan(s, kmax));
    } else {
      RunEmptyCalls(kmax, Scan(s, kmax));
    }
  }

  /** A k-mer offered at position i is the piece of the sequence there,
      of length between 1 and `kmax`. */
  lemma OffersMember(s: string, i: nat, kmax: int, k: string)
    requires i < |s| && k in Offers(s, i, kmax)
    ensures 1 <= |k| <= kmax && i + |k| <= |s| && s[i..i + |k|] == k
  {
    var offers := Offers(s, i, kmax);
    var j :| 0 <= j < |offers| && offers[j] == k;
  }

  /** Every triple of a reporter is a k-mer of its sequence at that
      position, of length between 1 and `kmax`. */
  lemma ReporterRowsSound(rid: int, s: string, kmax: int, x: (int, int, string))
    requires ReporterRows(rid, s, kmax).Some? && x in ReporterRows(rid, s, kmax).value
    ensures x.0 == rid && 0 <= x.1 < |s|
    ensures 1 <= |x.2| <= kmax && x.1 + |x.2| <= |s| && s[x.1..x.1 + |x.2|] == x.2
  {
    var calls := Scan(s, kmax);
    var all := Run(kmax, calls).value.all;
    KmerCountsIff(rid, all, x);
    RunAll(kmax, calls);
    assert x.2 in calls[x.1];
    OffersMember(s, x.1, kmax, x.2);
  }

  /** Triple x is the k-mer of reporter m found at its position. */
  predicate FoundIn(x: (int, int, string), reporters: seq<(int, string)>, m: int, kmax: int)
  {
    && 0 <= m < |reporters| && x.0 == reporters[m].0 && 0 <= x.1
    && 1 <= |x.2| <= kmax && x.1 + |x.2| <= |reporters[m].1|
    && reporters[m].1[x.1..x.1 + |x.2|] == x.2
  }

  lemma {:induction false} BatchRowsSound(reporters: seq<(int, string)>, kmax: int)
    ensures BatchRows(reporters, kmax).Some?
    ensures forall x :: x in BatchRows(reporters, kmax).value ==> exists m :: FoundIn(x, reporters, m, kmax)
  {
    if |reporters| > 0 {
      var init, last := reporters[..|reporters| - 1], reporters[|reporters| - 1];
      BatchRowsSound(init, kmax);
      ReporterNeverRaises(last.0, last.1, kmax);
      var rows := BatchRows(init, kmax).value;
      var more := ReporterRows(last.0, last.1, kmax).value;
      forall x | x in BatchRows(reporters, kmax).value
        ensures exists m :: FoundIn(x, reporters, m, kmax)
      {
        if x in rows {
          var m :| FoundIn(x, init, m, kmax);
          assert reporters[m] == init[m];
          assert FoundIn(x, reporters, m, kmax);
        } else {
          assert x in more;
          ReporterRowsSound(last.0, last.1, kmax, x);
          assert FoundIn(x, reporters, |reporters| - 1, kmax);
        }
      }
    }
  }

  /** `batch_kmers` raises only on an empty reporter list, and every triple
      it returns is a k-mer found at its position. */
  lemma BatchSpec(reporters: seq<(int, string)>, kmax: int)
    ensures Batch(reporters, kmax).Ok? <==> |reporters| > 0
    ensures Batch(reporters, kmax).Err? ==> Batch(reporters, kmax).msg == NoCounter
    ensures Batch(reporters, kmax).Ok? ==> Batch(reporters, kmax).value.0 == KmerIds
    ensures Batch(reporters, kmax).Ok? ==>
      forall x :: x in Batch(reporters, kmax).value.1 ==> exists m :: FoundIn(x, reporters, m, kmax)
  {
    BatchRowsSound(reporters, kmax);
  }

  lemma RunStep(kmax: int, calls: seq<seq<string>>, i: nat)
    requires i < |calls| && Run(kmax, calls[..i]).Some?
    ensures var o := Offer(Run(kmax, calls[..i]).value, calls[i]);
      Run(kmax, calls[..i + 1]) == if o.1 then Some(o.0) else None
  {
    assert calls[..i + 1][..i] == calls[..i];
  }

  /** The inner loop of `batch_kmers`: a fresh counter offered the k-mers
      of every position in turn. */
  method ScanReporter(rid: int, s: string, kmax: int) returns (more: seq<(int, int, string)>)
    ensures ReporterRows(rid, s, kmax) == Some(more)
  {
    var counter := new UniqueCounter(kmax, rid);
    ghost var calls := Scan(s, kmax);
    ReporterNeverRaises(rid, s, kmax);
    for i := 0 to |s|
      invariant counter.kmax == kmax && counter.reporterId == rid
      invariant Run(kmax, calls[..i]) == Some(counter.State())
    {
      RunStep(kmax, calls, i);
      var kmers := Offers(s, i, kmax);
      var ok := counter.AddKmers(kmers);
      if !ok {
        RunPrefix(kmax, calls, i + 1);
        assert false;
      }
    }
    assert calls[..|s|] == calls;
    more := counter.GetKmerCounts();
  }

  /** The loop of `batch_kmers` over the reporters. */
  method BatchKmers(reporters: seq<(int, string)>, kmax: int) returns (r: Result<(seq<string>, seq<(int, int, string)>)>)
    ensures r == Batch(reporters, kmax)
  {
    if |reporters| == 0 {
      return Err(NoCounter);
    }
    var rows: seq<(int, int, string)> := [];
    for m := 0 to |reporters|
      invariant BatchRows(reporters[..m], kmax) == Some(rows)
    {
      assert reporters[..m + 1][..m] == reporters[..m];
      var more := ScanReporter(reporters[m].0, reporters[m].1, kmax);
      rows := rows + more;
    }
    assert reporters[..|reporters|] == reporters;
    return Ok((KmerIds, rows));
  }

  // ---------------------------------------------------------------------
  // to_db

  /** The feature-row loop of `to_db`: one feature per grouped
      `(rid, kmer, count)` row, named `'{kmer}_count'` and typed
      `'count_{len}mer'`, in row order. */
  method KmerFeatures(kmerCounts: seq<(int, string, int)>)
    returns (names: seq<string>, rids: seq<int>, data: seq<int>, types: seq<string>)
    ensures |names| == |rids| == |data| == |types| == |kmerCounts|
    ensures forall i :: 0 <= i < |kmerCounts| ==>
      names[i] == kmerCounts[i].1 + "_count" && rids[i] == kmerCounts[i].0
      && data[i] == kmerCounts[i].2 && types[i] == "count_" + NatToString(|kmerCounts[i].1|) + "mer"
  {
    names, rids, data, types := [], [], [], [];
    for i := 0 to |kmerCounts|
      invariant |names| == |rids| == |data| == |types| == i
      invariant forall j :: 0 <= j < i ==>
        names[j] == kmerCounts[j].1 + "_count" && rids[j] == kmerCounts[j].0
        && data[j] == kmerCounts[j].2 && types[j] == "count_" + NatToString(|kmerCounts[j].1|) + "mer"
    {
      var row := kmerCounts[i];
      names := names + [row.1 + "_count"];
      rids := rids + [row.0];
      data := data + [row.2];
      types := types + ["count_" + NatToString(|row.1|) + "mer"];
    }
  }
}
