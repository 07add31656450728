/** The ORF scanner of src/mpradb/db_features/orf_finder.py. A walk over
    the positions of a reporter sequence keeps three lists of ORFs, one per
    reading frame relative to the main ORF start; at each position the open
    ORFs of that position's frame take its codon (closing on a stop codon)
    and a start codon upstream of the main ORF opens a new ORF. The walk
    ends once no ORF is open past the main start.

    An ORF object is referred to only from the list of its frame, so it is
    modelled as a value that the walk replaces in its list. */
module OrfFinder {
  import opened Common
  import opened Kozak

  /** A value read off an ORF by `orf_stats`. */
  datatype Stat = SInt(i: int) | SStr(s: string)

  /** The attributes of an `ORF` object (`bases` is its `seq`); `type` and
      `length` are only set by `orf_complete`, and each `kozak_score_<id>`
      attribute sits in `scores`. */
  datatype Orf = Orf(
    start: int, startCodon: string, kozakSeq: string, frame: int, frameType: string,
    stop: int, bases: string, status: int, reporterId: int,
    orfType: Option<string>, length: Option<int>,
    orfIds: seq<string>, scores: map<string, int>)

  const BaseIds: seq<string> :=
    ["reporter_id", "type", "start_codon", "start", "stop", "frame", "frame_type", "kozak_seq", "seq", "length"]

  const Stops: seq<string> := ["TAA", "TAG", "TGA"]

  function FrameType(frame: int): string
  {
    if frame == 0 then "in_frame" else "out_of_frame"
  }

  function ScoreId(kozakId: string): string
  {
    "kozak_score_" + kozakId
  }

  /** The score columns of a kozak lookup, in lookup order. */
  function ScoreIds(lookup: seq<(string, Matrix)>): seq<string>
  {
    seq(|lookup|, j requires 0 <= j < |lookup| => ScoreId(lookup[j].0))
  }

  /** Every lookup entry has its score attribute. */
  predicate HasScores(o: Orf, lookup: seq<(string, Matrix)>)
  {
    forall j :: 0 <= j < |lookup| ==> ScoreId(lookup[j].0) in o.scores
  }

  /** `add_kozak_score`: one score attribute and one `orf_ids` entry per
      lookup entry, in lookup order; a scoring error propagates. */
  function WithScores(o: Orf, lookup: seq<(string, Matrix)>): (r: Result<Orf>)
    ensures r.Ok? ==> r.value.orfIds == o.orfIds + ScoreIds(lookup)
    ensures r.Ok? ==> r.value == o.(orfIds := r.value.orfIds, scores := r.value.scores)
    ensures r.Ok? ==> o.scores.Keys <= r.value.scores.Keys && HasScores(r.value, lookup)
  {
    if |lookup| == 0 then Ok(o)
    else
      match WithScores(o, lookup[..|lookup| - 1])
      case Err(m) => Err(m)
      case Ok(p) =>
        var (id, fm) := lookup[|lookup| - 1];
        match KozakScore(p.kozakSeq, fm)
        case Err(m) => Err(m)
        case Ok(v) => Ok(p.(scores := p.scores[ScoreId(id) := v], orfIds := p.orfIds + [ScoreId(id)]))
  }

  /** `ORF(start, kozak_seq, frame, reporter_id, kozak_lookup)` given the
      start codon it records (`kozak_seq[9:12]` as written). */
  function NewOrf(start: int, startCodon: string, kozakSeq: string, frame: int, rid: int,
                  lookup: seq<(string, Matrix)>): Result<Orf>
  {
    WithScores(Orf(start, startCodon, kozakSeq, frame, FrameType(frame), start, startCodon, 1, rid,
                   None, None, BaseIds, map[]), lookup)
  }

  /** `add_codon` */
  function AddCodon(o: Orf, codon: string): Orf
  {
    o.(bases := o.bases + codon, stop := o.stop + 3)
  }

  /** `orf_complete` */
  function Complete(o: Orf, stopCodon: string, orfType: string): Orf
  {
    var s := o.bases + stopCodon;
    o.(status := 0, bases := s, stop := o.stop + 3, orfType := Some(orfType), length := Some(|s|),
       frameType := if orfType == "uorf" then "all" else o.frameType)
  }

  /** `getattr(self, x)` */
  function Attr(o: Orf, x: string): Result<Stat>
  {
    if x == "reporter_id" then Ok(SInt(o.reporterId))
    else if x == "type" then (if o.orfType.Some? then Ok(SStr(o.orfType.value)) else Err("'ORF' object has no attribute 'type'"))
    else if x == "start_codon" then Ok(SStr(o.startCodon))
    else if x == "start" then Ok(SInt(o.start))
    else if x == "stop" then Ok(SInt(o.stop))
    else if x == "frame" then Ok(SInt(o.frame))
    else if x == "frame_type" then Ok(SStr(o.frameType))
    else if x == "kozak_seq" then Ok(SStr(o.kozakSeq))
    else if x == "seq" then Ok(SStr(o.bases))
    else if x == "length" then (if o.length.Some? then Ok(SInt(o.length.value)) else Err("'ORF' object has no attribute 'length'"))
    else if x in o.scores then Ok(SInt(o.scores[x]))
    else Err("'ORF' object has no attribute '" + x + "'")
  }

  /** `orf_stats`: one value per entry of `orf_ids`. */
  function StatsOf(o: Orf, ids: seq<string>): (r: Result<seq<Stat>>)
    ensures r.Ok? ==> |r.value| == |ids|
  {
    if |ids| == 0 then Ok([])
    else
      match StatsOf(o, ids[..|ids| - 1])
      case Err(m) => Err(m)
      case Ok(vs) =>
        match Attr(o, ids[|ids| - 1])
        case Err(m) => Err(m)
        case Ok(v) => Ok(vs + [v])
  }

  // ---------------------------------------------------------------------
  // find_orfs

  /** `(main_orf_start - n) % 3`, turned into the distance from the main
      frame. */
  function FrameOf(n: int, main: int): (r: nat)
    ensures r < 3
  {
    var f := (main - n) % 3;
    if f != 0 then 3 - f else f
  }

  /** The frame of position n is `(n - main_orf_start) mod 3`. */
  lemma FrameIsOffset(n: int, main: int)
    ensures FrameOf(n, main) == (n - main) % 3
  {
    var d := n - main;
    var q := d / 3;
    assert d == 3 * q + d % 3;
    assert -d == 3 * (-q - 1) + (3 - d % 3);
    if d % 3 == 0 {
      assert -d == 3 * (-q);
    }
  }

  function Codon(s: string, n: int): string
  {
    PySlice(s, n, n + 3)
  }

  function OpenCount(l: seq<Orf>): int
  {
    if |l| == 0 then 0 else OpenCount(l[..|l| - 1]) + l[|l| - 1].status
  }

  /** What the inner loop does to one ORF of the current frame. */
  function Advance(o: Orf, codon: string, upstream: bool): Orf
  {
    if o.status != 1 then o
    else if codon !in Stops then AddCodon(o, codon)
    else Complete(o, codon, if upstream then "uorf" else "oorf")
  }

  function AdvanceAll(l: seq<Orf>, codon: string, upstream: bool): (r: seq<Orf>)
    ensures |r| == |l|
    ensures forall j :: 0 <= j < |l| ==> r[j] == Advance(l[j], codon, upstream)
  {
    seq(|l|, j requires 0 <= j < |l| => Advance(l[j], codon, upstream))
  }

  /** The first index of the kozak window of a start codon at n: `n - 9`
      as written, which Python reads from the end of the sequence when
      negative; the corrected window starts at 0 instead. */
  function KozakFrom(n: int, corrected: bool): int
  {
    if corrected && n < 9 then 0 else n - 9
  }

  /** The inputs of a scan. */
  datatype Scan = Scan(s: string, rid: int, main: int, lookup: seq<(string, Matrix)>,
                       starts: seq<string>, corrected: bool)

  /** The ORF a start codon at n opens: as written its start codon is
      `kozak_seq[9:12]`, corrected it is the codon at n. */
  function Opened(sc: Scan, n: int): Result<Orf>
  {
    var kozak := PySlice(sc.s, KozakFrom(n, sc.corrected), n + 6);
    var startCodon := if sc.corrected then Codon(sc.s, n) else PySlice(kozak, 9, 12);
    NewOrf(n, startCodon, kozak, FrameOf(n, sc.main), sc.rid, sc.lookup)
  }

  /** One position of the walk: the new frame lists and whether the walk
      stops here. */
  function StepAt(sc: Scan, n: int, orfs: seq<seq<Orf>>): Result<(seq<seq<Orf>>, bool)>
    requires |orfs| == 3
  {
    var frame := FrameOf(n, sc.main);
    var codon := Codon(sc.s, n);
    if OpenCount(orfs[0]) + OpenCount(orfs[1]) + OpenCount(orfs[2]) == 0 && n > sc.main - 3 then
      Ok((orfs, true))
    else
      var orfs1 := if OpenCount(orfs[frame]) > 0 then orfs[frame := AdvanceAll(orfs[frame], codon, n < sc.main)] else orfs;
      if codon in sc.starts && n < sc.main then
        match Opened(sc, n)
        case Err(m) => Err(m)
        case Ok(o) => Ok((orfs1[frame := orfs1[frame] + [o]], false))
      else Ok((orfs1, false))
  }

  /** The frame lists after positions 0 .. n - 1, and whether the walk has
      stopped. */
  function ScanTo(sc: Scan, n: nat): (r: Result<(seq<seq<Orf>>, bool)>)
    ensures r.Ok? ==> |r.value.0| == 3
  {
    if n == 0 then Ok(([[], [], []], false))
    else
      match ScanTo(sc, n - 1)
      case Err(m) => Err(m)
      case Ok((orfs, stopped)) =>
        if stopped then Ok((orfs, true)) else StepAt(sc, n - 1, orfs)
  }

  /** `find_orfs`: the ORFs of frame 0, then 1, then 2. */
  function FindOrfsOf(sc: Scan): Result<seq<Orf>>
  {
    match ScanTo(sc, |sc.s|)
    case Err(m) => Err(m)
    case Ok((orfs, _)) => Ok(orfs[0] + orfs[1] + orfs[2])
  }

  // ---------------------------------------------------------------------
  // The methods

  /** `add_kozak_score` as the loop over the lookup. */
  method AddKozakScore(o: Orf, lookup: seq<(string, Matrix)>) returns (r: Result<Orf>)
    ensures r == WithScores(o, lookup)
  {
    var p := o;
    for j := 0 to |lookup|
      invariant WithScores(o, lookup[..j]) == Ok(p)
    {
      assert lookup[..j + 1][..j] == lookup[..j];
      var (id, fm) := lookup[j];
      var score := GetKozakScore(p.kozakSeq, fm);
      if score.Err? {
        ScoresStayErr(o, lookup, j + 1);
        return Err(score.msg);
      }
      var scoreId := ScoreId(id);
      p := p.(scores := p.scores[scoreId := score.value], orfIds := p.orfIds + [scoreId]);
    }
    assert lookup[..|lookup|] == lookup;
    return Ok(p);
  }

  lemma {:induction false} ScoresStayErr(o: Orf, lookup: seq<(string, Matrix)>, j: nat)
    requires j <= |lookup| && WithScores(o, lookup[..j]).Err?
    ensures WithScores(o, lookup) == WithScores(o, lookup[..j])
    decreases |lookup| - j
  {
    if j < |lookup| {
      assert lookup[..j + 1][..j] == lookup[..j];
      ScoresStayErr(o, lookup, j + 1);
    } else {
      assert lookup[..j] == lookup;
    }
  }

  /** The inner loop of `find_orfs` over the ORFs of one frame. */
  method AdvanceFrame(l: seq<Orf>, codon: string, upstream: bool) returns (r: seq<Orf>)
    ensures r == AdvanceAll(l, codon, upstream)
  {
    r := [];
    for j := 0 to |l|
      invariant |r| == j && forall m :: 0 <= m < j ==> r[m] == Advance(l[m], codon, upstream)
    {
      var o := l[j];
      if o.status == 1 {
        if codon !in Stops {
          o := AddCodon(o, codon);
        } else {
          var orfType := if upstream then "uorf" else "oorf";
          o := Complete(o, codon, orfType);
        }
      }
      r := r + [o];
    }
  }

  lemma {:induction false} ScanStays(sc: Scan, m: nat, n: nat)
    requires m <= n && (ScanTo(sc, m).Err? || ScanTo(sc, m).value.1)
    ensures ScanTo(sc, n) == ScanTo(sc, m)
    decreases n - m
  {
    if m < n {
      ScanStays(sc, m, n - 1);
    }
  }

  /** One iteration of the walk of `find_orfs`. */
  method Walk(sc: Scan, n: int, orfs: seq<seq<Orf>>) returns (r: Result<(seq<seq<Orf>>, bool)>)
    requires |orfs| == 3
    ensures r == StepAt(sc, n, orfs)
  {
    var frame := FrameOf(n, sc.main);
    var codon := PySlice(sc.s, n, n + 3);
    if OpenCount(orfs[0]) + OpenCount(orfs[1]) + OpenCount(orfs[2]) == 0 && n > sc.main - 3 {
      return Ok((orfs, true));
    }
    var next := orfs;
    if OpenCount(orfs[frame]) > 0 {
      var advanced := AdvanceFrame(orfs[frame], codon, n < sc.main);
      next := next[frame := advanced];
    }
    if codon in sc.starts && n < sc.main {
      var kozak := PySlice(sc.s, KozakFrom(n, sc.corrected), n + 6);
      var startCodon := if sc.corrected then codon else PySlice(kozak, 9, 12);
      var o := AddKozakScore(Orf(n, startCodon, kozak, frame, FrameType(frame), n, startCodon, 1, sc.rid,
                                 None, None, BaseIds, map[]), sc.lookup);
      if o.Err? {
        return Err(o.msg);
      }
      next := next[frame := next[frame] + [o.value]];
    }
    return Ok((next, false));
  }

  /** `find_orfs`, with the walk exited by `break`. */
  method FindOrfs(sc: Scan) returns (r: Result<seq<Orf>>)
    ensures r == FindOrfsOf(sc)
  {
    var orfs: seq<seq<Orf>> := [[], [], []];
    var n := 0;
    while n < |sc.s|
      invariant 0 <= n <= |sc.s| && ScanTo(sc, n) == Ok((orfs, false))
      decreases |sc.s| - n
    {
      var step := Walk(sc, n, orfs);
      ScanNext(sc, n, orfs);
      if step.Err? || step.value.1 {
        ScanEndsAt(sc, n, orfs);
        if step.Err? {
          return Err(step.msg);
        }
        break;
      }
      orfs := step.value.0;
      n := n + 1;
    }
    return Ok(orfs[0] + orfs[1] + orfs[2]);
  }

  lemma ScanNext(sc: Scan, n: nat, orfs: seq<seq<Orf>>)
    requires ScanTo(sc, n) == Ok((orfs, false))
    ensures ScanTo(sc, n + 1) == StepAt(sc, n, orfs)
  {
  }

  /** A walk that fails or stops at n gives the result of `find_orfs`. */
  lemma ScanEndsAt(sc: Scan, n: nat, orfs: seq<seq<Orf>>)
    requires n < |sc.s| && ScanTo(sc, n) == Ok((orfs, false))
    requires StepAt(sc, n, orfs).Err? || StepAt(sc, n, orfs).value.1
    ensures StepAt(sc, n, orfs).Err? ==> FindOrfsOf(sc) == Err(StepAt(sc, n, orfs).msg)
    ensures StepAt(sc, n, orfs).Ok? ==> FindOrfsOf(sc) == Ok(orfs[0] + orfs[1] + orfs[2])
  {
    ScanNext(sc, n, orfs);
    ScanStays(sc, n + 1, |sc.s|);
    if StepAt(sc, n, orfs).Ok? {
      StepStops(sc, n, orfs);
    }
  }

  // ---------------------------------------------------------------------
  // What the walk keeps

  /** Where the bases of an ORF come from: the span of the sequence from
      its start codon to the end of its last codon, and, as written, for a
      start before position 9 of a sequence of 15 bases or more, that span
      without its start codon. */
  ghost predicate BasesOk(sc: Scan, o: Orf)
  {
    && (sc.corrected || o.start >= 9 ==>
          o.bases == PySlice(sc.s, o.start, o.stop + 3) && o.startCodon == Codon(sc.s, o.start))
    && (!sc.corrected && o.start < 9 && |sc.s| >= 15 ==>
          o.startCodon == "" && o.bases == PySlice(sc.s, o.start + 3, o.stop + 3))
  }

  /** An ORF of frame list f after positions 0 .. n - 1. */
  ghost predicate OrfOk(sc: Scan, n: int, f: int, o: Orf)
  {
    Anchored(sc, f, o) && Progress(sc, n, o) && BasesOk(sc, o) && FirstStop(sc, o)
  }

  /** No codon of the ORF's frame after its start codon and before its
      stop is a stop codon, and for an open ORF not the one at its stop
      either: a closed ORF closes on the first in-frame stop codon, and an
      open one has met none. */
  ghost predicate FirstStop(sc: Scan, o: Orf)
  {
    forall j :: o.start < j < (if o.status == 1 then o.stop + 1 else o.stop) && (j - o.start) % 3 == 0 ==>
      Codon(sc.s, j) !in Stops
  }

  /** The next position of a frame after b is b + 3. */
  lemma NextInFrame(a: int, b: int, j: int)
    requires (b - a) % 3 == 0 && (j - a) % 3 == 0 && b < j <= b + 3
    ensures j == b + 3
  {
    var p, q := (j - a) / 3, (b - a) / 3;
    assert j - b == 3 * (p - q);
  }

  /** What an ORF keeps from its opening on: frame, start, reporter,
      attribute names, scores and Kozak window. */
  ghost predicate Anchored(sc: Scan, f: int, o: Orf)
  {
    && o.frame == f && FrameOf(o.start, sc.main) == f
    && 0 <= o.start < sc.main && Codon(sc.s, o.start) in sc.starts
    && o.reporterId == sc.rid && o.orfIds == BaseIds + ScoreIds(sc.lookup) && HasScores(o, sc.lookup)
    && o.kozakSeq == PySlice(sc.s, KozakFrom(o.start, sc.corrected), o.start + 6)
  }

  /** How far an ORF has grown after positions 0 .. n - 1, and what its
      closing set. */
  ghost predicate Progress(sc: Scan, n: int, o: Orf)
  {
    && o.start <= o.stop < n && (o.stop - o.start) % 3 == 0
    && (o.status == 1 || o.status == 0)
    && (o.status == 1 ==> n <= o.stop + 3 && o.orfType.None? && o.length.None?)
    && (o.status == 0 ==>
          && o.orfType == Some(if o.stop < sc.main then "uorf" else "oorf")
          && o.length == Some(|o.bases|) && Codon(sc.s, o.stop) in Stops)
    && o.frameType == (if o.orfType == Some("uorf") then "all" else FrameType(o.frame))
  }

  lemma AnchoredKept(sc: Scan, f: int, o: Orf, c: Orf)
    requires Anchored(sc, f, o)
    requires c.frame == o.frame && c.start == o.start && c.reporterId == o.reporterId
    requires c.orfIds == o.orfIds && c.scores == o.scores && c.kozakSeq == o.kozakSeq
    ensures Anchored(sc, f, c)
  {
  }

  ghost predicate WalkOk(sc: Scan, n: int, orfs: seq<seq<Orf>>)
  {
    |orfs| == 3 && AllOk(sc, n, orfs) && Ordered(orfs)
  }

  ghost predicate AllOk(sc: Scan, n: int, orfs: seq<seq<Orf>>)
    requires |orfs| == 3
  {
    forall f, i :: 0 <= f < 3 && 0 <= i < |orfs[f]| ==> OrfOk(sc, n, f, orfs[f][i])
  }

  /** Within each frame list the ORFs are in the order of their starts. */
  predicate Ordered(orfs: seq<seq<Orf>>)
    requires |orfs| == 3
  {
    forall f, i, j :: 0 <= f < 3 && 0 <= i < j < |orfs[f]| ==> orfs[f][i].start < orfs[f][j].start
  }

  lemma SameFrame(a: int, b: int, main: int)
    ensures FrameOf(a, main) == FrameOf(b, main) <==> (a - b) % 3 == 0
  {
    FrameIsOffset(a, main);
    FrameIsOffset(b, main);
    var x, y := a - main, b - main;
    assert x == 3 * (x / 3) + x % 3 && y == 3 * (y / 3) + y % 3;
    assert a - b == 3 * (x / 3 - y / 3) + (x % 3 - y % 3);
    if x % 3 == y % 3 {
      assert (a - b) == 3 * (x / 3 - y / 3);
    } else {
      assert -3 < x % 3 - y % 3 < 3;
      var d := a - b;
      assert d == 3 * (d / 3) + d % 3;
    }
  }

  lemma {:induction false} ClosedWhenNoneOpen(l: seq<Orf>)
    requires forall i :: 0 <= i < |l| ==> l[i].status == 0 || l[i].status == 1
    ensures OpenCount(l) >= 0
    ensures OpenCount(l) == 0 ==> forall i :: 0 <= i < |l| ==> l[i].status == 0
    ensures OpenCount(l) > 0 <==> exists i :: 0 <= i < |l| && l[i].status == 1
  {
    if |l| > 0 {
      var init := l[..|l| - 1];
      ClosedWhenNoneOpen(init);
      assert forall i :: 0 <= i < |init| ==> init[i] == l[i];
    }
  }

  lemma SpanAppend(s: string, a: int, b: int, c: int)
    requires 0 <= a <= b <= c
    ensures PySlice(s, a, b) + PySlice(s, b, c) == PySlice(s, a, c)
  {
    var n := |s|;
    var x, y, z := ClampSlice(a, n), ClampSlice(b, n), ClampSlice(c, n);
    assert x <= y <= z;
    if x < y && y < z {
      assert s[x..y] + s[y..z] == s[x..z];
    }
  }

  lemma ThreeMore(a: int, b: int)
    requires (a - b) % 3 == 0
    ensures (a + 3 - b) % 3 == 0
  {
    var q := (a - b) / 3;
    assert a + 3 - b == 3 * (q + 1);
  }

  /** The codon an open ORF of the current frame takes is the one just
      past its stop. */
  lemma NextCodon(sc: Scan, n: int, o: Orf)
    requires o.start <= o.stop < n <= o.stop + 3 && (o.stop - o.start) % 3 == 0
    requires FrameOf(o.start, sc.main) == FrameOf(n, sc.main)
    ensures n == o.stop + 3
  {
    SameFrame(n, o.start, sc.main);
    var p, q := (n - o.start) / 3, (o.stop - o.start) / 3;
    assert n - o.stop == 3 * (p - q);
  }

  /** The bases of an open ORF after it takes the codon at its stop. */
  lemma BasesGrow(sc: Scan, o: Orf, codon: string, stop: int)
    requires 0 <= o.start <= o.stop && BasesOk(sc, o) && codon == Codon(sc.s, o.stop + 3)
    ensures BasesOk(sc, o.(bases := o.bases + codon, stop := o.stop + 3))
  {
    var n := o.stop + 3;
    if sc.corrected || o.start >= 9 {
      SpanAppend(sc.s, o.start, n, n + 3);
    }
    if !sc.corrected && o.start < 9 && |sc.s| >= 15 {
      SpanAppend(sc.s, o.start + 3, n, n + 3);
    }
  }

  /** The facts about an open ORF that its next codon keeps. */
  lemma OpenFacts(sc: Scan, n: int, f: nat, o: Orf)
    requires 0 <= n && OrfOk(sc, n, f, o) && f == FrameOf(n, sc.main) && o.status == 1
    ensures n == o.stop + 3 && (n - o.start) % 3 == 0
    ensures BasesOk(sc, o.(bases := o.bases + Codon(sc.s, n), stop := n))
  {
    NextCodon(sc, n, o);
    ThreeMore(o.stop, o.start);
    BasesGrow(sc, o, Codon(sc.s, n), n);
  }

  /** An ORF of the current frame takes the codon at n. */
  lemma AdvanceOk(sc: Scan, n: int, f: nat, o: Orf)
    requires 0 <= n && OrfOk(sc, n, f, o) && f == FrameOf(n, sc.main)
    ensures OrfOk(sc, n + 1, f, Advance(o, Codon(sc.s, n), n < sc.main))
  {
    if o.status == 1 {
      OpenFacts(sc, n, f, o);
      var codon := Codon(sc.s, n);
      if codon in Stops {
        CompleteOk(sc, n, f, o, o.(bases := o.bases + codon, stop := n));
      } else {
        GrowOk(sc, n, f, o, o.(bases := o.bases + codon, stop := n));
      }
    }
  }

  lemma CompleteOk(sc: Scan, n: int, f: nat, o: Orf, grown: Orf)
    requires 0 <= n && OrfOk(sc, n, f, o) && o.status == 1 && n == o.stop + 3 && (n - o.start) % 3 == 0
    requires grown == o.(bases := o.bases + Codon(sc.s, n), stop := n) && BasesOk(sc, grown)
    requires Codon(sc.s, n) in Stops
    ensures OrfOk(sc, n + 1, f, Complete(o, Codon(sc.s, n), if n < sc.main then "uorf" else "oorf"))
  {
    var c := Complete(o, Codon(sc.s, n), if n < sc.main then "uorf" else "oorf");
    assert c == grown.(status := 0, orfType := c.orfType, length := Some(|grown.bases|), frameType := c.frameType);
    AnchoredKept(sc, f, o, c);
    forall j | c.start < j < c.stop && (j - c.start) % 3 == 0 ensures Codon(sc.s, j) !in Stops {
      if j > o.stop {
        NextInFrame(o.start, o.stop, j);
      }
    }
  }

  lemma GrowOk(sc: Scan, n: int, f: nat, o: Orf, grown: Orf)
    requires 0 <= n && OrfOk(sc, n, f, o) && o.status == 1 && n == o.stop + 3 && (n - o.start) % 3 == 0
    requires grown == o.(bases := o.bases + Codon(sc.s, n), stop := n) && BasesOk(sc, grown)
    requires Codon(sc.s, n) !in Stops
    ensures OrfOk(sc, n + 1, f, grown)
  {
    forall j | grown.start < j < grown.stop + 1 && (j - grown.start) % 3 == 0 ensures Codon(sc.s, j) !in Stops {
      if j > o.stop {
        NextInFrame(o.start, o.stop, j);
      }
    }
  }

  /** An ORF of another frame is left alone and stays within one codon of
      the walk. */
  lemma OtherOk(sc: Scan, n: int, f: nat, o: Orf)
    requires 0 <= n && OrfOk(sc, n, f, o) && f != FrameOf(n, sc.main)
    ensures OrfOk(sc, n + 1, f, o)
  {
    SameFrame(n, o.start, sc.main);
    assert (n - o.start) % 3 != 0;
    OffFrame(o.start, o.stop, n);
    assert Progress(sc, n + 1, o);
  }

  /** A position outside a frame is not the next position of that frame. */
  lemma OffFrame(a: int, b: int, n: int)
    requires (b - a) % 3 == 0 && (n - a) % 3 != 0
    ensures n != b + 3
  {
    assert (b + 3 - a) % 3 == 0;
  }

  /** A closed ORF stays as it is. */
  lemma LaterOk(sc: Scan, n: int, m: int, f: nat, o: Orf)
    requires n <= m && OrfOk(sc, n, f, o) && o.status == 0
    ensures OrfOk(sc, m, f, o)
  {
  }

  lemma SliceOfSlice(s: string, a: nat, b: nat, c: nat, d: nat)
    requires a <= b <= |s| && c <= d <= b - a
    ensures s[a..b][c..d] == s[a + c..a + d]
  {
    var x, y := s[a..b][c..d], s[a + c..a + d];
    assert |x| == |y|;
    forall i | 0 <= i < |x| ensures x[i] == y[i] {
      assert x[i] == s[a..b][c + i] == s[a + c + i];
    }
  }

  /** The kozak window and the start codon of a new ORF. */
  lemma WindowOk(sc: Scan, n: int)
    requires 0 <= n < |sc.s|
    ensures var kozak := PySlice(sc.s, KozakFrom(n, sc.corrected), n + 6);
      var startCodon := if sc.corrected then Codon(sc.s, n) else PySlice(kozak, 9, 12);
      && (sc.corrected || n >= 9 ==> startCodon == Codon(sc.s, n))
      && (!sc.corrected && n < 9 && |sc.s| >= 15 ==> startCodon == "")
  {
    var s := sc.s;
    if !sc.corrected && n >= 9 {
      var hi := if n + 6 > |s| then |s| else n + 6;
      var kozak := PySlice(s, n - 9, n + 6);
      assert kozak == s[n - 9..hi];
      var h2 := if 12 > |kozak| then |kozak| else 12;
      assert PySlice(kozak, 9, 12) == kozak[9..h2];
      SliceOfSlice(s, n - 9, hi, 9, h2);
    }
  }

  /** A new ORF opened at n. */
  lemma OpenedOk(sc: Scan, n: int)
    requires 0 <= n < |sc.s| && n < sc.main && Codon(sc.s, n) in sc.starts && Opened(sc, n).Ok?
    ensures OrfOk(sc, n + 1, FrameOf(n, sc.main), Opened(sc, n).value)
  {
    WindowOk(sc, n);
    var f := FrameOf(n, sc.main);
    var kozak := PySlice(sc.s, KozakFrom(n, sc.corrected), n + 6);
    var startCodon := if sc.corrected then Codon(sc.s, n) else PySlice(kozak, 9, 12);
    var base := Orf(n, startCodon, kozak, f, FrameType(f), n, startCodon, 1, sc.rid, None, None, BaseIds, map[]);
    var o := Opened(sc, n).value;
    assert WithScores(base, sc.lookup) == Ok(o);
    assert o == base.(orfIds := o.orfIds, scores := o.scores);
    assert o.start == n && o.stop == n && o.status == 1 && o.frame == f && o.orfType.None? && o.length.None?;
    assert o.startCodon == startCodon && o.bases == startCodon && o.frameType == FrameType(f);
  }

  /** The open ORFs of the current frame advanced. */
  function Advanced(sc: Scan, n: int, orfs: seq<seq<Orf>>): (r: seq<seq<Orf>>)
    requires |orfs| == 3
    ensures |r| == 3
  {
    var frame := FrameOf(n, sc.main);
    if OpenCount(orfs[frame]) > 0 then orfs[frame := AdvanceAll(orfs[frame], Codon(sc.s, n), n < sc.main)] else orfs
  }

  /** One ORF across position n, for the frame lists with an open ORF
      in the current frame or without. */
  lemma ElementOk(sc: Scan, n: int, f: nat, o: Orf, open: bool)
    requires 0 <= n && OrfOk(sc, n, f, o)
    requires f == FrameOf(n, sc.main) && !open ==> o.status == 0
    ensures OrfOk(sc, n + 1, f, if f == FrameOf(n, sc.main) && open then Advance(o, Codon(sc.s, n), n < sc.main) else o)
  {
    if f == FrameOf(n, sc.main) && open {
      AdvanceOk(sc, n, f, o);
    } else if f == FrameOf(n, sc.main) {
      LaterOk(sc, n, n + 1, f, o);
    } else {
      OtherOk(sc, n, f, o);
    }
  }

  /** Advancing moves no start. */
  lemma AdvancedStarts(sc: Scan, n: int, orfs: seq<seq<Orf>>)
    requires |orfs| == 3
    ensures forall f :: 0 <= f < 3 ==> |Advanced(sc, n, orfs)[f]| == |orfs[f]|
    ensures forall f, i :: 0 <= f < 3 && 0 <= i < |orfs[f]| ==> Advanced(sc, n, orfs)[f][i].start == orfs[f][i].start
  {
  }

  lemma AdvancedOk(sc: Scan, n: int, orfs: seq<seq<Orf>>)
    requires 0 <= n && WalkOk(sc, n, orfs)
    ensures WalkOk(sc, n + 1, Advanced(sc, n, orfs))
    ensures forall f, i :: 0 <= f < 3 && 0 <= i < |orfs[f]| ==>
      i < |Advanced(sc, n, orfs)[f]| && Advanced(sc, n, orfs)[f][i].start == orfs[f][i].start < n
  {
    var frame := FrameOf(n, sc.main);
    var orfs1 := Advanced(sc, n, orfs);
    AdvancedStarts(sc, n, orfs);
    var open := OpenCount(orfs[frame]) > 0;
    if !open {
      ClosedWhenNoneOpen(orfs[frame]);
    }
    forall f, i | 0 <= f < 3 && 0 <= i < |orfs1[f]| ensures OrfOk(sc, n + 1, f, orfs1[f][i]) {
      var o := orfs[f][i];
      ElementOk(sc, n, f, o, open);
      assert orfs1[f][i] == if f == frame && open then Advance(o, Codon(sc.s, n), n < sc.main) else o;
    }
  }

  lemma AppendedOk(sc: Scan, n: int, orfs: seq<seq<Orf>>, f: nat, o: Orf)
    requires f < 3 && WalkOk(sc, n, orfs) && OrfOk(sc, n, f, o)
    requires forall i :: 0 <= i < |orfs[f]| ==> orfs[f][i].start < o.start
    ensures WalkOk(sc, n, orfs[f := orfs[f] + [o]])
  {
    var orfs2 := orfs[f := orfs[f] + [o]];
    forall g, i | 0 <= g < 3 && 0 <= i < |orfs2[g]| ensures OrfOk(sc, n, g, orfs2[g][i]) {
      if g != f || i < |orfs[f]| {
        assert orfs2[g][i] == orfs[g][i];
      }
    }
  }

  /** One position of the walk keeps what the walk keeps. */
  lemma StepOk(sc: Scan, n: int, orfs: seq<seq<Orf>>)
    requires 0 <= n < |sc.s| && WalkOk(sc, n, orfs)
    requires StepAt(sc, n, orfs).Ok? && !StepAt(sc, n, orfs).value.1
    ensures WalkOk(sc, n + 1, StepAt(sc, n, orfs).value.0)
  {
    StepAtShape(sc, n, orfs);
    if Codon(sc.s, n) in sc.starts && n < sc.main {
      StepOpens(sc, n, orfs);
    } else {
      AdvancedOk(sc, n, orfs);
    }
  }

  /** A start codon before the main ORF appends an ORF starting after
      every ORF of its frame. */
  lemma StepOpens(sc: Scan, n: int, orfs: seq<seq<Orf>>)
    requires 0 <= n < |sc.s| && WalkOk(sc, n, orfs)
    requires n < sc.main && Codon(sc.s, n) in sc.starts && Opened(sc, n).Ok?
    ensures var frame := FrameOf(n, sc.main);
      var orfs1 := Advanced(sc, n, orfs);
      WalkOk(sc, n + 1, orfs1[frame := orfs1[frame] + [Opened(sc, n).value]])
  {
    var frame := FrameOf(n, sc.main);
    var orfs1: seq<seq<Orf>> := Advanced(sc, n, orfs);
    var o: Orf := Opened(sc, n).value;
    AdvancedOk(sc, n, orfs);
    AdvancedBelow(sc, n, orfs, frame);
    OpenedOk(sc, n);
    assert o.start == n;
    AppendedOk(sc, n + 1, orfs1, frame, o);
  }

  /** Every ORF of a frame, advanced, still starts before the position. */
  lemma AdvancedBelow(sc: Scan, n: int, orfs: seq<seq<Orf>>, f: nat)
    requires f < 3 && 0 <= n && WalkOk(sc, n, orfs)
    ensures forall i :: 0 <= i < |Advanced(sc, n, orfs)[f]| ==> Advanced(sc, n, orfs)[f][i].start < n
  {
    AdvancedOk(sc, n, orfs);
    AdvancedStarts(sc, n, orfs);
  }

  /** A step that goes on advances the current frame and, on a start codon
      before the main ORF, appends the ORF it opens. */
  lemma StepAtShape(sc: Scan, n: int, orfs: seq<seq<Orf>>)
    requires |orfs| == 3 && StepAt(sc, n, orfs).Ok? && !StepAt(sc, n, orfs).value.1
    ensures var frame := FrameOf(n, sc.main);
      var orfs1 := Advanced(sc, n, orfs);
      if Codon(sc.s, n) in sc.starts && n < sc.main then
        Opened(sc, n).Ok? && StepAt(sc, n, orfs).value.0 == orfs1[frame := orfs1[frame] + [Opened(sc, n).value]]
      else StepAt(sc, n, orfs).value.0 == orfs1
  {
  }

  /** With no ORF open the walk keeps its lists for good. */
  lemma StoppedOk(sc: Scan, n: int, m: int, orfs: seq<seq<Orf>>)
    requires 0 <= n <= m && WalkOk(sc, n, orfs)
    requires OpenCount(orfs[0]) + OpenCount(orfs[1]) + OpenCount(orfs[2]) == 0
    ensures WalkOk(sc, m, orfs)
  {
    ClosedWhenNoneOpen(orfs[0]);
    ClosedWhenNoneOpen(orfs[1]);
    ClosedWhenNoneOpen(orfs[2]);
    forall f, i | 0 <= f < 3 && 0 <= i < |orfs[f]| ensures OrfOk(sc, m, f, orfs[f][i]) {
      var o := orfs[f][i];
      assert o.status == 0 by {
        if f == 0 {
        } else if f == 1 {
        } else {
          assert f == 2;
        }
      }
      LaterOk(sc, n, m, f, o);
    }
  }

  /** The walk stops only where no ORF is open, and then leaves its lists
      alone. */
  lemma StepStops(sc: Scan, n: int, orfs: seq<seq<Orf>>)
    requires |orfs| == 3 && StepAt(sc, n, orfs).Ok? && StepAt(sc, n, orfs).value.1
    ensures StepAt(sc, n, orfs).value.0 == orfs
    ensures OpenCount(orfs[0]) + OpenCount(orfs[1]) + OpenCount(orfs[2]) == 0
  {
  }

  /** What the walk keeps after positions 0 .. n - 1. */
  ghost predicate ScanInv(sc: Scan, n: int, st: (seq<seq<Orf>>, bool))
  {
    && WalkOk(sc, n, st.0)
    && (st.1 ==> OpenCount(st.0[0]) + OpenCount(st.0[1]) + OpenCount(st.0[2]) == 0)
  }

  lemma NextOk(sc: Scan, n: nat, st: (seq<seq<Orf>>, bool), next: Result<(seq<seq<Orf>>, bool)>)
    requires n < |sc.s| && ScanInv(sc, n, st)
    requires next == (if st.1 then Ok((st.0, true)) else StepAt(sc, n, st.0))
    requires next.Ok?
    ensures ScanInv(sc, n + 1, next.value)
  {
    if st.1 {
      StoppedOk(sc, n, n + 1, st.0);
    } else if next.value.1 {
      StepStops(sc, n, st.0);
      StoppedOk(sc, n, n + 1, st.0);
    } else {
      StepOk(sc, n, st.0);
    }
  }

  lemma {:induction false} ScanOk(sc: Scan, n: nat) returns (st: (seq<seq<Orf>>, bool))
    requires n <= |sc.s| && ScanTo(sc, n).Ok?
    ensures ScanTo(sc, n) == Ok(st) && ScanInv(sc, n, st)
  {
    if n == 0 {
      st := ([[], [], []], false);
    } else {
      var prev := ScanOk(sc, n - 1);
      st := ScanTo(sc, n).value;
      NextOk(sc, n - 1, prev, ScanTo(sc, n));
    }
  }

  // ---------------------------------------------------------------------
  // What find_orfs returns

  /** Where index k of `orfs[0] + orfs[1] + orfs[2]` comes from. */
  lemma Locate(orfs: seq<seq<Orf>>, k: nat) returns (f: nat, i: nat)
    requires |orfs| == 3 && k < |orfs[0] + orfs[1] + orfs[2]|
    ensures f < 3 && i < |orfs[f]| && (orfs[0] + orfs[1] + orfs[2])[k] == orfs[f][i]
    ensures k == (if f == 0 then 0 else if f == 1 then |orfs[0]| else |orfs[0]| + |orfs[1]|) + i
  {
    if k < |orfs[0]| {
      f, i := 0, k;
    } else if k < |orfs[0]| + |orfs[1]| {
      f, i := 1, k - |orfs[0]|;
    } else {
      f, i := 2, k - |orfs[0]| - |orfs[1]|;
    }
  }

  /** The ORFs `find_orfs` returns, in order of frame and, within a
      frame, of start. */
  predicate FrameOrder(r: seq<Orf>)
  {
    forall i, j :: 0 <= i < j < |r| ==>
      r[i].frame < r[j].frame || (r[i].frame == r[j].frame && r[i].start < r[j].start)
  }

  lemma FlatOk(sc: Scan, n: int, orfs: seq<seq<Orf>>)
    requires WalkOk(sc, n, orfs)
    ensures forall k :: 0 <= k < |orfs[0] + orfs[1] + orfs[2]| ==>
      OrfOk(sc, n, (orfs[0] + orfs[1] + orfs[2])[k].frame, (orfs[0] + orfs[1] + orfs[2])[k])
    ensures FrameOrder(orfs[0] + orfs[1] + orfs[2])
  {
    var r := orfs[0] + orfs[1] + orfs[2];
    forall k | 0 <= k < |r| ensures OrfOk(sc, n, r[k].frame, r[k]) {
      var f, i := Locate(orfs, k);
      assert OrfOk(sc, n, f, orfs[f][i]);
    }
    forall a, b | 0 <= a < b < |r|
      ensures r[a].frame < r[b].frame || (r[a].frame == r[b].frame && r[a].start < r[b].start)
    {
      var f, i := Locate(orfs, a);
      var g, j := Locate(orfs, b);
      assert OrfOk(sc, n, f, orfs[f][i]) && OrfOk(sc, n, g, orfs[g][j]);
      if f == g {
        assert i < j;
      } else {
        assert f < g;
      }
    }
  }

  /** Every ORF `find_orfs` returns satisfies what the walk keeps, and the
      ORFs come grouped by frame in the order they were opened. */
  lemma FindOrfsSound(sc: Scan)
    requires FindOrfsOf(sc).Ok?
    ensures forall k :: 0 <= k < |FindOrfsOf(sc).value| ==>
      OrfOk(sc, |sc.s|, FindOrfsOf(sc).value[k].frame, FindOrfsOf(sc).value[k])
    ensures FrameOrder(FindOrfsOf(sc).value)
    ensures forall k :: 0 <= k < |FindOrfsOf(sc).value| ==>
      var o := FindOrfsOf(sc).value[k];
      && (o.status == 0 ==> Codon(sc.s, o.stop) in Stops)
      && forall j :: o.start < j < (if o.status == 1 then o.stop + 1 else o.stop) && (j - o.start) % 3 == 0 ==>
           Codon(sc.s, j) !in Stops
  {
    var st := ScanOk(sc, |sc.s|);
    FlatOk(sc, |sc.s|, st.0);
  }

  /** For a start codon at 9 or later, or with the corrected kozak window:
      the start codon is the codon at the start, the bases are the span
      from the start to the end of the last codon, and a closed ORF is
      `stop - start + 3` bases long and ends on a stop codon. */
  lemma OrfSpan(sc: Scan, o: Orf)
    requires OrfOk(sc, |sc.s|, o.frame, o) && (sc.corrected || o.start >= 9)
    ensures o.startCodon == Codon(sc.s, o.start) && o.startCodon in sc.starts
    ensures o.bases == PySlice(sc.s, o.start, o.stop + 3)
    ensures o.stop + 3 <= |sc.s| ==> |o.bases| == o.stop - o.start + 3
    ensures o.status == 0 ==>
      o.stop + 3 <= |sc.s| && o.length == Some(o.stop - o.start + 3) && sc.s[o.stop..o.stop + 3] in Stops
  {
    if o.status == 0 {
      assert |Codon(sc.s, o.stop)| == 3;
    }
  }

  /** As written, a start codon before position 9 of a sequence of 15
      bases or more gets an empty kozak window: the ORF records no start
      codon, its bases miss the first codon and a closed one is 3 bases
      shorter than its span. */
  lemma OrfSpanAsWritten(sc: Scan, o: Orf)
    requires OrfOk(sc, |sc.s|, o.frame, o) && !sc.corrected && o.start < 9 && |sc.s| >= 15
    ensures o.startCodon == "" && o.kozakSeq == ""
    ensures o.bases == PySlice(sc.s, o.start + 3, o.stop + 3)
    ensures o.status == 0 ==> o.length == Some(o.stop - o.start)
  {
    assert PySlice(sc.s, o.start - 9, o.start + 6) == "";
    if o.status == 0 {
      assert |Codon(sc.s, o.stop)| == 3;
      assert |PySlice(sc.s, o.start + 3, o.stop + 3)| == o.stop - o.start;
    }
  }

  /** The codon at n, read off its three bases. */
  lemma CodonIs(s: string, n: nat, c: string)
    requires |c| == 3 && n + 3 <= |s| && s[n] == c[0] && s[n + 1] == c[1] && s[n + 2] == c[2]
    ensures Codon(s, n) == c
  {
    assert Codon(s, n) == s[n..n + 3];
  }

  /** An instance: "ATGTAA" and nine more bases, main ORF at 10. */
  lemma KozakWindowExample()
    ensures var sc := Scan("ATGTAACCCCCCCCC", 7, 10, [], ["ATG"], false);
      && Codon(sc.s, 0) == "ATG"
      && Opened(sc, 0) == Ok(Orf(0, "", "", 2, "out_of_frame", 0, "", 1, 7, None, None, BaseIds, map[]))
      && Opened(sc.(corrected := true), 0).value.startCodon == "ATG"
  {
    var s := "ATGTAACCCCCCCCC";
    assert PySlice(s, -9, 6) == "";
    CodonIs(s, 0, "ATG");
    assert FrameOf(0, 10) == 2;
  }

  // ---------------------------------------------------------------------
  // batch_orfs

  /** The scan of one reporter: the adaptors around its sequence, the main
      ORF start shifted past both, ATG as the only start codon, and the
      kozak window as written or corrected. */
  function ReporterScan(rid: int, s: string, up: string, down: string, main: int,
                        lookup: seq<(string, Matrix)>, corrected: bool): Scan
  {
    Scan(up + s + down, rid, |up| + |s| + main, lookup, ["ATG"], corrected)
  }

  /** The ORFs of every reporter, reporter by reporter. */
  function OrfsOf(reporters: seq<(int, string)>, up: string, down: string, main: int,
                  lookup: seq<(string, Matrix)>, corrected: bool): Result<seq<Orf>>
  {
    if |reporters| == 0 then Ok([])
    else
      match OrfsOf(reporters[..|reporters| - 1], up, down, main, lookup, corrected)
      case Err(m) => Err(m)
      case Ok(all) =>
        var (rid, s) := reporters[|reporters| - 1];
        match FindOrfsOf(ReporterScan(rid, s, up, down, main, lookup, corrected))
        case Err(m) => Err(m)
        case Ok(orfs) => Ok(all + orfs)
  }

  /** A column of the `uorf` table: `orf_` before every id but `reporter_id`. */
  function Column(id: string): string
  {
    if id != "reporter_id" then "orf_" + id else id
  }

  /** `[orf.orf_stats for orf in all_orfs]` */
  function StatRows(orfs: seq<Orf>): Result<seq<seq<Stat>>>
  {
    if |orfs| == 0 then Ok([])
    else
      match StatRows(orfs[..|orfs| - 1])
      case Err(m) => Err(m)
      case Ok(rows) =>
        match StatsOf(orfs[|orfs| - 1], orfs[|orfs| - 1].orfIds)
        case Err(m) => Err(m)
        case Ok(row) => Ok(rows + [row])
  }

  /** The column names of a batch, from the ids of its first ORF. */
  function Columns(ids: seq<string>): (r: seq<string>)
    ensures |r| == |ids| && forall j :: 0 <= j < |ids| ==> r[j] == Column(ids[j])
  {
    seq(|ids|, j requires 0 <= j < |ids| => Column(ids[j]))
  }

  /** The end of `batch_orfs` once every reporter is scanned: `all_orfs[0]`
      raises on an empty batch. */
  function BatchOf(all: seq<Orf>): Result<(seq<string>, seq<seq<Stat>>)>
  {
    if |all| == 0 then Err("IndexError: list index out of range")
    else
      match StatRows(all)
      case Err(m) => Err(m)
      case Ok(rows) => Ok((Columns(all[0].orfIds), rows))
  }

  /** What `int(main_orf_start)` raises when the constant did not read
      as a float and stayed text. */
  const IntError := "ValueError: invalid literal for int() with base 10"

  /** `batch_orfs(reporters, (upstream_seq, downstream_seq, main_orf_start), kozak_lookup)`:
      the column names and one row of stats per ORF. `mainText` is the
      stored constant, which `get_constants` turns into a float, so
      `int(main_orf_start)` truncates it toward zero. */
  function BatchOrfsOf(reporters: seq<(int, string)>, up: string, down: string, mainText: string,
                       lookup: seq<(string, Matrix)>, corrected: bool): Result<(seq<string>, seq<seq<Stat>>)>
  {
    match FloatToInt(mainText)
    case Err(_) => Err(IntError)
    case Ok(main) =>
      match OrfsOf(reporters, up, down, main, lookup, corrected)
      case Err(m) => Err(m)
      case Ok(all) => BatchOf(all)
  }

  /** What every ORF of a batch carries, whichever reporter it comes from. */
  ghost predicate Ready(o: Orf, lookup: seq<(string, Matrix)>)
  {
    && o.orfIds == BaseIds + ScoreIds(lookup) && HasScores(o, lookup)
    && (o.status == 0 || o.status == 1)
    && (o.status == 0 <==> o.orfType.Some?) && (o.status == 0 <==> o.length.Some?)
  }

  lemma {:induction false} OrfsReady(reporters: seq<(int, string)>, up: string, down: string, main: int,
                                     lookup: seq<(string, Matrix)>, corrected: bool)
    requires OrfsOf(reporters, up, down, main, lookup, corrected).Ok?
    ensures forall k :: 0 <= k < |OrfsOf(reporters, up, down, main, lookup, corrected).value| ==>
      Ready(OrfsOf(reporters, up, down, main, lookup, corrected).value[k], lookup)
  {
    if |reporters| > 0 {
      var init := reporters[..|reporters| - 1];
      OrfsReady(init, up, down, main, lookup, corrected);
      var all := OrfsOf(init, up, down, main, lookup, corrected).value;
      var (rid, s) := reporters[|reporters| - 1];
      var sc := ReporterScan(rid, s, up, down, main, lookup, corrected);
      FindOrfsSound(sc);
      var orfs := FindOrfsOf(sc).value;
      var r := all + orfs;
      forall k | 0 <= k < |r| ensures Ready(r[k], lookup) {
        if k >= |all| {
          assert r[k] == orfs[k - |all|];
          assert OrfOk(sc, |sc.s|, orfs[k - |all|].frame, orfs[k - |all|]);
        }
      }
    }
  }

  lemma {:induction false} StatsOkIff(o: Orf, ids: seq<string>)
    ensures StatsOf(o, ids).Ok? <==> forall k :: 0 <= k < |ids| ==> Attr(o, ids[k]).Ok?
  {
    if |ids| > 0 {
      var init := ids[..|ids| - 1];
      StatsOkIff(o, init);
      assert forall k :: 0 <= k < |init| ==> init[k] == ids[k];
    }
  }

  /** An ORF's stats can be read exactly when it is closed: an open ORF has
      no `type` and no `length`. */
  lemma StatsOkWhenClosed(o: Orf, lookup: seq<(string, Matrix)>)
    requires Ready(o, lookup)
    ensures StatsOf(o, o.orfIds).Ok? <==> o.status == 0
  {
    StatsOkIff(o, o.orfIds);
    if o.status == 0 {
      forall k | 0 <= k < |o.orfIds| ensures Attr(o, o.orfIds[k]).Ok? {
        if k >= |BaseIds| {
          var j := k - |BaseIds|;
          assert o.orfIds[k] == ScoreId(lookup[j].0);
          assert |o.orfIds[k]| >= 12;
        }
      }
    } else {
      assert o.orfIds[1] == "type";
    }
  }

  lemma {:induction false} StatRowsOk(orfs: seq<Orf>, lookup: seq<(string, Matrix)>)
    requires forall k :: 0 <= k < |orfs| ==> Ready(orfs[k], lookup)
    ensures StatRows(orfs).Ok? <==> forall k :: 0 <= k < |orfs| ==> orfs[k].status == 0
    ensures StatRows(orfs).Ok? ==> |StatRows(orfs).value| == |orfs|
    ensures StatRows(orfs).Ok? ==> forall k :: 0 <= k < |orfs| ==>
      |StatRows(orfs).value[k]| == |BaseIds| + |lookup|
  {
    if |orfs| > 0 {
      var init := orfs[..|orfs| - 1];
      assert forall k :: 0 <= k < |init| ==> init[k] == orfs[k];
      StatRowsOk(init, lookup);
      StatsOkWhenClosed(orfs[|orfs| - 1], lookup);
    }
  }

  lemma BaseColumns()
    ensures Column(BaseIds[0]) == "reporter_id"
    ensures forall j :: 1 <= j < |BaseIds| ==> Column(BaseIds[j]) == "orf_" + BaseIds[j]
  {
    forall j | 1 <= j < |BaseIds| ensures BaseIds[j] != "reporter_id" {
      assert BaseIds[j][0] != 'r';
    }
  }

  /** A batch of ready ORFs succeeds exactly when it is not empty and
      every ORF is closed. Its columns are `reporter_id`, then the other
      nine base ids prefixed by `orf_`, then one `orf_kozak_score_<id>` per
      lookup entry; it has one row per ORF, as long as the columns. */
  lemma BatchOfSpec(all: seq<Orf>, lookup: seq<(string, Matrix)>)
    requires forall k :: 0 <= k < |all| ==> Ready(all[k], lookup)
    ensures BatchOf(all).Ok? <==> |all| > 0 && forall k :: 0 <= k < |all| ==> all[k].status == 0
    ensures BatchOf(all).Ok? ==>
      var (ids, rows) := BatchOf(all).value;
      && |ids| == |BaseIds| + |lookup|
      && ids[0] == "reporter_id"
      && (forall j :: 1 <= j < |BaseIds| ==> ids[j] == "orf_" + BaseIds[j])
      && (forall j :: 0 <= j < |lookup| ==> ids[|BaseIds| + j] == "orf_kozak_score_" + lookup[j].0)
      && |rows| == |all|
      && forall k :: 0 <= k < |rows| ==> |rows[k]| == |ids|
  {
    StatRowsOk(all, lookup);
    if |all| > 0 {
      assert Ready(all[0], lookup);
      ColumnsOfIds(lookup);
    }
  }

  /** The column names of the ids every ready ORF carries. */
  lemma ColumnsOfIds(lookup: seq<(string, Matrix)>)
    ensures var ids := Columns(BaseIds + ScoreIds(lookup));
      && |ids| == |BaseIds| + |lookup|
      && ids[0] == "reporter_id"
      && (forall j :: 1 <= j < |BaseIds| ==> ids[j] == "orf_" + BaseIds[j])
      && (forall j :: 0 <= j < |lookup| ==> ids[|BaseIds| + j] == "orf_kozak_score_" + lookup[j].0)
  {
    BaseColumns();
    var raw := BaseIds + ScoreIds(lookup);
    forall j | 0 <= j < |lookup| ensures Column(raw[|BaseIds| + j]) == "orf_kozak_score_" + lookup[j].0 {
      assert raw[|BaseIds| + j] == ScoreId(lookup[j].0);
      assert |raw[|BaseIds| + j]| >= 12;
    }
  }

  /** `batch_orfs` succeeds exactly when `main_orf_start` is an integer,
      every reporter's scan succeeds, some ORF is found and every ORF found
      is closed, and then its columns and rows are those of the batch. */
  lemma BatchOrfsSpec(reporters: seq<(int, string)>, up: string, down: string, mainText: string,
                      lookup: seq<(string, Matrix)>, corrected: bool)
    ensures BatchOrfsOf(reporters, up, down, mainText, lookup, corrected).Ok? <==>
      && FloatToInt(mainText).Ok?
      && OrfsOf(reporters, up, down, FloatToInt(mainText).value, lookup, corrected).Ok?
      && BatchOf(OrfsOf(reporters, up, down, FloatToInt(mainText).value, lookup, corrected).value).Ok?
    ensures FloatToInt(mainText).Ok? && OrfsOf(reporters, up, down, FloatToInt(mainText).value, lookup, corrected).Ok? ==>
      var all := OrfsOf(reporters, up, down, FloatToInt(mainText).value, lookup, corrected).value;
      && BatchOrfsOf(reporters, up, down, mainText, lookup, corrected) == BatchOf(all)
      && forall k :: 0 <= k < |all| ==> Ready(all[k], lookup)
  {
    if FloatToInt(mainText).Ok? && OrfsOf(reporters, up, down, FloatToInt(mainText).value, lookup, corrected).Ok? {
      OrfsReady(reporters, up, down, FloatToInt(mainText).value, lookup, corrected);
    }
  }

  /** The loop of `batch_orfs` over the reporters. */
  method CollectOrfs(reporters: seq<(int, string)>, up: string, down: string, main: int,
                     lookup: seq<(string, Matrix)>, corrected: bool) returns (r: Result<seq<Orf>>)
    ensures r == OrfsOf(reporters, up, down, main, lookup, corrected)
  {
    var all: seq<Orf> := [];
    for i := 0 to |reporters|
      invariant OrfsOf(reporters[..i], up, down, main, lookup, corrected) == Ok(all)
    {
      assert reporters[..i + 1][..i] == reporters[..i];
      var (rid, s) := reporters[i];
      var orfs := FindOrfs(ReporterScan(rid, s, up, down, main, lookup, corrected));
      if orfs.Err? {
        OrfsStayErr(reporters, up, down, main, lookup, corrected, i + 1);
        return Err(orfs.msg);
      }
      all := all + orfs.value;
    }
    assert reporters[..|reporters|] == reporters;
    return Ok(all);
  }

  lemma {:induction false} OrfsStayErr(reporters: seq<(int, string)>, up: string, down: string, main: int,
                                       lookup: seq<(string, Matrix)>, corrected: bool, i: nat)
    requires i <= |reporters| && OrfsOf(reporters[..i], up, down, main, lookup, corrected).Err?
    ensures OrfsOf(reporters, up, down, main, lookup, corrected) == OrfsOf(reporters[..i], up, down, main, lookup, corrected)
    decreases |reporters| - i
  {
    if i < |reporters| {
      assert reporters[..i + 1][..i] == reporters[..i];
      OrfsStayErr(reporters, up, down, main, lookup, corrected, i + 1);
    } else {
      assert reporters[..i] == reporters;
    }
  }

  /** The main ORF start is read as a float and truncated: a stored
      "10.5" or "10.0" gives the same batch as "10". */
  lemma FractionalMainStart(reporters: seq<(int, string)>, up: string, down: string,
                            lookup: seq<(string, Matrix)>, corrected: bool)
    ensures BatchOrfsOf(reporters, up, down, "10.5", lookup, corrected)
            == BatchOrfsOf(reporters, up, down, "10", lookup, corrected)
    ensures BatchOrfsOf(reporters, up, down, "10.0", lookup, corrected)
            == BatchOrfsOf(reporters, up, down, "10", lookup, corrected)
  {
    FloatFraction();
    FloatWhole();
    SameStart(reporters, up, down, "10.5", "10", lookup, corrected);
    SameStart(reporters, up, down, "10.0", "10", lookup, corrected);
  }

  /** `batch_orfs` sees the stored constant only through `int(float(v))`. */
  lemma SameStart(reporters: seq<(int, string)>, up: string, down: string, a: string, b: string,
                  lookup: seq<(string, Matrix)>, corrected: bool)
    requires FloatToInt(a).Ok? && FloatToInt(a) == FloatToInt(b)
    ensures BatchOrfsOf(reporters, up, down, a, lookup, corrected)
            == BatchOrfsOf(reporters, up, down, b, lookup, corrected)
  {
  }

  /** `batch_orfs`, with the kozak window as written when `corrected` is
      false and corrected when it is true. */
  method BatchOrfs(reporters: seq<(int, string)>, up: string, down: string, mainText: string,
                   lookup: seq<(string, Matrix)>, corrected: bool) returns (r: Result<(seq<string>, seq<seq<Stat>>)>)
    ensures r == BatchOrfsOf(reporters, up, down, mainText, lookup, corrected)
  {
    var main := FloatToInt(mainText);
    if main.Err? {
      return Err(IntError);
    }
    var all := CollectOrfs(reporters, up, down, main.value, lookup, corrected);
    if all.Err? {
      return Err(all.msg);
    }
    if |all.value| == 0 {
      return Err("IndexError: list index out of range");
    }
    var rows := StatRows(all.value);
    if rows.Err? {
      return Err(rows.msg);
    }
    var ids := ColumnsOf(all.value[0].orfIds);
    return Ok((ids, rows.value));
  }

  /** The comprehension over `all_orfs[0].orf_ids`. */
  method ColumnsOf(first: seq<string>) returns (ids: seq<string>)
    ensures ids == Columns(first)
  {
    ids := [];
    for j := 0 to |first|
      invariant |ids| == j && forall m :: 0 <= m < j ==> ids[m] == Column(first[m])
    {
      ids := ids + [Column(first[j])];
    }
  }

  // ---------------------------------------------------------------------
  // The Kozak window finding, walked through one reporter

  /** The ORF the ATG at 0 of "ATGTAACCCCCCCCC" opens in reporter 1 with
      main ORF start 15: empty start codon and window as written. */
  function WindowExampleOpened(corrected: bool): Orf
  {
    var c := if corrected then "ATG" else "";
    Orf(0, c, if corrected then "ATGTAA" else "", 0, "in_frame", 0, c, 1, 1, None, None, BaseIds, map[])
  }

  /** What the walk reads of "ATGTAACCCCCCCCC": its length, its first
      Kozak windows, its first four codons and no T from 5 to 13. */
  ghost predicate ExampleText(s: string)
  {
    && |s| == 15 && PySlice(s, -9, 6) == "" && PySlice(s, 0, 6) == "ATGTAA"
    && Codon(s, 0) == "ATG" && Codon(s, 1) == "TGT" && Codon(s, 2) == "GTA" && Codon(s, 3) == "TAA"
    && forall j :: 5 <= j < 14 ==> s[j] != 'T'
  }

  /** The scan of that reporter: id 1, main ORF start 15, no lookup, ATG
      as the only start codon. */
  ghost predicate ExampleScan(sc: Scan)
  {
    sc.rid == 1 && sc.main == 15 && sc.lookup == [] && sc.starts == ["ATG"] && ExampleText(sc.s)
  }

  lemma ExampleTextHolds()
    ensures ExampleText("ATGTAACCCCCCCCC")
  {
    var s := "ATGTAACCCCCCCCC";
    assert PySlice(s, -9, 6) == "";
    assert PySlice(s, 0, 6) == s[0..6] == "ATGTAA";
    CodonIs(s, 0, "ATG");
    CodonIs(s, 1, "TGT");
    CodonIs(s, 2, "GTA");
    CodonIs(s, 3, "TAA");
    WindowExampleNoT(s);
  }

  /** Position 0 opens it in frame 0. */
  lemma WindowExampleOpen(sc: Scan)
    requires ExampleScan(sc)
    ensures ScanTo(sc, 1) == Ok(([[WindowExampleOpened(sc.corrected)], [], []], false))
  {
    var e: seq<Orf> := [];
    var o := WindowExampleOpened(sc.corrected);
    assert FrameOf(0, 15) == 0;
    assert Opened(sc, 0) == Ok(o);
    assert OpenCount(e) == 0;
    ScanNext(sc, 0, [e, e, e]);
    assert e + [o] == [o];
    assert [e, e, e][0 := [o]] == [[o], e, e];
  }

  /** A step in a frame without an open ORF, at no start codon. */
  lemma IdleStep(sc: Scan, n: nat, orfs: seq<seq<Orf>>)
    requires |orfs| == 3 && OpenCount(orfs[FrameOf(n, sc.main)]) == 0 && Codon(sc.s, n) !in sc.starts
    requires OpenCount(orfs[0]) + OpenCount(orfs[1]) + OpenCount(orfs[2]) != 0 || n <= sc.main - 3
    ensures StepAt(sc, n, orfs) == Ok((orfs, false))
  {
  }

  /** Positions 1 and 2, in the frames without an ORF, change nothing. */
  lemma WindowExampleIdle(sc: Scan)
    requires ExampleScan(sc)
    ensures ScanTo(sc, 3) == Ok(([[WindowExampleOpened(sc.corrected)], [], []], false))
  {
    var e: seq<Orf> := [];
    var o := WindowExampleOpened(sc.corrected);
    WindowExampleOpen(sc);
    assert OpenCount([o]) == 1 && OpenCount(e) == 0;
    assert FrameOf(1, 15) == 1;
    ScanNext(sc, 1, [[o], e, e]);
    IdleStep(sc, 1, [[o], e, e]);
    assert FrameOf(2, 15) == 2;
    ScanNext(sc, 2, [[o], e, e]);
    IdleStep(sc, 2, [[o], e, e]);
  }

  /** The TAA at 3 closes it as a uorf. */
  lemma WindowExampleClose(sc: Scan, o: Orf)
    requires sc.starts == ["ATG"] && |sc.s| == 15 && sc.main == 15 && Codon(sc.s, 3) == "TAA"
    requires ScanTo(sc, 3) == Ok(([[o], [], []], false)) && o.status == 1
    ensures ScanTo(sc, 4) == Ok(([[Complete(o, "TAA", "uorf")], [], []], false))
  {
    var e: seq<Orf> := [];
    assert OpenCount([o]) == 1 && OpenCount(e) == 0;
    assert FrameOf(3, 15) == 0;
    var c := Complete(o, "TAA", "uorf");
    assert "TAA" in Stops && Advance(o, "TAA", true) == c;
    assert AdvanceAll([o], "TAA", true) == [c];
    assert [[o], e, e][0 := [c]] == [[c], e, e];
    ScanNext(sc, 3, [[o], e, e]);
  }

  /** With no T before the last codon, no codon from 4 to 12 is a start
      (nor a stop in another frame), so nothing changes up to 13. */
  lemma WindowExampleRun(sc: Scan, c: Orf)
    requires sc.starts == ["ATG"] && |sc.s| == 15 && sc.main == 15
    requires forall j :: 5 <= j < 14 ==> sc.s[j] != 'T'
    requires ScanTo(sc, 4) == Ok(([[c], [], []], false)) && c.status == 0
    ensures ScanTo(sc, 13) == Ok(([[c], [], []], false))
  {
    var k := 4;
    while k < 13
      invariant 4 <= k <= 13 && ScanTo(sc, k) == Ok(([[c], [], []], false))
    {
      WindowExampleIdleAt(sc, c, k);
      k := k + 1;
    }
  }

  /** The bases from 5 to 13 are all C. */
  lemma WindowExampleNoT(s: string)
    requires s == "ATGTAACCCCCCCCC"
    ensures forall j :: 5 <= j < 14 ==> s[j] != 'T'
  {
    assert s == "ATGTAA" + RepeatChar('C', 9);
  }

  /** One position past the ORF: not ATG, nothing open. */
  lemma WindowExampleIdleAt(sc: Scan, c: Orf, k: nat)
    requires sc.starts == ["ATG"] && |sc.s| == 15 && sc.main == 15 && 4 <= k < 13 && sc.s[k + 1] != 'T'
    requires ScanTo(sc, k) == Ok(([[c], [], []], false)) && c.status == 0
    ensures ScanTo(sc, k + 1) == Ok(([[c], [], []], false))
  {
    var e: seq<Orf> := [];
    assert OpenCount([c]) == 0 && OpenCount(e) == 0;
    assert Codon(sc.s, k) == sc.s[k..k + 3] && Codon(sc.s, k)[1] == sc.s[k + 1];
    ScanNext(sc, k, [[c], e, e]);
    IdleStep(sc, k, [[c], e, e]);
  }

  /** `find_orfs` on the whole reporter returns the closed ORF alone. */
  lemma WindowExampleFind(sc: Scan)
    requires ExampleScan(sc)
    ensures FindOrfsOf(sc) == Ok([Complete(WindowExampleOpened(sc.corrected), "TAA", "uorf")])
  {
    var e: seq<Orf> := [];
    var c := Complete(WindowExampleOpened(sc.corrected), "TAA", "uorf");
    WindowExampleIdle(sc);
    WindowExampleClose(sc, WindowExampleOpened(sc.corrected));
    WindowExampleRun(sc, c);
    WindowExampleEnded(sc, c);
  }

  /** From 13 on nothing is open and no start can open: the walk breaks
      there. */
  lemma WindowExampleEnded(sc: Scan, c: Orf)
    requires |sc.s| == 15 && sc.main == 15
    requires ScanTo(sc, 13) == Ok(([[c], [], []], false)) && c.status == 0
    ensures FindOrfsOf(sc) == Ok([c])
  {
    var e: seq<Orf> := [];
    var orfs := [[c], e, e];
    assert OpenCount([c]) == 0 && OpenCount(e) == 0;
    ScanEndsAt(sc, 13, orfs);
    assert [c] + e + e == [c];
  }

  // ---------------------------------------------------------------------
  // The Kozak window finding at batch level

  /** The one ORF of the reporter "ATGTAACCCCCCCCC" with no adaptors, main
      ORF start 0 and no lookup: ATG at 0 closed by TAA at 3. */
  function WindowExampleOrf(corrected: bool): Orf
  {
    Complete(WindowExampleOpened(corrected), "TAA", "uorf")
  }

  /** Its `uorf` row: start codon, Kozak window, seq and length empty, "",
      "TAA" and 3 as written; "ATG", "ATGTAA", "ATGTAA" and 6 corrected. */
  function WindowExampleRow(corrected: bool): seq<Stat>
  {
    [SInt(1), SStr("uorf"), SStr(if corrected then "ATG" else ""), SInt(0), SInt(3), SInt(0),
     SStr("all"), SStr(if corrected then "ATGTAA" else ""), SStr(if corrected then "ATGTAA" else "TAA"),
     SInt(if corrected then 6 else 3)]
  }

  lemma WindowExampleReporter(corrected: bool)
    ensures ReporterScan(1, "ATGTAACCCCCCCCC", "", "", 0, [], corrected)
            == Scan("ATGTAACCCCCCCCC", 1, 15, [], ["ATG"], corrected)
  {
    var s := "ATGTAACCCCCCCCC";
    assert "" + s + "" == s;
  }

  lemma WindowExampleOrfs(corrected: bool)
    ensures OrfsOf([(1, "ATGTAACCCCCCCCC")], "", "", 0, [], corrected) == Ok([WindowExampleOrf(corrected)])
  {
    var rs := [(1, "ATGTAACCCCCCCCC")];
    WindowExampleReporter(corrected);
    ExampleTextHolds();
    WindowExampleFind(ReporterScan(1, "ATGTAACCCCCCCCC", "", "", 0, [], corrected));
    assert rs[..0] == [];
    assert [] + [WindowExampleOrf(corrected)] == [WindowExampleOrf(corrected)];
  }

  /** Entry k of `orf_stats` is the attribute named by id k. */
  lemma {:induction false} StatsValues(o: Orf, ids: seq<string>)
    requires StatsOf(o, ids).Ok?
    ensures forall k :: 0 <= k < |ids| ==> Attr(o, ids[k]) == Ok(StatsOf(o, ids).value[k])
  {
    if |ids| > 0 {
      var init := ids[..|ids| - 1];
      StatsValues(o, init);
      assert forall k :: 0 <= k < |init| ==> init[k] == ids[k];
    }
  }

  /** `orf_stats` over the base ids of a closed ORF: its ten attributes in
      order. */
  lemma BaseStats(o: Orf)
    requires o.orfType.Some? && o.length.Some?
    ensures StatsOf(o, BaseIds) == Ok([SInt(o.reporterId), SStr(o.orfType.value), SStr(o.startCodon), SInt(o.start),
                                       SInt(o.stop), SInt(o.frame), SStr(o.frameType), SStr(o.kozakSeq),
                                       SStr(o.bases), SInt(o.length.value)])
  {
    var want := [SInt(o.reporterId), SStr(o.orfType.value), SStr(o.startCodon), SInt(o.start),
                 SInt(o.stop), SInt(o.frame), SStr(o.frameType), SStr(o.kozakSeq),
                 SStr(o.bases), SInt(o.length.value)];
    assert Attr(o, "reporter_id") == Ok(want[0]);
    assert Attr(o, "type") == Ok(want[1]);
    assert Attr(o, "start_codon") == Ok(want[2]);
    assert Attr(o, "start") == Ok(want[3]);
    assert Attr(o, "stop") == Ok(want[4]);
    assert Attr(o, "frame") == Ok(want[5]);
    assert Attr(o, "frame_type") == Ok(want[6]);
    assert Attr(o, "kozak_seq") == Ok(want[7]);
    assert Attr(o, "seq") == Ok(want[8]);
    assert Attr(o, "length") == Ok(want[9]);
    StatsOkIff(o, BaseIds);
    StatsValues(o, BaseIds);
    assert StatsOf(o, BaseIds).value == want;
  }

  lemma WindowExampleStats(corrected: bool)
    ensures StatsOf(WindowExampleOrf(corrected), BaseIds) == Ok(WindowExampleRow(corrected))
  {
    assert "ATG" + "TAA" == "ATGTAA" && "" + "TAA" == "TAA";
    BaseStats(WindowExampleOrf(corrected));
  }

  /** `batch_orfs` on that reporter: one `uorf` row, whose start codon,
      Kozak window, seq and length are those of the ORF at 0 only with the
      corrected window. */
  lemma BatchWindowExample(corrected: bool)
    ensures BatchOrfsOf([(1, "ATGTAACCCCCCCCC")], "", "", "0", [], corrected)
            == Ok((Columns(BaseIds), [WindowExampleRow(corrected)]))
  {
    ParseFloatOfNat(0);
    assert NatToString(0) == "0";
    WindowExampleOrfs(corrected);
    WindowExampleStats(corrected);
    var o := WindowExampleOrf(corrected);
    assert [o][..0] == [];
    assert o.orfIds == BaseIds;
    assert StatRows([o]) == Ok([] + [StatsOf(o, BaseIds).value]);
    assert [] + [StatsOf(o, BaseIds).value] == [StatsOf(o, BaseIds).value];
  }

}
