/** The SAM record reader of src/naptrap_scripts/count_reads.py: one
    tab-separated alignment line becomes an `Aligned_Read` whose CIGAR
    string yields the number of matched bases and whose optional fields
    (section 1.5 of the SAM format specification, `TAG:TYPE:VALUE`) become
    attributes; a read passes when its edit distance and match count clear
    the thresholds. Also the derivation of unique run ids from file paths
    and the merge of per-sample results. */
module CountReads {
  import opened Common

  /** The value of an optional field: `i` is parsed as an integer, `f` as
      a decimal number (kept exact, not rounded to a double), anything else
      is a string. */
  datatype Value = VInt(i: int) | VFloat(d: Decimal) | VStr(s: string)

  /** The attributes `add_read` sets: the fields of the line, and in
      `tags` every slot an optional field wrote, which takes precedence
      over the field of the same slot (see `Attr`). */
  datatype Read = Read(
    readId: string, umi: string, flags: int, referenceName: string, start: string, mapq: string,
    cigar: string, mateReferenceName: string, mateStart: string, inferredSize: string,
    sequence: string, qualityScore: string, tags: map<string, Value>, matches: int)

  const IndexError := "IndexError: list index out of range"

  /** The slots of `Aligned_Read` meant for optional fields. */
  const TagSlots: set<string> := {"AS", "XS", "YS", "XN", "XM", "XO", "XG", "NM", "YF", "YT", "MD"}

  /** The other instance slots, holding the mandatory fields and the
      bookkeeping. `setattr` writes them like any other slot, so an
      optional field of the same name overwrites them. */
  const FieldSlots: set<string> :=
    {"read_id", "umi", "flags", "reference_name", "start", "mapq", "cigar_str", "mate_reference_name",
     "mate_start", "inferred_size", "sequence", "quality_score", "matches", "read_full"}

  /** The two slots the script replaces by class attributes
      (`Aligned_Read.edit_distance = args.d1`), which leaves them read-only
      on every instance. */
  const ClassSlots: set<string> := {"edit_distance", "min_matches"}

  // ---------------------------------------------------------------------
  // read_cigar

  predicate IsOp(c: char)
  {
    c in "MIDNSHP=X"
  }

  /** The loop of `read_cigar` from the list `l`, index `i` and the matches
      counted so far. After consuming an operation the index restarts at
      1, so the first character of the rest is never taken for an
      operation. */
  function CigarFrom(l: string, i: nat, acc: int): Result<int>
    decreases |l|, |l| - i
  {
    if |l| == 0 then Ok(acc)
    else if i >= |l| then Err(IndexError)
    else if IsOp(l[i]) then
      if l[i] == 'M' then
        match ParseInt(l[..i])
        case Err(m) => Err("ValueError: " + m)
        case Ok(v) => CigarFrom(l[i + 1..], 1, acc + v)
      else CigarFrom(l[i + 1..], 1, acc)
    else CigarFrom(l, i + 1, acc)
  }

  /** One CIGAR operation: a length and an operation character. */
  datatype CigarOp = CigarOp(len: nat, op: char)

  /** The CIGAR string of a list of operations. */
  function Render(ops: seq<CigarOp>): string
  {
    if |ops| == 0 then "" else NatToString(ops[0].len) + [ops[0].op] + Render(ops[1..])
  }

  /** The total length of the `M` operations. */
  function MatchLength(ops: seq<CigarOp>): nat
  {
    if |ops| == 0 then 0 else (if ops[0].op == 'M' then ops[0].len else 0) + MatchLength(ops[1..])
  }

  /** The digits of one operation are skipped up to its operation
      character, which is then consumed. */
  lemma {:induction false} CigarToken(d: string, op: char, rest: string, i: nat, acc: int)
    requires IsOp(op) && i <= |d| && forall k :: 0 <= k < |d| ==> IsDigit(d[k])
    requires op == 'M' ==> ParseInt(d).Ok?
    ensures CigarFrom(d + [op] + rest, i, acc) ==
      CigarFrom(rest, 1, acc + if op == 'M' then ParseInt(d).value else 0)
    decreases |d| - i
  {
    var l := d + [op] + rest;
    if i < |d| {
      assert l[i] == d[i] && !IsOp(d[i]);
      CigarToken(d, op, rest, i + 1, acc);
    } else {
      assert l[i] == op && l[..i] == d && l[i + 1..] == rest;
    }
  }

  /** Reading the CIGAR string of a list of operations counts exactly the
      lengths of its `M` operations. */
  lemma {:induction false} CigarRoundTrip(ops: seq<CigarOp>, i: nat, acc: int)
    requires forall k :: 0 <= k < |ops| ==> IsOp(ops[k].op)
    requires i <= 1
    ensures CigarFrom(Render(ops), i, acc) == Ok(acc + MatchLength(ops))
  {
    if |ops| > 0 {
      var d := NatToString(ops[0].len);
      DigitsOfNat(ops[0].len);
      ParseNat(ops[0].len);
      var rest := Render(ops[1..]);
      var acc' := acc + if ops[0].op == 'M' then ops[0].len else 0;
      assert Render(ops) == d + [ops[0].op] + rest;
      CigarToken(d, ops[0].op, rest, i, acc);
      assert CigarFrom(Render(ops), i, acc) == CigarFrom(rest, 1, acc');
      CigarRoundTrip(ops[1..], 1, acc');
      assert acc' + MatchLength(ops[1..]) == acc + MatchLength(ops);
    } else {
      assert Render(ops) == "";
    }
  }

  /** A CIGAR string is read only if it is empty or ends with an operation;
      `"*"` or trailing digits raise IndexError. */
  lemma {:induction false} CigarEndsWithOp(l: string, i: nat, acc: int)
    requires CigarFrom(l, i, acc).Ok?
    ensures |l| == 0 || IsOp(l[|l| - 1])
    decreases |l|, |l| - i
  {
    if |l| > 0 && i < |l| {
      if IsOp(l[i]) {
        var rest := l[i + 1..];
        if |rest| > 0 {
          if l[i] == 'M' {
            CigarEndsWithOp(rest, 1, acc + ParseInt(l[..i]).value);
          } else {
            CigarEndsWithOp(rest, 1, acc);
          }
          assert rest[|rest| - 1] == l[|l| - 1];
        }
      } else {
        CigarEndsWithOp(l, i + 1, acc);
      }
    }
  }

  /** The `while` loop of `read_cigar`. */
  method CigarMatches(cigar: string) returns (r: Result<int>)
    ensures r == CigarFrom(cigar, 0, 0)
  {
    var l := cigar;
    var i := 0;
    var matches := 0;
    while |l| > 0
      invariant CigarFrom(l, i, matches) == CigarFrom(cigar, 0, 0)
      decreases |l|, |l| - i
    {
      if i >= |l| {
        return Err(IndexError);
      }
      var b := l[i];
      if b in "MIDNSHP=X" {
        if b == 'M' {
          var n := ParseInt(l[..i]);
          if n.Err? {
            return Err("ValueError: " + n.msg);
          }
          matches := matches + n.value;
        }
        l := l[i + 1..];
        i := 0;
      }
      i := i + 1;
    }
    return Ok(matches);
  }

  // ---------------------------------------------------------------------
  // add_tags

  /** The value `float(v)`, `int(v)` or `v` of an optional field. */
  function Typed(ty: string, v: string): Result<Value>
  {
    if ty == "f" then
      match ParseFloat(v)
      case Err(m) => Err(m)
      case Ok(d) => Ok(VFloat(d))
    else if ty == "i" then
      match ParseInt(v)
      case Err(m) => Err("ValueError: " + m)
      case Ok(n) => Ok(VInt(n))
    else Ok(VStr(v))
  }

  /** One optional field: the tag, type and value are the first three
      `:`-separated parts; `setattr` writes the tag's slot, whichever slot
      it is, and raises for a read-only slot or a name with no slot. */
  function SetTag(tags: map<string, Value>, t: string): Result<map<string, Value>>
  {
    var parts := Split(t, ':');
    if |parts| < 3 then Err(IndexError)
    else
      match Typed(parts[1], parts[2])
      case Err(m) => Err(m)
      case Ok(v) =>
        var k := parts[0];
        if k in TagSlots || k in FieldSlots then Ok(tags[k := v])
        else if k in ClassSlots then Err("AttributeError: 'Aligned_Read' object attribute '" + k + "' is read-only")
        else Err("AttributeError: 'Aligned_Read' object has no attribute '" + k + "'")
  }

  /** `add_tags`: the fields in order, the first failing one raising. */
  function AddTags(ts: seq<string>, tags: map<string, Value>): Result<map<string, Value>>
  {
    if |ts| == 0 then Ok(tags)
    else
      match AddTags(ts[..|ts| - 1], tags)
      case Err(m) => Err(m)
      case Ok(m) => SetTag(m, ts[|ts| - 1])
  }

  /** A well-formed optional field is set exactly when its tag names a
      writable slot, and then sets that slot to its typed value, an
      integer written by `str` reading back as itself. */
  lemma TagRoundTrip(tags: map<string, Value>, k: string, ty: string, v: string)
    requires ':' !in k && ':' !in ty && ':' !in v && |ty| > 0
    requires Typed(ty, v).Ok?
    ensures SetTag(tags, k + ":" + ty + ":" + v).Ok? <==> k in TagSlots || k in FieldSlots
    ensures k in TagSlots || k in FieldSlots ==>
      SetTag(tags, k + ":" + ty + ":" + v) == Ok(tags[k := Typed(ty, v).value])
  {
    SplitAfter(k, ':', ty + ":" + v);
    assert k + ":" + ty + ":" + v == k + [':'] + (ty + ":" + v);
    SplitAfter(ty, ':', v);
    assert ty + ":" + v == ty + [':'] + v;
    SplitAbsent(v, ':');
  }

  lemma IntTag(n: nat)
    ensures Typed("i", NatToString(n)) == Ok(VInt(n))
  {
    ParseNat(n);
  }

  /** One iteration of `add_tags`. */
  method ApplyTag(m: map<string, Value>, t: string) returns (r: Result<map<string, Value>>)
    ensures r == SetTag(m, t)
  {
    var parts := Split(t, ':');
    if |parts| < 3 {
      return Err(IndexError);
    }
    var k, varType, v := parts[0], parts[1], parts[2];
    var value: Value;
    if varType == "f" {
      var d := ParseFloat(v);
      if d.Err? {
        return Err(d.msg);
      }
      value := VFloat(d.value);
    } else if varType == "i" {
      var n := ParseInt(v);
      if n.Err? {
        return Err("ValueError: " + n.msg);
      }
      value := VInt(n.value);
    } else {
      value := VStr(v);
    }
    if k in TagSlots || k in FieldSlots {
      return Ok(m[k := value]);
    } else if k in ClassSlots {
      return Err("AttributeError: 'Aligned_Read' object attribute '" + k + "' is read-only");
    }
    return Err("AttributeError: 'Aligned_Read' object has no attribute '" + k + "'");
  }

  /** The loop of `add_tags`. */
  method ApplyTags(ts: seq<string>, tags: map<string, Value>) returns (r: Result<map<string, Value>>)
    ensures r == AddTags(ts, tags)
  {
    var m := tags;
    for j := 0 to |ts|
      invariant AddTags(ts[..j], tags) == Ok(m)
    {
      assert ts[..j + 1][..j] == ts[..j];
      var next := ApplyTag(m, ts[j]);
      if next.Err? {
        TagsStayErr(ts, tags, j + 1);
        return next;
      }
      m := next.value;
    }
    assert ts[..|ts|] == ts;
    return Ok(m);
  }

  lemma {:induction false} TagsStayErr(ts: seq<string>, tags: map<string, Value>, j: nat)
    requires j <= |ts| && AddTags(ts[..j], tags).Err?
    ensures AddTags(ts, tags) == AddTags(ts[..j], tags)
    decreases |ts| - j
  {
    if j < |ts| {
      assert ts[..j + 1][..j] == ts[..j];
      TagsStayErr(ts, tags, j + 1);
    } else {
      assert ts[..j] == ts;
    }
  }

  // ---------------------------------------------------------------------
  // add_read

  /** The CIGAR string `read_cigar` reads: the `cigar_str` slot, which an
      optional field may have overwritten; `list()` of a number raises. */
  function CigarText(cigar: string, t: map<string, Value>): Result<string>
  {
    if "cigar_str" !in t then Ok(cigar)
    else
      match t["cigar_str"]
      case VStr(c) => Ok(c)
      case VInt(_) => Err("TypeError: 'int' object is not iterable")
      case VFloat(_) => Err("TypeError: 'float' object is not iterable")
  }

  /** `add_read(l)` on a read whose slots set by optional fields are
      `tags`: the line without its surrounding newlines is split at tabs;
      the read name is split at `#` into read id and UMI; the flags are an
      integer; the mandatory fields are assigned, which clears what an
      earlier line's optional fields wrote into their slots; the fields
      from index 11 on are optional fields; then `matches` is reset and
      the CIGAR string in the `cigar_str` slot is read, and `read_full`
      is set, overwriting whatever an optional field wrote into those two. */
  function ParseRead(l: string, tags: map<string, Value>): Result<Read>
  {
    var f := Split(Strip(l, '\n'), '\t');
    var name := Split(f[0], '#');
    if |name| < 2 || |f| < 2 then Err(IndexError)
    else
      match ParseInt(f[1])
      case Err(m) => Err("ValueError: " + m)
      case Ok(flags) =>
        if |f| < 11 then Err(IndexError)
        else
          match AddTags(f[11..], tags - FieldSlots)
          case Err(m) => Err(m)
          case Ok(t) => FinishRead(f, name, flags, t)
  }

  /** The end of `add_read`, once the optional fields have been written
      into `t`: `matches` is counted from the `cigar_str` slot and the two
      bookkeeping slots are set. */
  function FinishRead(f: seq<string>, name: seq<string>, flags: int, t: map<string, Value>): Result<Read>
    requires |f| >= 11 && |name| >= 2
  {
    match CigarText(f[5], t)
    case Err(m) => Err(m)
    case Ok(c) =>
      match CigarFrom(c, 0, 0)
      case Err(m) => Err(m)
      case Ok(matches) =>
        Ok(Read(name[0], name[1], flags, f[2], f[3], f[4], f[5], f[6], f[7], f[8], f[9], f[10],
                t - {"matches", "read_full"}, matches))
  }

  /** The value slot `k` of a read holds: what an optional field last
      wrote there, or else what `add_read` assigned; None for a slot that
      holds nothing. */
  function Attr(r: Read, k: string): Option<Value>
  {
    if k in r.tags then Some(r.tags[k])
    else if k == "read_id" then Some(VStr(r.readId))
    else if k == "umi" then Some(VStr(r.umi))
    else if k == "flags" then Some(VInt(r.flags))
    else if k == "reference_name" then Some(VStr(r.referenceName))
    else if k == "start" then Some(VStr(r.start))
    else if k == "mapq" then Some(VStr(r.mapq))
    else if k == "cigar_str" then Some(VStr(r.cigar))
    else if k == "mate_reference_name" then Some(VStr(r.mateReferenceName))
    else if k == "mate_start" then Some(VStr(r.mateStart))
    else if k == "inferred_size" then Some(VStr(r.inferredSize))
    else if k == "sequence" then Some(VStr(r.sequence))
    else if k == "quality_score" then Some(VStr(r.qualityScore))
    else if k == "matches" then Some(VInt(r.matches))
    else None
  }

  /** After `add_read` the slots holding optional fields are writable
      ones (or were set before), `matches` and `read_full` hold what
      `add_read` set last, and `matches` counts the CIGAR string the
      `cigar_str` slot ends up with. */
  lemma ParseReadSlots(l: string, tags: map<string, Value>)
    requires ParseRead(l, tags).Ok?
    ensures var r := ParseRead(l, tags).value;
      && (forall k :: k in r.tags ==> k in tags || k in TagSlots || k in FieldSlots)
      && "matches" !in r.tags && "read_full" !in r.tags
      && Attr(r, "cigar_str").Some? && Attr(r, "cigar_str").value.VStr?
      && CigarFrom(Attr(r, "cigar_str").value.s, 0, 0) == Ok(r.matches)
  {
    var f := Split(Strip(l, '\n'), '\t');
    var name := Split(f[0], '#');
    var t := AddTags(f[11..], tags - FieldSlots).value;
    assert ParseRead(l, tags) == FinishRead(f, name, ParseInt(f[1]).value, t);
    AddTagsKeys(f[11..], tags - FieldSlots);
    FinishSlots(f, name, ParseInt(f[1]).value, t);
  }

  lemma FinishSlots(f: seq<string>, name: seq<string>, flags: int, t: map<string, Value>)
    requires |f| >= 11 && |name| >= 2 && FinishRead(f, name, flags, t).Ok?
    ensures var r := FinishRead(f, name, flags, t).value;
      && (forall k :: k in r.tags ==> k in t)
      && "matches" !in r.tags && "read_full" !in r.tags
      && Attr(r, "cigar_str").Some? && Attr(r, "cigar_str").value.VStr?
      && CigarFrom(Attr(r, "cigar_str").value.s, 0, 0) == Ok(r.matches)
  {
    var c := CigarText(f[5], t).value;
    var r := FinishRead(f, name, flags, t).value;
    assert r.tags == t - {"matches", "read_full"};
    assert Attr(r, "cigar_str") == Some(VStr(c));
  }

  /** The keys of the result of `add_tags` are those it started with and
      writable slots. */
  lemma {:induction false} AddTagsKeys(ts: seq<string>, tags: map<string, Value>)
    requires AddTags(ts, tags).Ok?
    ensures forall k :: k in AddTags(ts, tags).value ==> k in tags || k in TagSlots || k in FieldSlots
  {
    if |ts| > 0 {
      AddTagsKeys(ts[..|ts| - 1], tags);
    }
  }

  /** The last optional field of a line wins: when it names a mandatory
      field's slot, that slot holds its typed value afterwards instead of
      the field of the line, e.g. `flags:i:3` makes the flags 3. */
  lemma LastTagWins(l: string, tags: map<string, Value>, k: string, ty: string, v: string)
    requires ParseRead(l, tags).Ok?
    requires var f := Split(Strip(l, '\n'), '\t'); |f| > 11 && f[|f| - 1] == k + ":" + ty + ":" + v
    requires ':' !in k && ':' !in ty && ':' !in v && |ty| > 0 && Typed(ty, v).Ok?
    requires k in FieldSlots && k != "matches" && k != "read_full"
    ensures Attr(ParseRead(l, tags).value, k) == Some(Typed(ty, v).value)
  {
    var f := Split(Strip(l, '\n'), '\t');
    var name := Split(f[0], '#');
    var ts := f[11..];
    assert ts[|ts| - 1] == k + ":" + ty + ":" + v;
    var init := AddTags(ts[..|ts| - 1], tags - FieldSlots);
    assert init.Ok?;
    var val := Typed(ty, v).value;
    TagRoundTrip(init.value, k, ty, v);
    var t := init.value[k := val];
    assert SetTag(init.value, ts[|ts| - 1]) == Ok(t);
    assert AddTags(ts, tags - FieldSlots) == Ok(t);
    var fr := FinishRead(f, name, ParseInt(f[1]).value, t);
    assert ParseRead(l, tags) == fr;
    assert fr.value.tags == t - {"matches", "read_full"};
    assert k in fr.value.tags && fr.value.tags[k] == val;
    assert Attr(fr.value, k) == Some(val);
  }

  lemma {:induction false} JoinAbsent(sep: string, parts: seq<string>, c: char)
    requires c !in sep && forall k :: 0 <= k < |parts| ==> c !in parts[k]
    ensures c !in Join(sep, parts)
  {
    if |parts| > 1 {
      JoinAbsent(sep, parts[1..], c);
    }
  }

  /** An alignment line written from its fields reads back as those
      fields: the read id and UMI around the `#`, the flags, the optional
      fields, and the matched length of the CIGAR operations. */
  lemma ParseReadRoundTrip(id: string, umi: string, flags: nat, f: seq<string>, ops: seq<CigarOp>,
                           tags: map<string, Value>)
    requires |f| >= 11 && f[0] == id + "#" + umi && f[1] == NatToString(flags) && f[5] == Render(ops)
    requires '#' !in id && '#' !in umi
    requires forall k :: 0 <= k < |f| ==> '\t' !in f[k] && '\n' !in f[k]
    requires forall k :: 0 <= k < |ops| ==> IsOp(ops[k].op)
    requires AddTags(f[11..], tags - FieldSlots).Ok?
    requires "cigar_str" !in AddTags(f[11..], tags - FieldSlots).value
    ensures ParseRead(Join("\t", f), tags) ==
      Ok(Read(id, umi, flags, f[2], f[3], f[4], f[5], f[6], f[7], f[8], f[9], f[10],
              AddTags(f[11..], tags - FieldSlots).value - {"matches", "read_full"}, MatchLength(ops)))
  {
    var l := Join("\t", f);
    JoinAbsent("\t", f, '\n');
    StripRightAbsent(l, '\n');
    StripLeftAbsent(l, '\n');
    assert Strip(l, '\n') == l;
    SplitJoin('\t', f);
    assert Split(Strip(l, '\n'), '\t') == f;
    SplitAfter(id, '#', umi);
    assert f[0] == id + ['#'] + umi;
    SplitAbsent(umi, '#');
    assert Split(f[0], '#') == [id, umi];
    ParseNat(flags);
    CigarOfRender(f[5], ops);
  }

  lemma CigarOfRender(c: string, ops: seq<CigarOp>)
    requires c == Render(ops) && forall k :: 0 <= k < |ops| ==> IsOp(ops[k].op)
    ensures CigarFrom(c, 0, 0).Ok? && CigarFrom(c, 0, 0).value == MatchLength(ops)
  {
    CigarRoundTrip(ops, 0, 0);
  }

  /** `read_passed`: raises when NM is missing or a string, else whether
      the read clears both thresholds; an integer threshold compares with
      a float NM by value. */
  function PassedOf(r: Read, editDistance: int, minMatches: int): Result<bool>
  {
    if "NM" !in r.tags then Err("AttributeError: 'Aligned_Read' object has no attribute 'NM'")
    else
      match r.tags["NM"]
      case VInt(nm) => Ok(!(editDistance <= nm || r.matches <= minMatches))
      case VStr(_) => Err("TypeError: '<=' not supported between instances of 'int' and 'str'")
      case VFloat(d) => Ok(!(AtMost(editDistance, d) || r.matches <= minMatches))
  }

  /** A read with a numeric NM fails exactly when its edit distance
      threshold is at most NM or it has at most the minimum of matches;
      without NM, or with a string NM, `read_passed` raises. */
  lemma PassedSpec(r: Read, editDistance: int, minMatches: int)
    ensures PassedOf(r, editDistance, minMatches).Ok? <==> "NM" in r.tags && !r.tags["NM"].VStr?
    ensures PassedOf(r, editDistance, minMatches) == Ok(true) <==>
      "NM" in r.tags && r.matches > minMatches &&
      ((r.tags["NM"].VInt? && r.tags["NM"].i < editDistance) ||
       (r.tags["NM"].VFloat? && !AtMost(editDistance, r.tags["NM"].d)))
  {
  }

  /** A float NM compares by value: an NM of 1.5 lets an edit distance
      threshold of 2 pass and stops one of 1. */
  lemma FloatNmCompares(r: Read)
    requires "NM" in r.tags && r.tags["NM"] == VFloat(Decimal(15, 10)) && r.matches > 0
    ensures PassedOf(r, 2, 0) == Ok(true) && PassedOf(r, 1, 0) == Ok(false)
  {
  }

  /** An `Aligned_Read`; `edit_distance` and `min_matches` are the class
      attributes set from the command line. */
  class AlignedRead {
    var read: Read
    var readFull: bool
    const editDistance: int
    const minMatches: int

    /** `Aligned_Read()`: not yet truthy, and no optional field set. */
    constructor(editDistance: int, minMatches: int)
      ensures !readFull && read.tags == map[]
      ensures this.editDistance == editDistance && this.minMatches == minMatches
    {
      read := Read("", "", 0, "", "", "", "", "", "", "", "", "", map[], 0);
      readFull := false;
      this.editDistance := editDistance;
      this.minMatches := minMatches;
    }

    /** `__bool__` */
    function Truthy(): bool
      reads this
    {
      readFull
    }

    /** `add_read(l)`: the read becomes truthy exactly when the line is
        read. Python assigns the fields one by one, so a raise part-way
        leaves some of them set; the model leaves the read as it was, which
        is what a caller can observe because the only caller
        (count_reads.py:172) lets the exception end the run. */
    method AddRead(l: string) returns (ok: Outcome)
      modifies this
      ensures ParseRead(l, old(read.tags)).Ok? ==>
        ok == Pass && read == ParseRead(l, old(read.tags)).value && readFull
      ensures ParseRead(l, old(read.tags)).Err? ==>
        ok == Fail(ParseRead(l, old(read.tags)).msg) && read == old(read) && readFull == old(readFull)
    {
      var f := Split(Strip(l, '\n'), '\t');
      var name := Split(f[0], '#');
      if |name| < 2 || |f| < 2 {
        return Fail(IndexError);
      }
      var flags := ParseInt(f[1]);
      if flags.Err? {
        return Fail("ValueError: " + flags.msg);
      }
      if |f| < 11 {
        return Fail(IndexError);
      }
      var tags := ApplyTags(f[11..], read.tags - FieldSlots);
      if tags.Err? {
        return Fail(tags.msg);
      }
      var cigar := CigarText(f[5], tags.value);
      if cigar.Err? {
        return Fail(cigar.msg);
      }
      var matches := CigarMatches(cigar.value);
      if matches.Err? {
        return Fail(matches.msg);
      }
      read := Read(name[0], name[1], flags.value, f[2], f[3], f[4], f[5], f[6], f[7], f[8], f[9], f[10],
                   tags.value - {"matches", "read_full"}, matches.value);
      readFull := true;
      return Pass;
    }

    /** `read_passed` */
    method ReadPassed() returns (r: Result<bool>)
      ensures r == PassedOf(read, editDistance, minMatches)
    {
      if "NM" !in read.tags {
        return Err("AttributeError: 'Aligned_Read' object has no attribute 'NM'");
      }
      var nm := read.tags["NM"];
      if nm.VStr? {
        return Err("TypeError: '<=' not supported between instances of 'int' and 'str'");
      } else if nm.VFloat? {
        return Ok(!(AtMost(editDistance, nm.d) || read.matches <= minMatches));
      }
      if editDistance <= nm.i || read.matches <= minMatches {
        return Ok(false);
      }
      return Ok(true);
    }
  }

  // ---------------------------------------------------------------------
  // get_unique_run_ids

  /** The path components of the text before the first `.` of a path. */
  function Components(p: string): seq<string>
  {
    Split(Split(p, '.')[0], '/')
  }

  /** `f.split('.')[0].split('/')[idx]`, None being an IndexError. */
  function RunIdAt(p: string, idx: int): Option<string>
  {
    match PyIndex(idx, |Components(p)|)
    case None => None
    case Some(j) => Some(Components(p)[j])
  }

  /** `new_pl`, or None when some path has too few components. */
  function RunIdsAt(paths: seq<string>, idx: int): (r: Option<seq<string>>)
    ensures r.Some? ==> |r.value| == |paths|
    ensures r.Some? <==> forall k :: 0 <= k < |paths| ==> RunIdAt(paths[k], idx).Some?
    ensures r.Some? ==> forall k :: 0 <= k < |paths| ==> RunIdAt(paths[k], idx) == Some(r.value[k])
  {
    if |paths| == 0 then Some([])
    else
      match RunIdsAt(paths[..|paths| - 1], idx)
      case None => None
      case Some(ids) =>
        match RunIdAt(paths[|paths| - 1], idx)
        case None => None
        case Some(id) => Some(ids + [id])
  }

  function Pairs(paths: seq<string>, ids: seq<string>): (r: seq<(string, string)>)
    requires |paths| == |ids|
    ensures |r| == |paths| && forall k :: 0 <= k < |r| ==> r[k] == (paths[k], ids[k])
  {
    seq(|paths|, k requires 0 <= k < |paths| => (paths[k], ids[k]))
  }

  function Elements(s: seq<string>): set<string>
  {
    set x | x in s
  }

  /** `get_unique_run_ids(path_list, idx)`: the components at `idx`, moving
      one component left while two paths share one. */
  function UniqueRunIds(paths: seq<string>, idx: int): Result<seq<(string, string)>>
    decreases if |paths| == 0 then 0 else |Components(paths[0])| + idx + 1
  {
    match RunIdsAt(paths, idx)
    case None => Err(IndexError)
    case Some(ids) =>
      if |Elements(ids)| != |paths| then UniqueRunIds(paths, idx - 1)
      else Ok(Pairs(paths, ids))
  }

  lemma {:induction false} ElementsCount(s: seq<string>)
    ensures |Elements(s)| <= |s|
    ensures |Elements(s)| == |s| <==> NoDuplicates(s)
  {
    if |s| > 0 {
      var init := s[..|s| - 1];
      var x := s[|s| - 1];
      ElementsCount(init);
      assert s == init + [x];
      assert Elements(s) == Elements(init) + {x};
      NoDuplicatesSnoc(init, x);
    }
  }

  /** The run ids come in the order of the paths, are pairwise distinct and
      are the components of all paths at one index `d`, the first index
      from `idx` leftwards at which they are distinct. */
  lemma {:induction false} UniqueRunIdsSpec(paths: seq<string>, idx: int) returns (d: int)
    requires UniqueRunIds(paths, idx).Ok?
    ensures d <= idx
    ensures var r := UniqueRunIds(paths, idx).value;
      && |r| == |paths|
      && (forall k :: 0 <= k < |r| ==> r[k].0 == paths[k] && RunIdAt(paths[k], d) == Some(r[k].1))
      && NoDuplicates(RunIdsAt(paths, d).value)
    ensures forall e :: d < e <= idx ==> RunIdsAt(paths, e).Some? && !NoDuplicates(RunIdsAt(paths, e).value)
    decreases if |paths| == 0 then 0 else |Components(paths[0])| + idx + 1
  {
    assert RunIdsAt(paths, idx).Some?;
    var ids := RunIdsAt(paths, idx).value;
    ElementsCount(ids);
    if |Elements(ids)| != |paths| {
      assert UniqueRunIds(paths, idx) == UniqueRunIds(paths, idx - 1);
      assert !NoDuplicates(ids);
      d := UniqueRunIdsSpec(paths, idx - 1);
      forall e | d < e <= idx ensures RunIdsAt(paths, e).Some? && !NoDuplicates(RunIdsAt(paths, e).value) {
        if e == idx {
          assert RunIdsAt(paths, e).value == ids;
        }
      }
    } else {
      assert UniqueRunIds(paths, idx) == Ok(Pairs(paths, ids));
      d := idx;
    }
  }

  /** A path listed twice never gets a unique run id: the walk runs out
      of components and raises IndexError. */
  lemma {:induction false} RepeatedPathFails(paths: seq<string>, idx: int, a: nat, b: nat)
    requires a < b < |paths| && paths[a] == paths[b]
    ensures UniqueRunIds(paths, idx).Err?
    decreases |Components(paths[0])| + idx + 1
  {
    match RunIdsAt(paths, idx)
    case None =>
    case Some(ids) =>
      ElementsCount(ids);
      assert ids[a] == ids[b];
      RepeatedPathFails(paths, idx - 1, a, b);
  }

  // ---------------------------------------------------------------------
  // merge_dic

  /** `merge_dic(results)` */
  function Merged<D>(results: seq<(string, D)>): map<string, D>
  {
    if |results| == 0 then map[]
    else Merged(results[..|results| - 1])[results[|results| - 1].0 := results[|results| - 1].1]
  }

  /** Every sample name is a key, mapped to the dictionary of its last
      occurrence. */
  lemma {:induction false} MergedSpec<D>(results: seq<(string, D)>)
    ensures forall name :: name in Merged(results) <==> exists i :: 0 <= i < |results| && results[i].0 == name
    ensures forall i :: 0 <= i < |results| && (forall j :: i < j < |results| ==> results[j].0 != results[i].0) ==>
      Merged(results)[results[i].0] == results[i].1
  {
    if |results| > 0 {
      var init := results[..|results| - 1];
      MergedSpec(init);
      assert forall i :: 0 <= i < |init| ==> init[i] == results[i];
    }
  }

  /** The loop of `merge_dic`. */
  method MergeDic<D>(results: seq<(string, D)>) returns (assembled: map<string, D>)
    ensures assembled == Merged(results)
  {
    assembled := map[];
    for i := 0 to |results|
      invariant assembled == Merged(results[..i])
    {
      assert results[..i + 1][..i] == results[..i];
      var (sampleName, d) := results[i];
      assembled := assembled[sampleName := d];
    }
    assert results[..|results|] == results;
  }
}
