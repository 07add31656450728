/** The one-hot positional k-mer features of
    src/naptrap/db_features/hot_encoded.py. `to_db` reads the
    (k-mer, position, reporter) rows of k-mers no longer than `kmax`,
    drops the rows at excluded positions, renumbers the others and hands
    one feature per kept row, named `'{kmer}_{pos}'` and typed
    `'hot_encoded_{len(kmer)}'`, to `add_features`. */
module HotEncoded {
  import opened Common
  import MpraDb

  /** A row of the k-mer position query. */
  datatype KmerPos = KmerPos(kmer: string, pos: int, reporterId: int)

  /** The query's `db['kmer'].length() <= kmax`. */
  function Fetched(rows: seq<KmerPos>, kmax: int): (r: seq<KmerPos>)
    ensures forall x :: x in r <==> x in rows && |x.kmer| <= kmax
  {
    if |rows| == 0 then []
    else
      var last := rows[|rows| - 1];
      assert rows == rows[..|rows| - 1] + [last];
      Fetched(rows[..|rows| - 1], kmax) + (if |last.kmer| <= kmax then [last] else [])
  }

  /** The position written into the name: shifted by `pos_adjust` when it
      is given, and then, unless `pos_0`, moved up by one when not
      negative, so that no position is called 0. */
  function Renumber(pos: int, adjust: Option<int>, pos0: bool): int
  {
    match adjust
    case None => pos
    case Some(a) => if !pos0 && pos + a >= 0 then pos + a + 1 else pos + a
  }

  function FeatureName(kmer: string, pos: int): string
  {
    kmer + "_" + IntToString(pos)
  }

  function FeatureType(kmer: string): string
  {
    "hot_encoded_" + NatToString(|kmer|)
  }

  /** The rows whose position is not excluded, in order. */
  function Kept(rows: seq<KmerPos>, exclude: seq<int>): (r: seq<KmerPos>)
    ensures |r| <= |rows|
    ensures forall x :: x in r <==> x in rows && x.pos !in exclude
  {
    if |rows| == 0 then []
    else
      var last := rows[|rows| - 1];
      assert rows == rows[..|rows| - 1] + [last];
      Kept(rows[..|rows| - 1], exclude) + (if last.pos in exclude then [] else [last])
  }

  /** The three lists `to_db` fills. */
  datatype Encoded = Encoded(names: seq<string>, reporterIds: seq<int>, types: seq<string>)

  /** The name of a kept row. */
  function NameOf(r: KmerPos, adjust: Option<int>, pos0: bool): string
  {
    FeatureName(r.kmer, Renumber(r.pos, adjust, pos0))
  }

  /** One entry per kept row in each list: entry i of each describes kept row i. */
  function Encode(kept: seq<KmerPos>, adjust: Option<int>, pos0: bool): (e: Encoded)
    ensures |e.names| == |kept| && |e.reporterIds| == |kept| && |e.types| == |kept|
    ensures forall i :: 0 <= i < |kept| ==>
      e.names[i] == NameOf(kept[i], adjust, pos0) &&
      e.reporterIds[i] == kept[i].reporterId && e.types[i] == FeatureType(kept[i].kmer)
  {
    Encoded(seq(|kept|, i requires 0 <= i < |kept| => NameOf(kept[i], adjust, pos0)),
            seq(|kept|, i requires 0 <= i < |kept| => kept[i].reporterId),
            seq(|kept|, i requires 0 <= i < |kept| => FeatureType(kept[i].kmer)))
  }

  lemma EncodeSnoc(kept: seq<KmerPos>, r: KmerPos, adjust: Option<int>, pos0: bool)
    ensures Encode(kept + [r], adjust, pos0).names == Encode(kept, adjust, pos0).names + [NameOf(r, adjust, pos0)]
    ensures Encode(kept + [r], adjust, pos0).reporterIds == Encode(kept, adjust, pos0).reporterIds + [r.reporterId]
    ensures Encode(kept + [r], adjust, pos0).types == Encode(kept, adjust, pos0).types + [FeatureType(r.kmer)]
  {
  }

  /** The lists after the loop has seen `rows`. */
  function EncodeOf(rows: seq<KmerPos>, exclude: seq<int>, adjust: Option<int>, pos0: bool): Encoded
  {
    if |rows| == 0 then Encoded([], [], [])
    else
      var e := EncodeOf(rows[..|rows| - 1], exclude, adjust, pos0);
      var r := rows[|rows| - 1];
      if r.pos in exclude then e
      else Encoded(e.names + [NameOf(r, adjust, pos0)], e.reporterIds + [r.reporterId], e.types + [FeatureType(r.kmer)])
  }

  /** The loop encodes exactly the kept rows. */
  lemma {:induction false} EncodeOfKept(rows: seq<KmerPos>, exclude: seq<int>, adjust: Option<int>, pos0: bool)
    ensures EncodeOf(rows, exclude, adjust, pos0) == Encode(Kept(rows, exclude), adjust, pos0)
  {
    if |rows| > 0 {
      var init := rows[..|rows| - 1];
      EncodeOfKept(init, exclude, adjust, pos0);
      var r := rows[|rows| - 1];
      var k := Kept(init, exclude);
      if r.pos !in exclude {
        assert Kept(rows, exclude) == k + [r];
        EncodeSnoc(k, r, adjust, pos0);
      } else {
        assert Kept(rows, exclude) == k + [];
        assert k + [] == k;
      }
    }
  }

  /** `np.ones(len(kmer_positions))` */
  function Ones(n: nat): (r: seq<real>)
    ensures |r| == n && forall i :: 0 <= i < n ==> r[i] == 1.0
  {
    seq(n, _ => 1.0)
  }

  /** The loop of `to_db` over the fetched rows. */
  method EncodeRows(rows: seq<KmerPos>, exclude: seq<int>, adjust: Option<int>, pos0: bool)
    returns (names: seq<string>, reporterIds: seq<int>, types: seq<string>)
    ensures Encoded(names, reporterIds, types) == EncodeOf(rows, exclude, adjust, pos0)
  {
    names, reporterIds, types := [], [], [];
    for i := 0 to |rows|
      invariant Encoded(names, reporterIds, types) == EncodeOf(rows[..i], exclude, adjust, pos0)
    {
      assert rows[..i + 1][..i] == rows[..i];
      var kmer, pos, rid := rows[i].kmer, rows[i].pos, rows[i].reporterId;
      if pos !in exclude {
        if adjust.Some? {
          pos := pos + adjust.value;
          if !pos0 && pos >= 0 {
            pos := pos + 1;
          }
        }
        assert FeatureName(kmer, pos) == NameOf(rows[i], adjust, pos0);
        names := names + [FeatureName(kmer, pos)];
        reporterIds := reporterIds + [rid];
        types := types + [FeatureType(kmer)];
      }
    }
    assert rows[..|rows|] == rows;
  }

  /** `to_db`: the attribute and data rows `add_features` inserts, given
      the rows of the position query and the largest stored feature id.
      `to_list` raises when the query returns no row (its message is
      paraphrased by `NotValid`). */
  method ToDb(kmerPositions: seq<KmerPos>, kmax: int, exclude: seq<int>, adjust: Option<int>, pos0: bool, maxFeatureId: int)
    returns (r: Result<(seq<MpraDb.AttrRow>, seq<MpraDb.DataRow<real>>)>)
    ensures r.Err? <==> |Fetched(kmerPositions, kmax)| == 0
    ensures r.Err? ==> r.msg == NotValid
    ensures r.Ok? ==> var f := MpraDb.FeaturesOf(maxFeatureId, Rows(Fetched(kmerPositions, kmax), exclude, adjust, pos0));
      r.value.0 == f.attrs && r.value.1 == f.data
  {
    var fetched := Fetched(kmerPositions, kmax);
    if |fetched| == 0 {
      return Err(NotValid);
    }
    var names, reporterIds, types := EncodeRows(fetched, exclude, adjust, pos0);
    EncodeOfKept(fetched, exclude, adjust, pos0);
    var values := Ones(|fetched|);
    var attrs, data := MpraDb.AddFeatures(maxFeatureId, names, types, reporterIds, values);
    FeatureRows(fetched, exclude, adjust, pos0);
    r := Ok((attrs, data));
  }

  /** The rows `add_features` iterates over: `zip` stops at the kept rows,
      so the surplus ones of `data` are never read. */
  function Rows(fetched: seq<KmerPos>, exclude: seq<int>, adjust: Option<int>, pos0: bool): seq<MpraDb.FeatureRow<real>>
  {
    var e := Encode(Kept(fetched, exclude), adjust, pos0);
    MpraDb.Zip(e.names, e.types, e.reporterIds, Ones(|fetched|))
  }

  /** One feature row per kept row, each with value 1.0, in order. */
  lemma FeatureRows(fetched: seq<KmerPos>, exclude: seq<int>, adjust: Option<int>, pos0: bool)
    ensures var kept := Kept(fetched, exclude);
      var rows := Rows(fetched, exclude, adjust, pos0);
      |rows| == |kept| &&
      forall i :: 0 <= i < |kept| ==>
        rows[i] == MpraDb.FeatureRow(NameOf(kept[i], adjust, pos0), FeatureType(kept[i].kmer), kept[i].reporterId, 1.0)
  {
  }

  // ------------------------------------------------------------ properties

  /** Without `pos_adjust` the raw position is used. */
  lemma RawPosition(pos: int, pos0: bool)
    ensures Renumber(pos, None, pos0) == pos
  {
  }

  /** With `pos_adjust` and without `pos_0` no feature is at position 0. */
  lemma NoPositionZero(pos: int, a: int)
    ensures Renumber(pos, Some(a), false) != 0
  {
  }

  /** Renumbering keeps distinct positions distinct. */
  lemma RenumberInjective(p: int, q: int, adjust: Option<int>, pos0: bool)
    requires Renumber(p, adjust, pos0) == Renumber(q, adjust, pos0)
    ensures p == q
  {
  }

  /** Reads a feature name back into its k-mer and position. */
  function DecodeName(name: string): Result<(string, int)>
  {
    var parts := Split(name, '_');
    if |parts| != 2 then Err("not a positional k-mer feature")
    else
      match ParseInt(parts[1])
      case Err(m) => Err(m)
      case Ok(p) => Ok((parts[0], p))
  }

  /** A name gives back the k-mer and the renumbered position it was made
      from, so different (k-mer, position) pairs get different names. */
  lemma NameRoundTrip(kmer: string, pos: int)
    requires '_' !in kmer
    ensures DecodeName(FeatureName(kmer, pos)) == Ok((kmer, pos))
  {
    var digits := IntToString(pos);
    assert '_' !in digits by {
      if pos < 0 {
        DigitsOfNat(-pos);
        assert digits == "-" + NatToString(-pos);
      } else {
        DigitsOfNat(pos);
      }
    }
    assert FeatureName(kmer, pos) == Join("_", [kmer, digits]);
    SplitJoin('_', [kmer, digits]);
    ParseIntOfInt(pos);
  }

  lemma NamesDistinct(k1: string, p1: int, k2: string, p2: int)
    requires '_' !in k1 && '_' !in k2 && (k1, p1) != (k2, p2)
    ensures FeatureName(k1, p1) != FeatureName(k2, p2)
  {
    NameRoundTrip(k1, p1);
    NameRoundTrip(k2, p2);
  }
}
