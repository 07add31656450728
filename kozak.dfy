/** Kozak scoring of src/db_features/kozak.py: a sequence is left-padded
    with 'K' to 15 bases, a 'K' or 'N' scores 25, and any other base b at
    padded position i scores `frequency_matrix[b][i]`; the score is the sum
    of the positions. */
module Kozak {
  import opened Common

  /** A frequency matrix: one row of counts per base. */
  type Matrix = map<char, seq<int>>

  const Window: nat := 15
  const Wildcard: int := 25

  /** `(15 - len(seq)) * 'K' + seq` */
  function Padded(s: string): (r: string)
    ensures |r| == if |s| < Window then Window else |s|
    ensures r[|r| - |s|..] == s
    ensures forall i :: 0 <= i < |r| - |s| ==> r[i] == 'K'
  {
    RepeatChar('K', Window - |s|) + s
  }

  predicate IsWildcard(b: char)
  {
    b == 'K' || b == 'N'
  }

  /** What base b at padded position i adds, or the KeyError / IndexError
      the lookup raises. */
  function Contribution(b: char, i: nat, fm: Matrix): (r: Result<int>)
    ensures IsWildcard(b) ==> r == Ok(Wildcard)
    ensures !IsWildcard(b) ==> (r.Ok? <==> b in fm && i < |fm[b]|)
    ensures !IsWildcard(b) && r.Ok? ==> r.value == fm[b][i]
  {
    if !IsWildcard(b) then
      if b !in fm then Err("KeyError: " + [b])
      else if i >= |fm[b]| then Err("list index out of range")
      else Ok(fm[b][i])
    else Ok(Wildcard)
  }

  /** Adding two partial scores; the first error met wins. */
  function Plus(a: Result<int>, b: Result<int>): Result<int>
  {
    if a.Err? then a else if b.Err? then b else Ok(a.value + b.value)
  }

  /** The accumulation over `p`, whose first base sits at position `off`. */
  function ScoreFrom(p: string, fm: Matrix, off: nat): Result<int>
  {
    if |p| == 0 then Ok(0)
    else Plus(ScoreFrom(p[..|p| - 1], fm, off), Contribution(p[|p| - 1], off + |p| - 1, fm))
  }

  /** `get_kozak_score` */
  function KozakScore(s: string, fm: Matrix): Result<int>
  {
    ScoreFrom(Padded(s), fm, 0)
  }

  method GetKozakScore(s: string, fm: Matrix) returns (r: Result<int>)
    ensures r == KozakScore(s, fm)
  {
    r := Accumulate(Padded(s), fm);
  }

  /** The loop of `get_kozak_score` over the padded sequence. */
  method Accumulate(p: string, fm: Matrix) returns (r: Result<int>)
    ensures r == ScoreFrom(p, fm, 0)
  {
    var score := 0;
    for i := 0 to |p|
      invariant ScoreFrom(p[..i], fm, 0) == Ok(score)
    {
      assert p[..i + 1][..i] == p[..i];
      var b := p[i];
      assert ScoreFrom(p[..i + 1], fm, 0) == Plus(Ok(score), Contribution(b, i, fm));
      if b != 'K' && b != 'N' {
        if b !in fm {
          r := Err("KeyError: " + [b]);
          ScoreStaysErr(p, fm, 0, i + 1);
          return;
        } else if i >= |fm[b]| {
          r := Err("list index out of range");
          ScoreStaysErr(p, fm, 0, i + 1);
          return;
        }
        score := score + fm[b][i];
      } else {
        score := score + Wildcard;
      }
      assert ScoreFrom(p[..i + 1], fm, 0) == Ok(score);
    }
    assert p[..|p|] == p;
    return Ok(score);
  }

  /** Once the accumulation has raised, the rest of the sequence does not
      change the error. */
  lemma {:induction false} ScoreStaysErr(p: string, fm: Matrix, off: nat, i: nat)
    requires i <= |p| && ScoreFrom(p[..i], fm, off).Err?
    ensures ScoreFrom(p, fm, off) == ScoreFrom(p[..i], fm, off)
    decreases |p| - i
  {
    if i < |p| {
      assert p[..i + 1][..i] == p[..i];
      ScoreStaysErr(p, fm, off, i + 1);
    } else {
      assert p[..i] == p;
    }
  }

  lemma PlusAssoc(a: Result<int>, b: Result<int>, c: Result<int>)
    ensures Plus(Plus(a, b), c) == Plus(a, Plus(b, c))
  {
  }

  /** Scoring a concatenation scores its two halves at their positions. */
  lemma {:induction false} ScoreAppend(a: string, b: string, fm: Matrix, off: nat)
    ensures ScoreFrom(a + b, fm, off) == Plus(ScoreFrom(a, fm, off), ScoreFrom(b, fm, off + |a|))
  {
    if |b| == 0 {
      assert a + b == a;
    } else {
      var b' := b[..|b| - 1];
      assert (a + b)[..|a + b| - 1] == a + b';
      ScoreAppend(a, b', fm, off);
      PlusAssoc(ScoreFrom(a, fm, off), ScoreFrom(b', fm, off + |a|), Contribution(b[|b| - 1], off + |a| + |b| - 1, fm));
    }
  }

  /** A run of 'K' and 'N' scores 25 a base, whatever the matrix. */
  lemma {:induction false} WildcardsScore(p: string, fm: Matrix, off: nat)
    requires forall i :: 0 <= i < |p| ==> IsWildcard(p[i])
    ensures ScoreFrom(p, fm, off) == Ok(25 * |p|)
  {
    if |p| > 0 {
      WildcardsScore(p[..|p| - 1], fm, off);
    }
  }

  /** The score raises exactly when some base that is not a wildcard has
      no row in the matrix or no entry at its position. */
  lemma {:induction false} ScoreOkIff(p: string, fm: Matrix, off: nat)
    ensures ScoreFrom(p, fm, off).Ok? <==>
      forall i :: 0 <= i < |p| ==> Contribution(p[i], off + i, fm).Ok?
  {
    if |p| > 0 {
      var init := p[..|p| - 1];
      ScoreOkIff(init, fm, off);
      assert forall i :: 0 <= i < |init| ==> init[i] == p[i];
    }
  }

  /** Wildcards in front add 25 each and move the rest along. */
  lemma WildcardPrefix(pad: string, s: string, fm: Matrix)
    requires forall i :: 0 <= i < |pad| ==> IsWildcard(pad[i])
    ensures ScoreFrom(pad + s, fm, 0) == Plus(Ok(25 * |pad|), ScoreFrom(s, fm, |pad|))
  {
    ScoreAppend(pad, s, fm, 0);
    WildcardsScore(pad, fm, 0);
  }

  /** A short sequence scores 25 for each padding position and is scored
      from position 15 - len(seq) on; a longer one is scored as it is. */
  lemma PaddingScore(s: string, fm: Matrix)
    ensures |s| < Window ==>
      KozakScore(s, fm) == Plus(Ok(25 * (Window - |s|)), ScoreFrom(s, fm, Window - |s|))
    ensures |s| >= Window ==> KozakScore(s, fm) == ScoreFrom(s, fm, 0)
  {
    var pad := RepeatChar('K', Window - |s|);
    assert Padded(s) == pad + s;
    WildcardPrefix(pad, s, fm);
    if |s| >= Window {
      assert pad == "" && pad + s == s;
    }
  }
}
