/** Shared vocabulary of the model: results for the source's exceptions,
    and the handful of Python string and sequence operations that the
    query engine and the feature extractors rely on, written out with the
    semantics Python gives them. */
module Common {

  datatype Option<T> = None | Some(value: T)

  /** A raised exception becomes Err with the message the source raises. */
  datatype Result<T> = Ok(value: T) | Err(msg: string)

  datatype Outcome = Pass | Fail(msg: string)

  /** `sep.join(parts)` */
  function Join(sep: string, parts: seq<string>): string
  {
    if |parts| == 0 then ""
    else if |parts| == 1 then parts[0]
    else parts[0] + sep + Join(sep, parts[1..])
  }

  predicate IsPrefix(p: string, s: string)
  {
    |p| <= |s| && s[..|p|] == p
  }

  /** Python's `sub in s` for strings: a substring test. */
  predicate HasSub(s: string, sub: string)
    decreases |s|
  {
    IsPrefix(sub, s) || (|s| > 0 && HasSub(s[1..], sub))
  }

  /** `s.replace(pat, rep)`: every non-overlapping occurrence, scanning left
      to right; an empty pattern inserts `rep` around every character. */
  function Replace(s: string, pat: string, rep: string): string
    decreases |s|
  {
    if |pat| == 0 then
      (if |s| == 0 then rep else rep + [s[0]] + Replace(s[1..], pat, rep))
    else if |s| == 0 then ""
    else if IsPrefix(pat, s) then rep + Replace(s[|pat|..], pat, rep)
    else [s[0]] + Replace(s[1..], pat, rep)
  }

  /** `s.split(sep)` for a one-character separator. */
  function Split(s: string, sep: char): (r: seq<string>)
    ensures |r| >= 1
  {
    if |s| == 0 then [""]
    else if s[0] == sep then [""] + Split(s[1..], sep)
    else
      var rest := Split(s[1..], sep);
      [[s[0]] + rest[0]] + rest[1..]
  }

  function Reverse<T>(s: seq<T>): (r: seq<T>)
    ensures |r| == |s|
  {
    if |s| == 0 then [] else Reverse(s[1..]) + [s[0]]
  }

  function Digit(d: nat): char
    requires d < 10
  {
    "0123456789"[d]
  }

  predicate IsDigit(c: char)
  {
    '0' <= c <= '9'
  }

  /** `str(n)` for a natural number. */
  function NatToString(n: nat): (r: string)
    ensures |r| >= 1
    decreases n
  {
    if n < 10 then [Digit(n)] else NatToString(n / 10) + [Digit(n % 10)]
  }

  /** `str(i)` for an integer. */
  function IntToString(i: int): string
  {
    if i < 0 then "-" + NatToString(-i) else NatToString(i)
  }

  /** Value of a string of decimal digits. */
  function DigitsValue(s: string): nat
    requires (forall k :: 0 <= k < |s| ==> IsDigit(s[k]))
  {
    if |s| == 0 then 0
    else
      var d := s[|s| - 1];
      assert IsDigit(d);
      DigitsValue(s[..|s| - 1]) * 10 + ((d as int) - ('0' as int))
  }

  /** `int(s)` restricted to what the model needs: an optional sign and one
      or more decimal digits; anything else raises ValueError. */
  function ParseInt(s: string): Result<int>
  {
    if |s| > 0 && (s[0] == '-' || s[0] == '+') then
      var body := s[1..];
      if |body| > 0 && (forall k :: 0 <= k < |body| ==> IsDigit(body[k])) then
        var v: int := DigitsValue(body);
        Ok(if s[0] == '-' then -v else v)
      else Err("invalid literal for int()")
    else if |s| > 0 && (forall k :: 0 <= k < |s| ==> IsDigit(s[k])) then Ok(DigitsValue(s))
    else Err("invalid literal for int()")
  }

  /** Index of the first `c` in `s`, or `|s|` when there is none. */
  function IndexOf(s: string, c: char): (r: nat)
    ensures r <= |s|
  {
    if |s| == 0 || s[0] == c then 0 else 1 + IndexOf(s[1..], c)
  }

  function Pow10(n: nat): (r: nat)
    ensures r >= 1
  {
    if n == 0 then 1 else 10 * Pow10(n - 1)
  }

  /** `a` followed by `k` zero digits. */
  function Shifted(a: nat, k: nat): nat
  {
    if k == 0 then a else 10 * Shifted(a, k - 1)
  }

  /** A finite number read from a decimal literal, as the fraction
      `num / den`. */
  datatype Decimal = Decimal(num: int, den: nat)

  /** The digits of a significand read as one integer, and how many of
      them follow the point. */
  datatype Digits = Digits(value: nat, scale: nat)

  /** An unsigned significand `d`, `d.d`, `d.` or `.d` (at least one
      digit): its digits read as one integer, and how many of them follow
      the point. */
  function Significand(s: string): Option<Digits>
  {
    var i := IndexOf(s, '.');
    var whole := s[..i];
    var frac := if i < |s| then s[i + 1..] else "";
    if (forall k :: 0 <= k < |whole| ==> IsDigit(whole[k])) && (forall k :: 0 <= k < |frac| ==> IsDigit(frac[k])) && |whole| + |frac| > 0 then
      Some(Digits(Shifted(DigitsValue(whole), |frac|) + DigitsValue(frac), |frac|))
    else None
  }

  /** What `to_list` raises on an empty fetch, paraphrased: the message
      of db_to_sqlite.py also carries the SQL text and an `Error:` prefix,
      which are left out. */
  const NotValid := "list index out of range :This selector is not valid!"

  const FloatError := "ValueError: could not convert string to float"

  /** The value `m / 10^scale * 10^x` as a fraction. */
  function Scaled(m: nat, scale: nat, x: int): (r: Decimal)
    ensures r.den > 0
  {
    if x >= scale then Decimal(Shifted(m, x - scale), 1) else Decimal(m, Pow10(scale - x))
  }

  /** Where the exponent of an unsigned literal starts: the first `e` or
      `E`, or the end. */
  function ExponentAt(body: string): (r: nat)
    ensures r <= |body|
  {
    if IndexOf(body, 'e') <= IndexOf(body, 'E') then IndexOf(body, 'e') else IndexOf(body, 'E')
  }

  /** `float` of a literal without its sign. */
  function UnsignedFloat(body: string): (r: Result<Decimal>)
    ensures r.Ok? ==> r.value.den > 0 && r.value.num >= 0
  {
    var e := ExponentAt(body);
    var exp := if e < |body| then ParseInt(body[e + 1..]) else Ok(0);
    match Significand(body[..e])
    case None => Err(FloatError)
    case Some(Digits(m, scale)) =>
      if exp.Err? then Err(FloatError) else Ok(Scaled(m, scale, exp.value))
  }

  /** A literal without its leading sign. */
  function Unsigned(s: string): string
  {
    if |s| > 0 && (s[0] == '-' || s[0] == '+') then s[1..] else s
  }

  /** `float(s)` restricted to decimal literals: an optional sign, a
      significand and an optional exponent `e`/`E` with an optional sign;
      anything else raises ValueError. The value is exact: rounding to the
      nearest double is not modelled. */
  function ParseFloat(s: string): (r: Result<Decimal>)
    ensures r.Ok? ==> r.value.den > 0
  {
    match UnsignedFloat(Unsigned(s))
    case Err(m) => Err(m)
    case Ok(d) => Ok(if |s| > 0 && s[0] == '-' then Decimal(-d.num, d.den) else d)
  }

  /** `int(x)` of a finite float: the integer next to `x` toward zero. */
  function Truncate(d: Decimal): (r: int)
    requires d.den > 0
    ensures d.num >= 0 ==> 0 <= r && r * d.den <= d.num < (r + 1) * d.den
    ensures d.num < 0 ==> r <= 0 && (r - 1) * d.den < d.num <= r * d.den
  {
    if d.num >= 0 then d.num / d.den else -((-d.num) / d.den)
  }

  /** `int(float(s))`. */
  function FloatToInt(s: string): Result<int>
  {
    match ParseFloat(s)
    case Err(m) => Err(m)
    case Ok(d) => Ok(Truncate(d))
  }

  /** Python's `i <= x` for an integer `i` and a float `x`. */
  predicate AtMost(i: int, d: Decimal)
  {
    i * d.den <= d.num
  }

  /** Python's `<` on strings: lexicographic by code point. */
  predicate StrLt(a: string, b: string)
  {
    if |a| == 0 then |b| > 0
    else if |b| == 0 then false
    else if a[0] != b[0] then a[0] < b[0]
    else StrLt(a[1..], b[1..])
  }

  predicate StrLe(a: string, b: string)
  {
    a == b || StrLt(a, b)
  }

  /** Python's reading of the index `i` into a sequence of length `n`
      (negative indices count from the end); None is an IndexError. */
  function PyIndex(i: int, n: nat): (r: Option<nat>)
    ensures r.Some? ==> r.value < n
  {
    if 0 <= i < n then Some(i)
    else if -(n as int) <= i < 0 then Some(n + i)
    else None
  }

  function ClampSlice(x: int, n: nat): (r: nat)
    ensures r <= n
  {
    if x < 0 then (if n + x < 0 then 0 else n + x) else if x > n then n else x
  }

  /** `s[a:b]` with Python's reading of negative and out-of-range bounds. */
  function PySlice<T>(s: seq<T>, a: int, b: int): seq<T>
  {
    var lo := ClampSlice(a, |s|);
    var hi := ClampSlice(b, |s|);
    if lo < hi then s[lo..hi] else []
  }

  /** `s * k` for a string and an integer (empty for k <= 0). */
  function RepeatChar(c: char, k: int): (r: string)
    ensures |r| == if k < 0 then 0 else k
    ensures forall j :: 0 <= j < |r| ==> r[j] == c
    decreases if k < 0 then 0 else k
  {
    if k <= 0 then "" else [c] + RepeatChar(c, k - 1)
  }

  predicate NoDuplicates<T(==)>(s: seq<T>)
  {
    forall i, j :: 0 <= i < j < |s| ==> s[i] != s[j]
  }

  predicate StrictlyIncreasing(s: seq<int>)
  {
    forall i, j :: 0 <= i < j < |s| ==> s[i] < s[j]
  }

  /** The elements of `s`, in order, with repeats after the first dropped. */
  function Dedup<T(==)>(s: seq<T>): (r: seq<T>)
    ensures NoDuplicates(r)
    ensures forall i :: 0 <= i < |s| ==> s[i] in r
    ensures forall i :: 0 <= i < |r| ==> r[i] in s
  {
    if |s| == 0 then []
    else
      var rest := Dedup(s[..|s| - 1]);
      if s[|s| - 1] in rest then rest else rest + [s[|s| - 1]]
  }

  // ---------------------------------------------------------------------
  // Lemmas about the helpers that the modules below use.

  lemma {:induction false} DigitsOfNat(n: nat)
    ensures forall k :: 0 <= k < |NatToString(n)| ==> IsDigit(NatToString(n)[k])
    decreases n
  {
    if n >= 10 { DigitsOfNat(n / 10); }
  }

  /** Reading back what `str(n)` wrote gives `n`. */
  lemma {:induction false} NatToStringRoundTrip(n: nat)
    ensures forall k :: 0 <= k < |NatToString(n)| ==> IsDigit(NatToString(n)[k])
    ensures DigitsValue(NatToString(n)) == n
    decreases n
  {
    DigitsOfNat(n);
    var s := NatToString(n);
    if n < 10 {
      assert s[..|s| - 1] == "";
    } else {
      NatToStringRoundTrip(n / 10);
      assert s[..|s| - 1] == NatToString(n / 10);
    }
  }

  lemma {:induction false} StrLtIrreflexive(a: string)
    ensures !StrLt(a, a)
  {
    if |a| > 0 { StrLtIrreflexive(a[1..]); }
  }

  lemma {:induction false} StrLtTotal(a: string, b: string)
    ensures a == b || StrLt(a, b) || StrLt(b, a)
  {
    if |a| > 0 && |b| > 0 && a[0] == b[0] {
      StrLtTotal(a[1..], b[1..]);
      if a[1..] == b[1..] {
        assert a == [a[0]] + a[1..] && b == [b[0]] + b[1..];
      }
    }
  }

  lemma {:induction false} StrLtTrans(a: string, b: string, c: string)
    requires StrLt(a, b) && StrLt(b, c)
    ensures StrLt(a, c)
  {
    if |a| > 0 && |b| > 0 && |c| > 0 && a[0] == b[0] && b[0] == c[0] {
      StrLtTrans(a[1..], b[1..], c[1..]);
    }
  }

  lemma {:induction false} StrLtAsym(a: string, b: string)
    requires StrLt(a, b)
    ensures !StrLt(b, a)
  {
    if |a| > 0 && |b| > 0 && a[0] == b[0] {
      StrLtAsym(a[1..], b[1..]);
    }
  }

  lemma DedupAbsent<T>(s: seq<T>, x: T)
    requires x !in s
    ensures x !in Dedup(s)
  {
  }

  lemma {:induction false} DedupPrefix<T>(s: seq<T>, x: T)
    ensures Dedup(s + [x]) == if x in Dedup(s) then Dedup(s) else Dedup(s) + [x]
  {
    assert (s + [x])[..|s + [x]| - 1] == s;
  }

  /** `s.rstrip(ch)` */
  function StripRight(s: string, ch: char): string
  {
    if |s| > 0 && s[|s| - 1] == ch then StripRight(s[..|s| - 1], ch) else s
  }

  /** `s.lstrip(ch)` */
  function StripLeft(s: string, ch: char): string
  {
    if |s| > 0 && s[0] == ch then StripLeft(s[1..], ch) else s
  }

  /** `s.strip(ch)` */
  function Strip(s: string, ch: char): string
  {
    StripLeft(StripRight(s, ch), ch)
  }

  function Last<T>(s: seq<T>): T
    requires |s| > 0
  {
    s[|s| - 1]
  }

  lemma {:induction false} ReplaceCharAbsent(s: string, ch: char, rep: string)
    requires ch !in s
    ensures Replace(s, [ch], rep) == s
  {
    if |s| > 0 {
      assert s[0] != ch;
      ReplaceCharAbsent(s[1..], ch, rep);
      assert s == [s[0]] + s[1..];
    }
  }

  lemma {:induction false} ReplaceCharAppend(a: string, b: string, ch: char, rep: string)
    ensures Replace(a + b, [ch], rep) == Replace(a, [ch], rep) + Replace(b, [ch], rep)
  {
    if |a| > 0 {
      assert (a + b)[1..] == a[1..] + b;
      assert (a + b)[0] == a[0];
      ReplaceCharAppend(a[1..], b, ch, rep);
    } else {
      assert a + b == b;
    }
  }

  lemma {:induction false} SplitAbsent(s: string, sep: char)
    requires sep !in s
    ensures Split(s, sep) == [s]
  {
    if |s| > 0 {
      assert s[0] != sep;
      SplitAbsent(s[1..], sep);
      assert s == [s[0]] + s[1..];
    }
  }

  lemma {:induction false} SplitAfter(a: string, sep: char, b: string)
    requires sep !in a
    ensures Split(a + [sep] + b, sep) == [a] + Split(b, sep)
  {
    if |a| > 0 {
      assert (a + [sep] + b)[1..] == a[1..] + [sep] + b;
      assert (a + [sep] + b)[0] == a[0] != sep;
      SplitAfter(a[1..], sep, b);
      assert [a[0]] + a[1..] == a;
    } else {
      assert a + [sep] + b == [sep] + b;
    }
  }

  lemma {:induction false} StripRightAbsent(s: string, ch: char)
    requires ch !in s
    ensures StripRight(s, ch) == s
  {
  }

  lemma {:induction false} StripLeftAbsent(s: string, ch: char)
    requires ch !in s
    ensures StripLeft(s, ch) == s
  {
  }

  lemma NoDuplicatesSnoc<T>(s: seq<T>, x: T)
    ensures NoDuplicates(s + [x]) <==> NoDuplicates(s) && x !in s
  {
    var t := s + [x];
    if NoDuplicates(t) {
      forall i | 0 <= i < |s| ensures s[i] != x {
        assert t[i] == s[i] && t[|s|] == x;
      }
      forall i, j | 0 <= i < j < |s| ensures s[i] != s[j] {
        assert t[i] == s[i] && t[j] == s[j];
      }
    }
    if NoDuplicates(s) && x !in s {
      forall i, j | 0 <= i < j < |t| ensures t[i] != t[j] {
        if j < |s| {
          assert t[i] == s[i] && t[j] == s[j];
        } else {
          assert t[i] == s[i];
        }
      }
    }
  }

  /** `int(str(n))` gives back `n`. */
  lemma ParseNat(n: nat)
    ensures ParseInt(NatToString(n)) == Ok(n)
  {
    NatToStringRoundTrip(n);
    var s := NatToString(n);
    assert IsDigit(s[0]);
  }

  /** `int(str(i))` gives back `i`, negative numbers included. */
  lemma ParseIntOfInt(i: int)
    ensures ParseInt(IntToString(i)) == Ok(i)
  {
    if i < 0 {
      var n: nat := -i;
      var t := NatToString(n);
      NatToStringRoundTrip(n);
      var s := "-" + t;
      assert s == IntToString(i);
      assert s[0] == '-' && s[1..] == t;
      assert ParseInt(s) == Ok(-(DigitsValue(t) as int));
    } else {
      ParseNat(i);
    }
  }

  /** `IndexOf` finds the first `c`. */
  lemma {:induction false} IndexOfFirst(s: string, c: char)
    ensures IndexOf(s, c) < |s| ==> s[IndexOf(s, c)] == c
    ensures forall k :: 0 <= k < IndexOf(s, c) ==> s[k] != c
  {
    if |s| > 0 && s[0] != c {
      IndexOfFirst(s[1..], c);
      assert forall k :: 1 <= k < IndexOf(s, c) ==> s[k] == s[1..][k - 1];
    }
  }

  /** The first `c` is where `IndexOf` stops. */
  lemma {:induction false} IndexOfAt(s: string, c: char, i: nat)
    requires i <= |s| && (i == |s| || s[i] == c)
    requires forall k :: 0 <= k < i ==> s[k] != c
    ensures IndexOf(s, c) == i
  {
    if i > 0 {
      assert s[0] != c;
      assert forall k :: 0 <= k < i - 1 ==> s[1..][k] == s[k + 1];
      IndexOfAt(s[1..], c, i - 1);
    }
  }

  lemma DigitsHaveNoMarks(s: string)
    requires (forall k :: 0 <= k < |s| ==> IsDigit(s[k]))
    ensures IndexOf(s, '.') == |s| && ExponentAt(s) == |s|
  {
    IndexOfAt(s, '.', |s|);
    IndexOfAt(s, 'e', |s|);
    IndexOfAt(s, 'E', |s|);
  }

  lemma SignificandOfDigits(w: string)
    requires (forall k :: 0 <= k < |w| ==> IsDigit(w[k])) && |w| > 0
    ensures Significand(w) == Some(Digits(DigitsValue(w), 0))
  {
    DigitsHaveNoMarks(w);
    assert w[..|w|] == w;
  }

  /** `float(str(n))` is `n`, and so is `int(float(str(n)))`. */
  lemma ParseFloatOfNat(n: nat)
    ensures ParseFloat(NatToString(n)) == Ok(Decimal(n, 1))
    ensures FloatToInt(NatToString(n)) == Ok(n)
  {
    var s := NatToString(n);
    NatToStringRoundTrip(n);
    assert IsDigit(s[0]);
    assert Unsigned(s) == s;
    SignificandOfDigits(s);
    DigitsHaveNoMarks(s);
    assert s[..ExponentAt(s)] == s;
    assert UnsignedFloat(s) == Ok(Scaled(n, 0, 0));
  }

  /** A leading `-` negates what `float` reads. */
  lemma ParseFloatNegate(t: string)
    requires |t| > 0 && t[0] != '-' && t[0] != '+'
    ensures ParseFloat("-" + t).Ok? <==> ParseFloat(t).Ok?
    ensures ParseFloat(t).Ok? ==>
      ParseFloat("-" + t) == Ok(Decimal(-ParseFloat(t).value.num, ParseFloat(t).value.den))
  {
    assert Unsigned("-" + t) == t;
    assert Unsigned(t) == t;
  }

  /** `int()` truncates toward zero, so it commutes with negation. */
  lemma TruncateNegate(d: Decimal)
    requires d.den > 0
    ensures Truncate(Decimal(-d.num, d.den)) == -Truncate(d)
  {
  }

  /** `str(n)` starts with a digit, never with a sign. */
  lemma NatToStringStartsWithDigit(n: nat)
    ensures IsDigit(NatToString(n)[0])
  {
    NatToStringRoundTrip(n);
  }

  /** `int(float("-" + t))` of a whole number `t` is its negation. */
  lemma FloatToIntNegate(t: string, n: int)
    requires |t| > 0 && IsDigit(t[0]) && ParseFloat(t) == Ok(Decimal(n, 1)) && n >= 0
    ensures FloatToInt("-" + t) == Ok(-n)
  {
    ParseFloatNegate(t);
    var d := Decimal(-n, 1);
    assert ParseFloat("-" + t) == Ok(d);
    TruncateWhole(-n);
  }

  /** A whole number is its own truncation. */
  lemma TruncateWhole(k: int)
    ensures Truncate(Decimal(k, 1)) == k
  {
  }

  /** `int(float(str(i)))` is `i`, negative numbers included. */
  lemma FloatToIntOfInt(i: int)
    ensures FloatToInt(IntToString(i)) == Ok(i)
  {
    if i < 0 {
      var n: nat := -i;
      var t := NatToString(n);
      ParseFloatOfNat(n);
      NatToStringStartsWithDigit(n);
      FloatToIntNegate(t, n);
      assert IntToString(i) == "-" + t;
    } else {
      ParseFloatOfNat(i);
    }
  }

  /** `int(float("10.5"))` drops the fraction. */
  lemma FloatFraction()
    ensures ParseFloat("10.5") == Ok(Decimal(105, 10)) && FloatToInt("10.5") == Ok(10)
  {
    var s := "10.5";
    assert IndexOf(s, '.') == 2 && ExponentAt(s) == 4;
    assert s[..2] == "10" && s[3..] == "5";
    assert DigitsValue("10") == 10 && DigitsValue("5") == 5;
    assert Significand(s) == Some(Digits(105, 1));
    PlainFloat(s, 105, 1);
    assert Scaled(105, 1, 0) == Decimal(105, 10);
  }

  /** A zero fraction is accepted: `int(float("10.0"))` is 10. */
  lemma FloatWhole()
    ensures FloatToInt("10.0") == Ok(10) && FloatToInt("10") == Ok(10)
  {
    FloatTenPointZero();
    FloatTen();
  }

  /** A literal without sign or exponent is its significand. */
  lemma PlainFloat(s: string, m: nat, scale: nat)
    requires Unsigned(s) == s && ExponentAt(s) == |s| && Significand(s) == Some(Digits(m, scale))
    ensures ParseFloat(s) == Ok(Scaled(m, scale, 0))
  {
    assert s[..|s|] == s;
  }

  lemma FloatTenPointZero()
    ensures FloatToInt("10.0") == Ok(10)
  {
    var s := "10.0";
    assert IndexOf(s, '.') == 2 && ExponentAt(s) == 4;
    assert s[..2] == "10" && s[3..] == "0";
    assert DigitsValue("10") == 10 && DigitsValue("0") == 0;
    assert Significand(s) == Some(Digits(100, 1));
    PlainFloat(s, 100, 1);
    assert Scaled(100, 1, 0) == Decimal(100, 10);
  }

  lemma FloatTen()
    ensures FloatToInt("10") == Ok(10)
  {
    var s := "10";
    assert IndexOf(s, '.') == 2 && ExponentAt(s) == 2 && s[..2] == s;
    assert DigitsValue(s) == 10;
    assert Significand(s) == Some(Digits(10, 0));
    PlainFloat(s, 10, 0);
    assert Scaled(10, 0, 0) == Decimal(10, 1);
  }

  /** A negative value is truncated toward zero, not floored. */
  lemma FloatNegative()
    ensures ParseFloat("-2.7") == Ok(Decimal(-27, 10)) && FloatToInt("-2.7") == Ok(-2)
  {
    var t := "2.7";
    assert IndexOf(t, '.') == 1 && ExponentAt(t) == 3;
    assert t[..1] == "2" && t[2..] == "7";
    assert IsDigit("2"[0]) && IsDigit("7"[0]);
    assert DigitsValue("2") == 2 && DigitsValue("7") == 7;
    assert Significand(t) == Some(Digits(27, 1));
    PlainFloat(t, 27, 1);
    assert Scaled(27, 1, 0) == Decimal(27, 10);
    ParseFloatNegate(t);
    assert "-" + t == "-2.7";
  }

  /** A significand may start at the point, after a `+`. */
  lemma FloatPointFirst()
    ensures ParseFloat("+.5") == Ok(Decimal(5, 10)) && FloatToInt("+.5") == Ok(0)
  {
    assert Unsigned("+.5") == ".5";
    assert IndexOf(".5", '.') == 0 && ExponentAt(".5") == 2;
    assert ".5"[..0] == "" && ".5"[1..] == "5";
    assert DigitsValue("5") == 5;
    assert Significand(".5") == Some(Digits(5, 1));
  }

  /** An exponent scales the significand by a power of ten. */
  lemma FloatExponent()
    ensures FloatToInt("1e3") == Ok(1000)
  {
    assert IndexOf("1e3", 'e') == 1 && IndexOf("1e3", 'E') == 3;
    assert "1e3"[..1] == "1" && "1e3"[2..] == "3";
    assert IndexOf("1", '.') == 1 && "1"[..1] == "1";
    assert DigitsValue("1") == 1 && DigitsValue("3") == 3;
    assert ParseInt("3") == Ok(3);
    assert Significand("1") == Some(Digits(1, 0));
    assert Shifted(1, 3) == 1000;
  }

  /** A negative exponent divides: `int(float("25E-1"))` is 2. */
  lemma FloatNegativeExponent()
    ensures FloatToInt("25E-1") == Ok(2)
  {
    assert IndexOf("25E-1", 'e') == 5 && IndexOf("25E-1", 'E') == 2;
    assert "25E-1"[..2] == "25" && "25E-1"[3..] == "-1";
    assert IndexOf("25", '.') == 2 && "25"[..2] == "25";
    assert "-1"[1..] == "1" && DigitsValue("1") == 1 && ParseInt("-1") == Ok(-1);
    assert DigitsValue("25") == 25;
    assert Significand("25") == Some(Digits(25, 0));
  }

  /** What is not a decimal literal raises ValueError. */
  lemma FloatRejects()
    ensures FloatToInt("abc").Err? && FloatToInt("").Err? && FloatToInt(".").Err? && FloatToInt("1e").Err?
  {
    FloatRejectsLetters();
    FloatRejectsPoint();
    FloatRejectsBareExponent();
  }

  lemma FloatRejectsBareExponent()
    ensures FloatToInt("1e").Err?
  {
    var s := "1e";
    assert IndexOf(s, 'e') == 1 && IndexOf(s, 'E') == 2 && ExponentAt(s) == 1;
    assert s[2..] == "" && ParseInt("").Err?;
    assert UnsignedFloat(s).Err?;
  }

  lemma FloatRejectsLetters()
    ensures FloatToInt("abc").Err?
  {
    assert ExponentAt("abc") == 3 && IndexOf("abc", '.') == 3 && "abc"[..3] == "abc" && !IsDigit("abc"[0]);
    assert Significand("abc").None?;
  }

  lemma FloatRejectsPoint()
    ensures FloatToInt(".").Err?
  {
    assert ExponentAt(".") == 1 && IndexOf(".", '.') == 0 && "."[..1] == "." && "."[..0] == "" && "."[1..] == "";
    assert Significand(".").None?;
  }

  /** Splitting what `sep.join(parts)` wrote gives back the parts. */
  lemma {:induction false} SplitJoin(sep: char, parts: seq<string>)
    requires |parts| > 0 && forall k :: 0 <= k < |parts| ==> sep !in parts[k]
    ensures Split(Join([sep], parts), sep) == parts
  {
    if |parts| == 1 {
      SplitAbsent(parts[0], sep);
    } else {
      SplitJoin(sep, parts[1..]);
      SplitAfter(parts[0], sep, Join([sep], parts[1..]));
      assert Join([sep], parts) == parts[0] + [sep] + Join([sep], parts[1..]);
    }
  }
}
