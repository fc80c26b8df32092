/** Shared vocabulary of the model: the optional value, Python's numeric
    conversions on exact reals, string helpers (substring test, whitespace
    strip, lower-casing, digit runs), Python slicing, batching, filtering and
    summing over sequences. */
module Common {

  /** Python's `None` or a present value. */
  datatype Option<+T> = None | Some(value: T) {
    function GetOr(default: T): T {
      match this
      case Some(v) => v
      case None => default
    }
  }

  /** Python truthiness of an optional number: present and non-zero. */
  predicate Truthy(x: Option<int>) {
    x.Some? && x.value != 0
  }

  /** Python truthiness of an optional string: present and non-empty. */
  predicate TruthyStr(x: Option<string>) {
    x.Some? && x.value != ""
  }

  // ---------------------------------------------------------------------------
  // Numbers
  // ---------------------------------------------------------------------------

  /** Python's `round(x)` on an exact value: the nearest integer, ties to even. */
  function Round(x: real): (r: int)
    ensures x - 0.5 <= r as real <= x + 0.5
    ensures (x - 0.5 < r as real && r as real < x + 0.5) || r % 2 == 0
  {
    var f := x.Floor;
    var frac := x - f as real;
    if frac < 0.5 then f
    else if frac > 0.5 then f + 1
    else if f % 2 == 0 then f else f + 1
  }

  /** Rounding never leaves an interval whose ends are whole numbers. */
  lemma RoundWithin(x: real, lo: int, hi: int)
    requires lo as real <= x <= hi as real
    ensures lo <= Round(x) <= hi
  {
  }

  /** Python's `round(x, k)` with `scale` = 10^k. */
  function RoundTo(x: real, scale: nat): (r: real)
    requires scale > 0
    ensures x - 0.5 / scale as real <= r <= x + 0.5 / scale as real
  {
    var n := Round(x * scale as real);
    assert x * scale as real - 0.5 <= n as real <= x * scale as real + 0.5;
    n as real / scale as real
  }

  lemma MulLe(a: real, b: real, c: real)
    requires a <= b && c >= 0.0
    ensures a * c <= b * c
  {
  }

  /** Rounding to a scale keeps a value inside an interval with whole ends. */
  lemma RoundToWithin(x: real, lo: int, hi: int, scale: nat)
    requires scale > 0 && lo as real <= x <= hi as real
    ensures lo as real <= RoundTo(x, scale) <= hi as real
  {
    ScaleWithin(x, lo, hi, scale);
    RoundWithin(x * scale as real, lo * scale, hi * scale);
    RoundToScaled(x, scale);
    ScaledBetween(RoundTo(x, scale), scale as real, Round(x * scale as real), lo, hi);
  }

  lemma ScaleWithin(x: real, lo: int, hi: int, scale: nat)
    requires lo as real <= x <= hi as real
    ensures (lo * scale) as real <= x * scale as real <= (hi * scale) as real
  {
    MulLe(lo as real, x, scale as real);
    MulLe(x, hi as real, scale as real);
  }

  lemma RoundToScaled(x: real, scale: nat)
    requires scale > 0
    ensures RoundTo(x, scale) * scale as real == Round(x * scale as real) as real
  {
  }

  /** A real whose multiple by a positive scale lies between two scaled
      whole numbers lies between them. */
  lemma ScaledBetween(r: real, sc: real, n: int, lo: int, hi: int)
    requires sc > 0.0 && r * sc == n as real
    requires lo as real * sc <= n as real <= hi as real * sc
    ensures lo as real <= r <= hi as real
  {
    if r < lo as real {
      MulLt(r, lo as real, sc);
    }
    if r > hi as real {
      MulLt(hi as real, r, sc);
    }
  }

  /** Rounding a non-negative value to a scale never makes it negative. */
  lemma RoundToNonNegative(x: real, scale: nat)
    requires scale > 0 && x >= 0.0
    ensures RoundTo(x, scale) >= 0.0
  {
    MulLe(0.0, x, scale as real);
    RoundToScaled(x, scale);
    var r := RoundTo(x, scale);
    if r < 0.0 {
      MulLt(r, 0.0, scale as real);
    }
  }

  lemma MulLt(a: real, b: real, c: real)
    requires a < b && c > 0.0
    ensures a * c < b * c
  {
  }

  /** Python's `int(x)` on a float: truncation toward zero. */
  function Trunc(x: real): (r: int)
    ensures 0.0 <= x ==> r as real <= x < r as real + 1.0
    ensures x < 0.0 ==> r as real - 1.0 < x <= r as real
  {
    if x >= 0.0 then x.Floor else -((-x).Floor)
  }

  function Max(a: int, b: int): int { if a >= b then a else b }
  function Min(a: int, b: int): int { if a <= b then a else b }
  function MaxReal(a: real, b: real): real { if a >= b then a else b }

  // ---------------------------------------------------------------------------
  // Strings
  // ---------------------------------------------------------------------------

  predicate StartsWith(s: string, w: string) {
    |w| <= |s| && s[..|w|] == w
  }

  /** Python's `w in s` for strings. */
  predicate Contains(s: string, w: string)
    decreases |s|
  {
    StartsWith(s, w) || (|s| > 0 && Contains(s[1..], w))
  }

  /** A word occurring at a known position is contained. */
  lemma {:induction false} ContainsAt(s: string, w: string, i: nat)
    requires i + |w| <= |s| && s[i..i + |w|] == w
    ensures Contains(s, w)
    decreases i
  {
    if i > 0 {
      assert s[1..][i - 1..i - 1 + |w|] == s[i..i + |w|];
      ContainsAt(s[1..], w, i - 1);
    } else {
      assert s[..|w|] == s[0..|w|];
    }
  }

  /** Python's `any(w in s for w in words)`. */
  /** A word with a character that `s` lacks does not occur in `s`. */
  lemma {:induction false} MissingCharNotContained(s: string, w: string, k: nat)
    requires k < |w| && w[k] !in s
    ensures !Contains(s, w)
    decreases |s|
  {
    if |s| > 0 {
      MissingCharNotContained(s[1..], w, k);
    }
  }

  /** None of `words` occurs when each lacks a character of `s`: word `i`
      has `words[i][ks[i]]`, which is not in `s`. */
  lemma NoneContained(s: string, words: seq<string>, ks: seq<nat>)
    requires |ks| == |words|
    requires forall i | 0 <= i < |words| :: ks[i] < |words[i]| && words[i][ks[i]] !in s
    ensures forall i | 0 <= i < |words| :: !Contains(s, words[i])
  {
    forall i | 0 <= i < |words|
      ensures !Contains(s, words[i])
    {
      MissingCharNotContained(s, words[i], ks[i]);
    }
  }

  predicate AnyIn(words: seq<string>, s: string) {
    exists i | 0 <= i < |words| :: Contains(s, words[i])
  }

  /** The whitespace characters `str.strip()` removes (ASCII subset). */
  predicate IsSpace(c: char) {
    c == ' ' || c == '\t' || c == '\n' || c == '\r' || c == '\U{000B}' || c == '\U{000C}'
  }

  function StripLeft(s: string): (r: string)
    ensures |r| <= |s| && r == s[|s| - |r|..]
    ensures |r| > 0 ==> !IsSpace(r[0])
    ensures forall i | 0 <= i < |s| - |r| :: IsSpace(s[i])
    decreases |s|
  {
    if |s| > 0 && IsSpace(s[0]) then StripLeft(s[1..]) else s
  }

  function StripRight(s: string): (r: string)
    ensures |r| <= |s| && r == s[..|r|]
    ensures |r| > 0 ==> !IsSpace(r[|r| - 1])
    ensures forall i | |r| <= i < |s| :: IsSpace(s[i])
    decreases |s|
  {
    if |s| > 0 && IsSpace(s[|s| - 1]) then StripRight(s[..|s| - 1]) else s
  }

  /** Python's `str.strip()`: whitespace removed from both ends. */
  function Strip(s: string): string {
    StripRight(StripLeft(s))
  }

  /** What `str.strip()` leaves is the infix of `s` between a run of
      whitespace at the front and one at the back, and it neither starts nor
      ends with whitespace. */
  lemma StripMeaning(s: string)
    ensures |Strip(s)| <= |StripLeft(s)| <= |s|
    ensures |Strip(s)| > 0 ==> !IsSpace(Strip(s)[0]) && !IsSpace(Strip(s)[|Strip(s)| - 1])
    ensures Strip(s) == s[|s| - |StripLeft(s)|..|s| - |StripLeft(s)| + |Strip(s)|]
    ensures forall i | 0 <= i < |s| - |StripLeft(s)| :: IsSpace(s[i])
  {
    StripEnds(s);
    StripInfix(s);
  }

  lemma StripEnds(s: string)
    ensures |Strip(s)| > 0 ==> !IsSpace(Strip(s)[0]) && !IsSpace(Strip(s)[|Strip(s)| - 1])
  {
    var l := StripLeft(s);
    var r := StripRight(l);
    if |r| > 0 {
      assert r[0] == l[0];
    }
  }

  lemma StripInfix(s: string)
    ensures Strip(s) == s[|s| - |StripLeft(s)|..|s| - |StripLeft(s)| + |Strip(s)|]
  {
    var l := StripLeft(s);
    var r := StripRight(l);
    var a := |s| - |l|;
    assert l == s[a..] && r == l[..|r|];
    SliceOfSuffix(s, a, |r|);
  }

  lemma SliceOfSuffix<T>(s: seq<T>, a: nat, n: nat)
    requires a + n <= |s|
    ensures s[a..][..n] == s[a..a + n]
  {
  }

  /** Lower-casing of Latin and Cyrillic capitals, as `str.lower()` does for them. */
  function LowerChar(c: char): (r: char)
  {
    if 'A' <= c <= 'Z' then (c as int + 32) as char
    else if '\U{0410}' <= c <= '\U{042F}' then (c as int + 32) as char
    else if c == '\U{0401}' then '\U{0451}'
    else c
  }

  function Lower(s: string): (r: string)
    ensures |r| == |s|
    ensures forall i | 0 <= i < |s| :: r[i] == LowerChar(s[i])
  {
    seq(|s|, i requires 0 <= i < |s| => LowerChar(s[i]))
  }

  predicate IsDigit(c: char) { '0' <= c <= '9' }

  predicate AllDigits(s: string) { forall i | 0 <= i < |s| :: IsDigit(s[i]) }

  function DigitValue(c: char): (r: nat)
    requires IsDigit(c)
    ensures r < 10
  {
    c as int - '0' as int
  }

  function DigitChar(d: nat): (c: char)
    requires d < 10
    ensures IsDigit(c) && DigitValue(c) == d
  {
    ('0' as int + d) as char
  }

  /** Python's `int(s)` for a run of decimal digits. */
  function DigitsValue(s: string): nat
    requires AllDigits(s)
    decreases |s|
  {
    if |s| == 0 then 0 else DigitsValue(s[..|s| - 1]) * 10 + DigitValue(s[|s| - 1])
  }

  /** Python's `str(n)` for a natural number. */
  function NatToString(n: nat): (r: string)
    ensures |r| > 0 && AllDigits(r)
    decreases n
  {
    if n < 10 then [DigitChar(n)] else NatToString(n / 10) + [DigitChar(n % 10)]
  }

  /** Printing a number and parsing it back gives the number. */
  lemma {:induction false} DigitsValueOfNatToString(n: nat)
    ensures DigitsValue(NatToString(n)) == n
    decreases n
  {
    if n >= 10 {
      var s := NatToString(n);
      assert s[..|s| - 1] == NatToString(n / 10);
      DigitsValueOfNatToString(n / 10);
    }
  }

  /** Python's `s.zfill(2)` for a short digit string. */
  function ZFill2(s: string): (r: string)
    ensures |s| >= 2 ==> r == s
    ensures |s| < 2 ==> |r| == 2 && r[2 - |s|..] == s
  {
    if |s| >= 2 then s else seq(2 - |s|, _ => '0') + s
  }

  // ---------------------------------------------------------------------------
  // Python slicing
  // ---------------------------------------------------------------------------

  /** How Python normalises a slice bound against a length. */
  function SliceBound(i: int, n: nat): (r: nat)
    ensures r <= n
    ensures 0 <= i <= n ==> r == i
  {
    if i < 0 then (if n + i < 0 then 0 else n + i) else if i > n then n else i
  }

  /** Python's `s[a:b]`. */
  function PySlice<T>(s: seq<T>, a: int, b: int): (r: seq<T>)
    ensures 0 <= a <= b <= |s| ==> r == s[a..b]
    ensures |r| <= |s|
  {
    var i := SliceBound(a, |s|);
    var j := SliceBound(b, |s|);
    if i <= j then s[i..j] else []
  }

  /** Python's `s[a:]`. */
  function PySliceFrom<T>(s: seq<T>, a: int): (r: seq<T>)
    ensures 0 <= a <= |s| ==> r == s[a..]
    ensures a < 0 && -a <= |s| ==> r == s[|s| + a..]
    ensures a < 0 && -a > |s| ==> r == s
    ensures a > |s| ==> r == []
  {
    s[SliceBound(a, |s|)..]
  }

  /** Python's `s[:b]`. */
  function PySliceTo<T>(s: seq<T>, b: int): (r: seq<T>)
    ensures 0 <= b <= |s| ==> r == s[..b]
    ensures b > |s| ==> r == s
    ensures b < 0 ==> |r| == Max(0, |s| + b) && r == s[..|r|]
  {
    s[..SliceBound(b, |s|)]
  }

  // ---------------------------------------------------------------------------
  // Batches, flattening, filtering, sums
  // ---------------------------------------------------------------------------

  function Flatten<T>(ss: seq<seq<T>>): (r: seq<T>)
    decreases |ss|
  {
    if |ss| == 0 then [] else Flatten(ss[..|ss| - 1]) + ss[|ss| - 1]
  }

  lemma {:induction false} FlattenAppend<T>(a: seq<seq<T>>, b: seq<seq<T>>)
    ensures Flatten(a + b) == Flatten(a) + Flatten(b)
    decreases |b|
  {
    if |b| > 0 {
      assert (a + b)[..|a + b| - 1] == a + b[..|b| - 1];
      FlattenAppend(a, b[..|b| - 1]);
    } else {
      assert a + b == a;
    }
  }

  lemma FlattenSingle<T>(x: seq<T>)
    ensures Flatten([x]) == x
  {
    assert [x][..0] == [];
  }

  /** Python's `[s[i:i + n] for i in range(0, len(s), n)]`. */
  function Chunks<T>(s: seq<T>, n: nat): (r: seq<seq<T>>)
    requires n > 0
    ensures forall k | 0 <= k < |r| :: 0 < |r[k]| <= n
    ensures |s| == 0 <==> |r| == 0
    decreases |s|
  {
    if |s| == 0 then []
    else if |s| <= n then [s]
    else [s[..n]] + Chunks(s[n..], n)
  }

  /** Batching keeps every element, in order, exactly once. */
  lemma {:induction false} FlattenChunks<T>(s: seq<T>, n: nat)
    requires n > 0
    ensures Flatten(Chunks(s, n)) == s
    decreases |s|
  {
    if |s| == 0 {
    } else if |s| <= n {
      FlattenSingle(s);
    } else {
      FlattenChunks(s[n..], n);
      FlattenAppend([s[..n]], Chunks(s[n..], n));
      FlattenSingle(s[..n]);
      assert s[..n] + s[n..] == s;
    }
  }

  /** The elements satisfying `p`, in order. */
  function Filter<T>(s: seq<T>, p: T -> bool): (r: seq<T>)
    ensures |r| <= |s|
    ensures forall x | x in r :: x in s && p(x)
    decreases |s|
  {
    if |s| == 0 then []
    else Filter(s[..|s| - 1], p) + (if p(s[|s| - 1]) then [s[|s| - 1]] else [])
  }

  lemma {:induction false} FilterAppend<T>(a: seq<T>, b: seq<T>, p: T -> bool)
    ensures Filter(a + b, p) == Filter(a, p) + Filter(b, p)
    decreases |b|
  {
    if |b| > 0 {
      assert (a + b)[..|a + b| - 1] == a + b[..|b| - 1];
      FilterAppend(a, b[..|b| - 1], p);
    } else {
      assert a + b == a;
    }
  }

  /** Every element satisfying `p` is kept. */
  lemma {:induction false} FilterComplete<T>(s: seq<T>, p: T -> bool, x: T)
    requires x in s && p(x)
    ensures x in Filter(s, p)
    decreases |s|
  {
    if s[|s| - 1] != x {
      assert x in s[..|s| - 1] by {
        var i :| 0 <= i < |s| && s[i] == x;
        assert s[..|s| - 1][i] == x;
      }
      FilterComplete(s[..|s| - 1], p, x);
    }
  }

  /** Filtering by `p` and by its negation splits the input. */
  lemma {:induction false} FilterPartition<T>(s: seq<T>, p: T -> bool, q: T -> bool)
    requires forall x :: q(x) == !p(x)
    ensures |Filter(s, p)| + |Filter(s, q)| == |s|
    decreases |s|
  {
    if |s| > 0 {
      FilterPartition(s[..|s| - 1], p, q);
    }
  }

  lemma {:induction false} FilterKeepsAll<T>(s: seq<T>, p: T -> bool)
    requires forall i | 0 <= i < |s| :: p(s[i])
    ensures Filter(s, p) == s
    decreases |s|
  {
    if |s| > 0 {
      var init := s[..|s| - 1];
      assert forall i | 0 <= i < |init| :: init[i] == s[i];
      FilterKeepsAll(init, p);
      var last := s[|s| - 1];
      assert p(last);
      assert Filter(s, p) == Filter(init, p) + [last];
      assert init + [last] == s;
    }
  }

  lemma {:induction false} FilterDropsAll<T>(s: seq<T>, p: T -> bool)
    requires forall i | 0 <= i < |s| :: !p(s[i])
    ensures Filter(s, p) == []
    decreases |s|
  {
    if |s| > 0 {
      var init := s[..|s| - 1];
      assert forall i | 0 <= i < |init| :: init[i] == s[i];
      FilterDropsAll(init, p);
      assert !p(s[|s| - 1]);
    }
  }

  function SumInt<T>(s: seq<T>, f: T -> int): int
    decreases |s|
  {
    if |s| == 0 then 0 else SumInt(s[..|s| - 1], f) + f(s[|s| - 1])
  }

  function SumReal<T>(s: seq<T>, f: T -> real): real
    decreases |s|
  {
    if |s| == 0 then 0.0 else SumReal(s[..|s| - 1], f) + f(s[|s| - 1])
  }

  lemma {:induction false} SumRealAppend<T>(a: seq<T>, b: seq<T>, f: T -> real)
    ensures SumReal(a + b, f) == SumReal(a, f) + SumReal(b, f)
    decreases |b|
  {
    if |b| > 0 {
      assert (a + b)[..|a + b| - 1] == a + b[..|b| - 1];
      SumRealAppend(a, b[..|b| - 1], f);
    } else {
      assert a + b == a;
    }
  }

  lemma SumRealSnoc<T>(a: seq<T>, x: T, f: T -> real)
    ensures SumReal(a + [x], f) == SumReal(a, f) + f(x)
  {
    assert (a + [x])[..|a|] == a;
  }

  lemma SumIntSnoc<T>(a: seq<T>, x: T, f: T -> int)
    ensures SumInt(a + [x], f) == SumInt(a, f) + f(x)
  {
    assert (a + [x])[..|a|] == a;
  }

  lemma {:induction false} SumIntAppend<T>(a: seq<T>, b: seq<T>, f: T -> int)
    ensures SumInt(a + b, f) == SumInt(a, f) + SumInt(b, f)
    decreases |b|
  {
    if |b| > 0 {
      assert (a + b)[..|a + b| - 1] == a + b[..|b| - 1];
      SumIntAppend(a, b[..|b| - 1], f);
    } else {
      assert a + b == a;
    }
  }

  /** A sum of non-negative terms is non-negative. */
  lemma {:induction false} SumIntNonNegative<T>(s: seq<T>, f: T -> int)
    requires forall i | 0 <= i < |s| :: f(s[i]) >= 0
    ensures SumInt(s, f) >= 0
    decreases |s|
  {
    if |s| > 0 {
      SumIntNonNegative(s[..|s| - 1], f);
    }
  }

  // ---------------------------------------------------------------------------
  // First match
  // ---------------------------------------------------------------------------

  /** `for x in s: r = f(x); if r: return r` — the first non-empty answer. */
  function FirstSome<T, R(==)>(s: seq<T>, f: T -> Option<R>): (r: Option<R>)
    ensures r.Some? ==> exists i | 0 <= i < |s| :: f(s[i]) == r && forall j | 0 <= j < i :: f(s[j]).None?
    ensures r.None? ==> forall i | 0 <= i < |s| :: f(s[i]).None?
    decreases |s|
  {
    if |s| == 0 then None
    else if f(s[0]).Some? then f(s[0])
    else
      var rest := FirstSome(s[1..], f);
      assert forall i | 1 <= i < |s| :: s[1..][i - 1] == s[i];
      if rest.Some? then
        var k :| 0 <= k < |s[1..]| && f(s[1..][k]) == rest && forall j | 0 <= j < k :: f(s[1..][j]).None?;
        assert f(s[k + 1]) == rest;
        rest
      else rest
  }

  /** On a single element the first result is that element's. */
  lemma FirstSomeSingle<T, R>(x: T, f: T -> Option<R>)
    ensures FirstSome([x], f) == f(x)
  {
  }

  /** The first answer depends only on the answers for the elements. */
  lemma {:induction false} FirstSomeSame<T, R>(s: seq<T>, f: T -> Option<R>, g: T -> Option<R>)
    requires forall x | x in s :: f(x) == g(x)
    ensures FirstSome(s, f) == FirstSome(s, g)
    decreases |s|
  {
    if |s| > 0 {
      assert s[0] in s;
      assert forall x | x in s[1..] :: x in s;
      FirstSomeSame(s[1..], f, g);
    }
  }

  /** The answer at the first position from `p` to `n` that has one, as a
      regular-expression search scanning start positions does. */
  function FirstFrom<R>(p: nat, n: nat, f: nat -> Option<R>): (r: Option<R>)
    requires p <= n
    ensures r.Some? ==> exists q | p <= q <= n :: f(q) == r && forall j | p <= j < q :: f(j).None?
    ensures r.None? ==> forall q | p <= q <= n :: f(q).None?
    decreases n - p
  {
    if f(p).Some? || p == n then f(p) else FirstFrom(p + 1, n, f)
  }

  /** The position whose answer `FirstFrom` returns. */
  lemma FirstFromWitness<R>(p: nat, n: nat, f: nat -> Option<R>) returns (q: nat)
    requires p <= n && FirstFrom(p, n, f).Some?
    ensures p <= q <= n && f(q) == FirstFrom(p, n, f)
  {
    q :| p <= q <= n && f(q) == FirstFrom(p, n, f) && forall j | p <= j < q :: f(j).None?;
  }

  lemma FirstFromNoneAt<R>(p: nat, n: nat, f: nat -> Option<R>, q: nat)
    requires p <= q <= n && FirstFrom(p, n, f).None?
    ensures f(q).None?
  {
  }

  /** The position of the first element satisfying `p`, as a `for`/`break`
      search does. */
  function FirstIndex<T>(s: seq<T>, p: T -> bool): (r: Option<nat>)
    ensures r.Some? ==> r.value < |s| && p(s[r.value]) && forall j | 0 <= j < r.value :: !p(s[j])
    ensures r.None? ==> forall j | 0 <= j < |s| :: !p(s[j])
    decreases |s|
  {
    if |s| == 0 then None
    else if p(s[0]) then Some(0)
    else
      var rest := FirstIndex(s[1..], p);
      assert forall j | 1 <= j < |s| :: s[1..][j - 1] == s[j];
      match rest
      case None => None
      case Some(k) => Some(k + 1)
  }

  /** An element satisfying `p` bounds the first index from above. */
  lemma FirstIndexAtMost<T>(s: seq<T>, p: T -> bool, k: nat)
    requires k < |s| && p(s[k])
    ensures FirstIndex(s, p).Some? && FirstIndex(s, p).value <= k
  {
  }
  // ---------------------------------------------------------------------------
  // Maximal runs of characters (`re.findall(r'\d+', s)`, `s.split()`)
  // ---------------------------------------------------------------------------

  /** The length of the longest prefix of `s` whose characters satisfy `p`. */
  function Leading(s: string, p: char -> bool): (n: nat)
    ensures n <= |s|
    ensures forall i | 0 <= i < n :: p(s[i])
    ensures n == |s| || !p(s[n])
    decreases |s|
  {
    if |s| == 0 || !p(s[0]) then 0 else 1 + Leading(s[1..], p)
  }

  /** Only one length has the three properties `Leading` ensures. */
  lemma LeadingUnique(s: string, p: char -> bool, n: nat)
    requires n <= |s|
    requires forall i | 0 <= i < n :: p(s[i])
    requires n == |s| || !p(s[n])
    ensures Leading(s, p) == n
  {
  }

  /** Dropping the last element of `a + b`, for a non-empty `b`. */
  lemma InitOfAppend<T>(a: seq<T>, b: seq<T>)
    requires |b| > 0
    ensures (a + b)[..|a + b| - 1] == a + b[..|b| - 1] && (a + b)[|a + b| - 1] == b[|b| - 1]
  {
  }

  lemma ConcatAssoc<T>(a: seq<T>, b: seq<T>, c: seq<T>)
    ensures (a + b) + c == a + (b + c)
  {
  }

  lemma SplitAt<T>(s: seq<T>, n: nat)
    requires n <= |s|
    ensures s == s[..n] + s[n..]
  {
  }

  /** The maximal runs of characters satisfying `p`, left to right. */
  function Runs(s: string, p: char -> bool): seq<string>
    decreases |s|
  {
    if |s| == 0 then []
    else if !p(s[0]) then Runs(s[1..], p)
    else
      var n := Leading(s, p);
      [s[..n]] + Runs(s[n..], p)
  }

  /** Non-empty pieces made only of characters satisfying `p`. */
  predicate AllRuns(r: seq<string>, p: char -> bool) {
    forall k | 0 <= k < |r| :: |r[k]| > 0 && forall i | 0 <= i < |r[k]| :: p(r[k][i])
  }

  /** Every run is non-empty and satisfies `p` throughout. */
  lemma {:induction false} RunsAllMatch(s: string, p: char -> bool)
    ensures AllRuns(Runs(s, p), p)
    decreases |s|
  {
    if |s| > 0 {
      if !p(s[0]) {
        RunsAllMatch(s[1..], p);
      } else {
        var n := Leading(s, p);
        RunsAllMatch(s[n..], p);
        assert Runs(s, p) == [s[..n]] + Runs(s[n..], p);
      }
    }
  }

  /** Concatenated, the runs are exactly the characters satisfying `p`, in
      order: nothing is lost, added or reordered. */
  lemma {:induction false} RunsAreTheMatches(s: string, p: char -> bool)
    ensures Flatten(Runs(s, p)) == Filter(s, p)
    decreases |s|
  {
    if |s| > 0 {
      if !p(s[0]) {
        RunsAreTheMatches(s[1..], p);
        RunsSkipStep(s, p);
      } else {
        RunsAreTheMatches(s[Leading(s, p)..], p);
        RunsRunStep(s, p);
      }
    }
  }

  /** A leading character outside `p` is in no run. */
  lemma RunsSkipStep(s: string, p: char -> bool)
    requires |s| > 0 && !p(s[0])
    requires Flatten(Runs(s[1..], p)) == Filter(s[1..], p)
    ensures Flatten(Runs(s, p)) == Filter(s, p)
  {
    assert s == [s[0]] + s[1..];
    FilterAppend([s[0]], s[1..], p);
    assert Filter([s[0]], p) == [] by {
      assert [s[0]][..0] == [];
    }
  }

  /** A leading run is the first run. */
  lemma RunsRunStep(s: string, p: char -> bool)
    requires |s| > 0 && p(s[0])
    requires Flatten(Runs(s[Leading(s, p)..], p)) == Filter(s[Leading(s, p)..], p)
    ensures Flatten(Runs(s, p)) == Filter(s, p)
  {
    FilterLeadingRun(s, p);
    FlattenLeadingRun(s, p);
  }

  lemma FilterLeadingRun(s: string, p: char -> bool)
    ensures Filter(s, p) == s[..Leading(s, p)] + Filter(s[Leading(s, p)..], p)
  {
    var n := Leading(s, p);
    var a, b := s[..n], s[n..];
    SplitAt(s, n);
    FilterAppend(a, b, p);
    FilterKeepsAll(a, p);
  }

  lemma FlattenLeadingRun(s: string, p: char -> bool)
    requires |s| > 0 && p(s[0])
    ensures Flatten(Runs(s, p)) == s[..Leading(s, p)] + Flatten(Runs(s[Leading(s, p)..], p))
  {
    var n := Leading(s, p);
    var a, b := s[..n], s[n..];
    assert Runs(s, p) == [a] + Runs(b, p);
    FlattenAppend([a], Runs(b, p));
    FlattenSingle(a);
  }

  /** A character outside `p` separates runs: the runs of `a + [c] + b` are
      those of `a` followed by those of `b`. */
  lemma {:induction false} RunsSplit(a: string, c: char, b: string, p: char -> bool)
    requires !p(c)
    ensures Runs(a + [c] + b, p) == Runs(a, p) + Runs(b, p)
    decreases |a|
  {
    var s := a + [c] + b;
    if |a| == 0 {
      assert s[1..] == b;
    } else if !p(a[0]) {
      assert s[1..] == a[1..] + [c] + b;
      RunsSplit(a[1..], c, b, p);
    } else {
      var n := Leading(s, p);
      assert s[|a|] == c;
      assert s[..n] == a[..n];
      LeadingUnique(a, p, n);
      assert s[n..] == a[n..] + [c] + b;
      RunsSplit(a[n..], c, b, p);
    }
  }
}
