/**
  The handful of Python `str` operations the pipeline relies on, over `string` (= `seq<char>`),
  with the facts about them that the rest of the model uses.
 */
module Text {

  predicate IsDigit(c: char) {
    '0' <= c <= '9'
  }

  predicate AllDigits(s: string) {
    forall i | 0 <= i < |s| :: IsDigit(s[i])
  }

  /** Python's `s.startswith(prefix)`. */
  predicate StartsWith(s: string, prefix: string) {
    |prefix| <= |s| && s[..|prefix|] == prefix
  }

  /** Python's `s.replace(from, to)` for one-character arguments: every `from` becomes `to`. */
  function ReplaceChar(s: string, from: char, to: char): (r: string)
    ensures |r| == |s|
    ensures forall i | 0 <= i < |s| :: r[i] == (if s[i] == from then to else s[i])
  {
    seq(|s|, i requires 0 <= i < |s| => if s[i] == from then to else s[i])
  }

  /** The length of the run of `c` at the front of `s`. */
  function LeadingRun(s: string, c: char): (n: nat)
    ensures n <= |s|
    ensures forall i | 0 <= i < n :: s[i] == c
    ensures n < |s| ==> s[n] != c
    decreases |s|
  {
    if |s| > 0 && s[0] == c then 1 + LeadingRun(s[1..], c) else 0
  }

  /** The length of the run of `c` at the back of `s`. */
  function TrailingRun(s: string, c: char): (n: nat)
    ensures n <= |s|
    ensures forall i | |s| - n <= i < |s| :: s[i] == c
    ensures n < |s| ==> s[|s| - n - 1] != c
    decreases |s|
  {
    if |s| > 0 && s[|s| - 1] == c then 1 + TrailingRun(s[..|s| - 1], c) else 0
  }

  /**
    Python's `s.lstrip(c)` for a one-character argument: removes the longest run of `c` at the
    front, and nothing else.
   */
  function TrimStart(s: string, c: char): (r: string)
    ensures |r| <= |s| && r == s[|s| - |r|..]
    ensures forall i | 0 <= i < |s| - |r| :: s[i] == c
    ensures |r| > 0 ==> r[0] != c
  {
    s[LeadingRun(s, c)..]
  }

  /**
    Python's `s.rstrip(c)` for a one-character argument: removes the longest run of `c` at the
    back, and nothing else.
   */
  function TrimEnd(s: string, c: char): (r: string)
    ensures |r| <= |s| && r == s[..|r|]
    ensures forall i | |r| <= i < |s| :: s[i] == c
    ensures |r| > 0 ==> r[|r| - 1] != c
  {
    s[..|s| - TrailingRun(s, c)]
  }

  /** The characters of `s` that are not in `drop`, in order. */
  function Without(s: string, drop: set<char>): string
    decreases |s|
  {
    if |s| == 0 then "" else (if s[0] in drop then "" else [s[0]]) + Without(s[1..], drop)
  }

  lemma {:induction false} WithoutAppend(a: string, b: string, drop: set<char>)
    ensures Without(a + b, drop) == Without(a, drop) + Without(b, drop)
    decreases |a|
  {
    if |a| > 0 {
      assert (a + b)[1..] == a[1..] + b;
      WithoutAppend(a[1..], b, drop);
    } else {
      assert a + b == b;
    }
  }

  lemma {:induction false} WithoutKeepsDigits(s: string, drop: set<char>)
    requires AllDigits(s)
    requires forall c | c in drop :: !IsDigit(c)
    ensures Without(s, drop) == s
    decreases |s|
  {
    if |s| > 0 {
      WithoutKeepsDigits(s[1..], drop);
      assert s == [s[0]] + s[1..];
    }
  }

  // ---------------------------------------------------------------------------
  // split / join

  /** Python's `s.split(sep)` (and `re.split(sep, s)`) for a one-character separator. */
  function Split(s: string, sep: char): (parts: seq<string>)
    ensures |parts| >= 1
    ensures forall k | 0 <= k < |parts| :: sep !in parts[k]
    decreases |s|
  {
    if |s| == 0 then [""]
    else
      var rest := Split(s[1..], sep);
      if s[0] == sep then [""] + rest
      else [[s[0]] + rest[0]] + rest[1..]
  }

  /** Python's `sep.join(parts)` for a one-character separator. */
  function Join(parts: seq<string>, sep: char): string
    requires |parts| >= 1
    decreases |parts|
  {
    if |parts| == 1 then parts[0] else parts[0] + [sep] + Join(parts[1..], sep)
  }

  /** Splitting on `c` and joining with `d` is replacing every `c` by `d`. */
  lemma {:induction false} JoinSplitIsReplace(s: string, c: char, d: char)
    ensures Join(Split(s, c), d) == ReplaceChar(s, c, d)
    decreases |s|
  {
    if |s| > 0 {
      var rest := Split(s[1..], c);
      JoinSplitIsReplace(s[1..], c, d);
      ReplaceCharCons(s, c, d);
      if s[0] == c {
        assert Split(s, c) == [""] + rest;
        JoinAfterEmpty(rest, d);
      } else {
        assert Split(s, c) == [[s[0]] + rest[0]] + rest[1..];
        JoinExtendFirst(s[0], rest, d);
      }
    }
  }

  lemma ReplaceCharCons(s: string, c: char, d: char)
    requires |s| > 0
    ensures ReplaceChar(s, c, d) == [if s[0] == c then d else s[0]] + ReplaceChar(s[1..], c, d)
  {
  }

  lemma JoinAfterEmpty(rest: seq<string>, d: char)
    requires |rest| >= 1
    ensures Join([""] + rest, d) == [d] + Join(rest, d)
  {
    assert ([""] + rest)[1..] == rest;
  }

  lemma JoinExtendFirst(x: char, rest: seq<string>, d: char)
    requires |rest| >= 1
    ensures Join([[x] + rest[0]] + rest[1..], d) == [x] + Join(rest, d)
  {
    var parts := [[x] + rest[0]] + rest[1..];
    if |rest| > 1 {
      assert parts[1..] == rest[1..];
    }
  }

  /** Splitting and joining on the same separator gives the string back. */
  lemma JoinSplitRoundTrip(s: string, c: char)
    ensures Join(Split(s, c), c) == s
  {
    JoinSplitIsReplace(s, c, c);
    assert ReplaceChar(s, c, c) == s;
  }

  lemma {:induction false} SplitWithoutSeparator(x: string, sep: char)
    requires sep !in x
    ensures Split(x, sep) == [x]
    decreases |x|
  {
    if |x| > 0 {
      assert x[0] in x;
      assert forall c | c in x[1..] :: c in x;
      SplitWithoutSeparator(x[1..], sep);
      assert x == [x[0]] + x[1..];
    }
  }

  /** The first field of a split is everything before the first separator. */
  lemma {:induction false} SplitAtFirstSeparator(x: string, sep: char, y: string)
    requires sep !in x
    ensures Split(x + [sep] + y, sep) == [x] + Split(y, sep)
    decreases |x|
  {
    var s := x + [sep] + y;
    if |x| == 0 {
      assert s[1..] == y;
    } else {
      assert x[0] in x;
      assert forall c | c in x[1..] :: c in x;
      assert s[1..] == x[1..] + [sep] + y;
      SplitAtFirstSeparator(x[1..], sep, y);
      assert x == [x[0]] + x[1..];
    }
  }

  /** A string holding the separator splits into at least two fields. */
  lemma {:induction false} SplitHasTwoFields(s: string, sep: char)
    requires sep in s
    ensures |Split(s, sep)| >= 2
    decreases |s|
  {
    if s[0] != sep {
      assert sep in s[1..];
      SplitHasTwoFields(s[1..], sep);
    }
  }

  // ---------------------------------------------------------------------------
  // lexicographic order (Python's `<` on str)

  /** Python's `a < b` on `str`: code-point lexicographic order, a proper prefix sorts first. */
  predicate LexLess(a: string, b: string)
    decreases |a|
  {
    if |a| == 0 then |b| > 0
    else if |b| == 0 then false
    else if a[0] != b[0] then a[0] < b[0]
    else LexLess(a[1..], b[1..])
  }

  lemma {:induction false} LexLessIrreflexive(a: string)
    ensures !LexLess(a, a)
    decreases |a|
  {
    if |a| > 0 {
      LexLessIrreflexive(a[1..]);
    }
  }

  lemma {:induction false} LexLessAsymmetric(a: string, b: string)
    requires LexLess(a, b)
    ensures !LexLess(b, a)
    decreases |a|
  {
    if |a| > 0 && |b| > 0 && a[0] == b[0] {
      LexLessAsymmetric(a[1..], b[1..]);
    }
  }

  lemma {:induction false} LexLessTransitive(a: string, b: string, c: string)
    requires LexLess(a, b) && LexLess(b, c)
    ensures LexLess(a, c)
    decreases |a|
  {
    if |a| > 0 && |b| > 0 && |c| > 0 && a[0] == b[0] && b[0] == c[0] {
      LexLessTransitive(a[1..], b[1..], c[1..]);
    }
  }

  /** Any two distinct strings are ordered one way or the other. */
  lemma {:induction false} LexLessTotal(a: string, b: string)
    requires a != b
    ensures LexLess(a, b) || LexLess(b, a)
    decreases |a|
  {
    if |a| > 0 && |b| > 0 && a[0] == b[0] {
      assert a == [a[0]] + a[1..] && b == [b[0]] + b[1..];
      LexLessTotal(a[1..], b[1..]);
    }
  }

  // ---------------------------------------------------------------------------
  // decimal digits

  function DigitValue(c: char): nat
    requires IsDigit(c)
  {
    c as int - '0' as int
  }

  function DigitChar(d: nat): (c: char)
    requires d < 10
    ensures IsDigit(c) && DigitValue(c) == d
  {
    ('0' as int + d) as char
  }

  function Pow10(n: nat): (p: nat)
    ensures p >= 1
  {
    if n == 0 then 1 else 10 * Pow10(n - 1)
  }

  /** The value of a string of decimal digits, most significant first. */
  function ValueOf(s: string): nat
    requires AllDigits(s)
    decreases |s|
  {
    if |s| == 0 then 0 else 10 * ValueOf(s[..|s| - 1]) + DigitValue(s[|s| - 1])
  }

  /** `n` written with exactly `width` decimal digits, zero-padded on the left. */
  function Digits(n: nat, width: nat): (s: string)
    ensures |s| == width && AllDigits(s)
  {
    if width == 0 then [] else Digits(n / 10, width - 1) + [DigitChar(n % 10)]
  }

  /** Reading back the zero-padded digits of a number that fits gives the number. */
  lemma {:induction false} DigitsRoundTrip(n: nat, width: nat)
    requires n < Pow10(width)
    ensures ValueOf(Digits(n, width)) == n
  {
    if width > 0 {
      var s := Digits(n, width);
      assert s[..|s| - 1] == Digits(n / 10, width - 1);
      DigitsRoundTrip(n / 10, width - 1);
    }
  }

  lemma {:induction false} ValueOfBound(s: string)
    requires AllDigits(s)
    ensures ValueOf(s) < Pow10(|s|)
    decreases |s|
  {
    if |s| > 0 {
      ValueOfBound(s[..|s| - 1]);
    }
  }

  /** The most significant digit weighs 10^(|s|-1). */
  lemma {:induction false} ValueOfLeading(s: string)
    requires AllDigits(s) && |s| > 0
    ensures ValueOf(s) == DigitValue(s[0]) * Pow10(|s| - 1) + ValueOf(s[1..])
    decreases |s|
  {
    var n := |s|;
    if n > 1 {
      var init := s[..n - 1];
      ValueOfLeading(init);
      assert init[1..] == s[1..][..n - 2];
      var d0, p, v, dl := DigitValue(s[0]), Pow10(n - 2), ValueOf(init[1..]), DigitValue(s[n - 1]);
      assert ValueOf(s[1..]) == 10 * v + dl;
      assert ValueOf(s) == 10 * (d0 * p + v) + dl;
      ShiftDigit(d0, p, v, dl);
    }
  }

  lemma ShiftDigit(d: int, p: int, v: int, e: int)
    ensures 10 * (d * p + v) + e == d * (10 * p) + (10 * v + e)
  {
  }

  /** A smaller leading digit makes a smaller number, whatever the lower digits are. */
  lemma LeadingDigitDominates(da: int, db: int, va: int, vb: int, p: int)
    requires 0 <= da < db && 0 <= va < p && 0 <= vb
    ensures da * p + va < db * p + vb
  {
    assert da * p + p == (da + 1) * p;
    assert (da + 1) * p <= db * p;
  }

  /**
    For digit strings of equal length, Python's string `<` agrees with `<` on the numbers they
    denote, so fixed-width timestamps may be compared as strings.
   */
  lemma {:induction false} LexLessIsNumericLess(a: string, b: string)
    requires AllDigits(a) && AllDigits(b) && |a| == |b|
    ensures LexLess(a, b) <==> ValueOf(a) < ValueOf(b)
    decreases |a|
  {
    if |a| > 0 {
      var p := Pow10(|a| - 1);
      ValueOfLeading(a);
      ValueOfLeading(b);
      ValueOfBound(a[1..]);
      ValueOfBound(b[1..]);
      var da, db := DigitValue(a[0]), DigitValue(b[0]);
      if a[0] == b[0] {
        LexLessIsNumericLess(a[1..], b[1..]);
      } else if da < db {
        LeadingDigitDominates(da, db, ValueOf(a[1..]), ValueOf(b[1..]), p);
      } else {
        LeadingDigitDominates(db, da, ValueOf(b[1..]), ValueOf(a[1..]), p);
      }
    }
  }
}
