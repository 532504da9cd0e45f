/**
 * The few Python string operations the three services rely on, as functions on
 * `string` (a sequence of code points, like Python's `str`):
 * `str.strip()`, slicing `s[:n]`, `str(n)` and `f"{n:0Wd}"` for integers,
 * `sep.join(parts)` and `str.replace(old, new)`.
 */
module Text {
  import opened Wrappers

  /** The characters Python's `str.strip()` removes when called without an argument
      (the code points for which `str.isspace()` holds). */
  predicate IsSpace(c: char) {
    var k := c as int;
    (9 <= k <= 13) || (28 <= k <= 32) || k == 0x85 || k == 0xA0 || k == 0x1680
    || (0x2000 <= k <= 0x200A) || k == 0x2028 || k == 0x2029 || k == 0x202F
    || k == 0x205F || k == 0x3000
  }

  ghost predicate AllSpace(s: string) {
    forall k :: 0 <= k < |s| ==> IsSpace(s[k])
  }

  /** `s.lstrip()` */
  function TrimStart(s: string): (r: string)
    ensures |r| <= |s| && r == s[|s| - |r|..]
    ensures r == [] || !IsSpace(r[0])
    ensures forall k :: 0 <= k < |s| - |r| ==> IsSpace(s[k])
  {
    if s != [] && IsSpace(s[0]) then TrimStart(s[1..]) else s
  }

  /** `s.rstrip()` */
  function TrimEnd(s: string): (r: string)
    ensures |r| <= |s| && r == s[..|r|]
    ensures r == [] || !IsSpace(r[|r| - 1])
    ensures forall k :: |r| <= k < |s| ==> IsSpace(s[k])
  {
    if s != [] && IsSpace(s[|s| - 1]) then TrimEnd(s[..|s| - 1]) else s
  }

  /** `r` is the slice of `s` starting at `i`, and all of `s` around it is whitespace. */
  ghost predicate Trimmed(s: string, i: int, r: string) {
    0 <= i <= i + |r| <= |s| && r == s[i..i + |r|] && AllSpace(s[..i]) && AllSpace(s[i + |r|..])
  }

  lemma TrimmedSlice(s: string)
    ensures Trimmed(s, |s| - |TrimStart(s)|, TrimEnd(TrimStart(s)))
  {
    var t := TrimStart(s);
    var r := TrimEnd(t);
    SpacePrefix(s, |s| - |t|);
    SpaceSuffix(t, |r|);
    TrimmedParts(s, |s| - |t|, t, r);
  }

  lemma SpacePrefix(s: string, n: nat)
    requires n <= |s| && forall k :: 0 <= k < n ==> IsSpace(s[k])
    ensures AllSpace(s[..n])
  {
  }

  lemma SpaceSuffix(s: string, n: nat)
    requires n <= |s| && forall k :: n <= k < |s| ==> IsSpace(s[k])
    ensures AllSpace(s[n..])
  {
    forall k | 0 <= k < |s| - n
      ensures IsSpace(s[n..][k])
    {
      assert s[n..][k] == s[n + k];
    }
  }

  /** A slice `r` of a suffix `t == s[i..]` with whitespace around it. */
  lemma TrimmedParts(s: string, i: nat, t: string, r: string)
    requires i <= |s| && t == s[i..] && AllSpace(s[..i])
    requires |r| <= |t| && r == t[..|r|] && AllSpace(t[|r|..])
    ensures Trimmed(s, i, r)
  {
    assert t[|r|..] == s[i + |r|..];
  }

  /** `s.strip()`: the result neither starts nor ends with whitespace, and it is
      empty exactly when `s` is all whitespace (`StripSlice` says which slice of
      `s` it is). */
  function Strip(s: string): (r: string)
    ensures |r| <= |s|
    ensures r == [] || (!IsSpace(r[0]) && !IsSpace(r[|r| - 1]))
    ensures r == [] <==> AllSpace(s)
  {
    var t := TrimStart(s);
    var r := TrimEnd(t);
    assert t != [] ==> r != [];
    assert r != [] ==> r[0] == t[0];
    assert !AllSpace(s) ==> t != [] by {
      if t == [] {
        assert forall k :: 0 <= k < |s| ==> IsSpace(s[k]);
      }
    }
    assert t != [] ==> !AllSpace(s) by {
      if t != [] {
        assert s[|s| - |t|] == t[0];
      }
    }
    r
  }

  /** What `s.strip()` returns is the slice of `s` left when the whitespace at
      both ends is removed. */
  lemma StripSlice(s: string)
    ensures exists i :: Trimmed(s, i, Strip(s))
  {
    TrimmedSlice(s);
    assert Trimmed(s, |s| - |TrimStart(s)|, Strip(s));
  }

  /** Stripping a string that is already stripped changes nothing. */
  lemma StripIdempotent(s: string)
    ensures Strip(Strip(s)) == Strip(s)
  {
    var r := Strip(s);
    if r != [] {
      assert TrimStart(r) == r;
      assert TrimEnd(r) == r;
    }
  }

  /** `s[:n]` for n >= 0 */
  function Take(s: string, n: nat): (r: string)
    ensures |r| == if |s| <= n then |s| else n
    ensures r == s[..|r|]
  {
    if |s| <= n then s else s[..n]
  }

  predicate IsDigit(c: char) {
    '0' <= c <= '9'
  }

  predicate AllDigits(s: string) {
    forall k :: 0 <= k < |s| ==> IsDigit(s[k])
  }

  function DigitChar(d: nat): (c: char)
    requires d < 10
    ensures IsDigit(c)
  {
    ('0' as int + d) as char
  }

  function DigitValue(c: char): nat
    requires IsDigit(c)
  {
    c as int - '0' as int
  }

  /** `str(n)` for a non-negative integer: its decimal digits, without leading zeros. */
  function DecimalString(n: nat): (r: string)
    ensures |r| >= 1 && AllDigits(r)
    ensures r[0] == '0' ==> n == 0
    decreases n
  {
    if n < 10 then [DigitChar(n)] else DecimalString(n / 10) + [DigitChar(n % 10)]
  }

  /** The value of a string of decimal digits (leading zeros allowed). */
  function ParseDecimal(s: string): nat
    requires AllDigits(s)
  {
    if s == [] then 0 else 10 * ParseDecimal(s[..|s| - 1]) + DigitValue(s[|s| - 1])
  }

  /** Reading back the decimal rendering of n gives n. */
  lemma {:induction false} ParseDecimalString(n: nat)
    ensures ParseDecimal(DecimalString(n)) == n
    decreases n
  {
    if n >= 10 {
      var p := DecimalString(n / 10);
      ParseDecimalString(n / 10);
      assert (p + [DigitChar(n % 10)])[..|p|] == p;
    }
  }

  /** The decimal rendering is injective: distinct numbers give distinct strings. */
  lemma DecimalStringInjective(a: nat, b: nat)
    ensures DecimalString(a) == DecimalString(b) <==> a == b
  {
    ParseDecimalString(a);
    ParseDecimalString(b);
  }

  function Zeros(n: nat): (r: string)
    ensures |r| == n && forall k :: 0 <= k < n ==> r[k] == '0'
  {
    if n == 0 then [] else Zeros(n - 1) + ['0']
  }

  /** Left-pads `s` with '0' up to `width` characters. */
  function ZeroPad(s: string, width: nat): (r: string)
    ensures |r| == if |s| >= width then |s| else width
  {
    if |s| >= width then s else Zeros(width - |s|) + s
  }

  /** The padded text ends with `s`, and everything before it is '0'. */
  lemma ZeroPadShape(s: string, width: nat)
    ensures var r := ZeroPad(s, width);
      && r[|r| - |s|..] == s
      && forall k :: 0 <= k < |r| - |s| ==> r[k] == '0'
  {
    if |s| < width {
      var z := Zeros(width - |s|);
      assert ZeroPad(s, width) == z + s;
      assert (z + s)[|z|..] == s;
    }
  }

  /** Python's `f"{n:0{width}d}"`: the sign (if any) counts toward the width and
      the digits are padded with zeros after it. */
  function FormatInt(n: int, width: nat): string {
    if n < 0 then "-" + ZeroPad(DecimalString(-n), if width > 0 then width - 1 else 0)
    else ZeroPad(DecimalString(n), width)
  }

  lemma {:induction false} ParseZeros(z: string)
    requires forall k :: 0 <= k < |z| ==> z[k] == '0'
    ensures AllDigits(z) && ParseDecimal(z) == 0
    decreases |z|
  {
    if z != [] {
      ParseZeros(z[..|z| - 1]);
    }
  }

  /** Leading zeros do not change the value read. */
  lemma {:induction false} ParseLeadingZeros(z: string, s: string)
    requires forall k :: 0 <= k < |z| ==> z[k] == '0'
    requires AllDigits(s)
    ensures AllDigits(z + s) && ParseDecimal(z + s) == ParseDecimal(s)
    decreases |s|
  {
    if s == [] {
      assert z + s == z;
      ParseZeros(z);
    } else {
      ParseLeadingZeros(z, s[..|s| - 1]);
      assert (z + s)[..|z + s| - 1] == z + s[..|s| - 1];
    }
  }

  /** A number padded with leading zeros is still a run of digits with that value. */
  lemma {:induction false} ZeroPadReadsBack(n: nat, width: nat)
    ensures ZeroPad(DecimalString(n), width) != []
    ensures AllDigits(ZeroPad(DecimalString(n), width))
    ensures ParseDecimal(ZeroPad(DecimalString(n), width)) == n
  {
    var d := DecimalString(n);
    ParseDecimalString(n);
    if |d| < width {
      assert ZeroPad(d, width) == Zeros(width - |d|) + d;
      ParseLeadingZeros(Zeros(width - |d|), d);
    } else {
      assert ZeroPad(d, width) == d;
    }
  }

  /** A non-negative number formatted with `{n:0Wd}` reads back as itself. */
  lemma {:induction false} FormatIntReadsBack(n: nat, width: nat)
    ensures AllDigits(FormatInt(n, width))
    ensures ParseDecimal(FormatInt(n, width)) == n
    ensures |FormatInt(n, width)| >= width
  {
    ZeroPadReadsBack(n, width);
  }

  /** The text is exactly `width` long when the number has at most `width` digits. */
  lemma FormatIntWidth(n: nat, width: nat)
    requires width > 0 && n < Pow10(width)
    ensures |FormatInt(n, width)| == width
  {
    DecimalStringLength(n, width);
  }

  function Pow10(k: nat): (r: nat)
    ensures r >= 1
  {
    if k == 0 then 1 else 10 * Pow10(k - 1)
  }

  lemma {:induction false} DecimalStringLength(n: nat, width: nat)
    requires width > 0 && n < Pow10(width)
    ensures |DecimalString(n)| <= width
    decreases width
  {
    if n >= 10 {
      assert width > 1;
      DecimalStringLength(n / 10, width - 1);
    }
  }

  /** `sep.join(parts)` */
  function Join(parts: seq<string>, sep: string): string {
    if |parts| == 0 then ""
    else if |parts| == 1 then parts[0]
    else parts[0] + sep + Join(parts[1..], sep)
  }

  /** `s.replace(old, new)` for a non-empty `old`: every non-overlapping occurrence,
      scanning from the left, is replaced. */
  function ReplaceAll(s: string, pat: string, repl: string): string
    requires |pat| > 0
    decreases |s|
  {
    if |s| < |pat| then s
    else if s[..|pat|] == pat then repl + ReplaceAll(s[|pat|..], pat, repl)
    else [s[0]] + ReplaceAll(s[1..], pat, repl)
  }

  predicate OccursAt(pat: string, s: string, i: int) {
    0 <= i <= |s| - |pat| && s[i..i + |pat|] == pat
  }

  ghost predicate OccursIn(pat: string, s: string) {
    exists i :: OccursAt(pat, s, i)
  }

  /** Replacing a pattern that does not occur leaves the string unchanged. */
  lemma {:induction false} ReplaceAbsent(s: string, pat: string, repl: string)
    requires |pat| > 0 && !OccursIn(pat, s)
    ensures ReplaceAll(s, pat, repl) == s
    decreases |s|
  {
    if |s| >= |pat| {
      assert !OccursAt(pat, s, 0);
      assert s[..|pat|] != pat;
      assert !OccursIn(pat, s[1..]) by {
        forall i ensures !OccursAt(pat, s[1..], i) {
          assert !OccursAt(pat, s, i + 1);
          if 0 <= i <= |s[1..]| - |pat| {
            assert s[1..][i..i + |pat|] == s[i + 1..i + 1 + |pat|];
          }
        }
      }
      ReplaceAbsent(s[1..], pat, repl);
      assert [s[0]] + s[1..] == s;
    }
  }

  /** An occurrence at the very start is replaced and scanning resumes after it. */
  lemma ReplaceAtStart(pat: string, rest: string, repl: string)
    requires |pat| > 0
    ensures ReplaceAll(pat + rest, pat, repl) == repl + ReplaceAll(rest, pat, repl)
  {
    assert (pat + rest)[..|pat|] == pat;
    assert (pat + rest)[|pat|..] == rest;
  }

  /** `s.startswith(prefix)` */
  predicate StartsWith(s: string, prefix: string) {
    |prefix| <= |s| && s[..|prefix|] == prefix
  }

  /** The position of the first `c` in `s`, if any (`s.find(c)`). */
  function IndexOf(s: string, c: char): (r: Option<nat>)
    ensures r.None? <==> c !in s
    ensures r.Some? ==> r.value < |s| && s[r.value] == c && c !in s[..r.value]
  {
    if s == [] then None
    else if s[0] == c then Some(0)
    else
      match IndexOf(s[1..], c)
      case None => None
      case Some(k) =>
        assert s[..k + 1] == [s[0]] + s[1..][..k];
        Some(k + 1)
  }

  /** `s.split(c, 1)`: the text before the first `c` and the text after it, or `[s]`
      when `c` does not occur. */
  function SplitOnce(s: string, c: char): (parts: seq<string>)
    ensures |parts| == 1 || |parts| == 2
    ensures |parts| == 1 <==> c !in s
    ensures |parts| == 1 ==> parts[0] == s
    ensures |parts| == 2 ==> s == parts[0] + [c] + parts[1] && c !in parts[0]
  {
    match IndexOf(s, c)
    case None => [s]
    case Some(k) =>
      assert s == s[..k] + [c] + s[k + 1..];
      [s[..k], s[k + 1..]]
  }

  /** The first `c` of a string built as `a + [c] + b`, with no `c` in `a`, is at |a|. */
  lemma {:induction false} IndexOfJoined(a: string, c: char, b: string)
    requires c !in a
    ensures IndexOf(a + [c] + b, c) == Some(|a|)
    decreases |a|
  {
    var s := a + [c] + b;
    if a != [] {
      assert s[0] == a[0];
      assert s[1..] == a[1..] + [c] + b;
      IndexOfJoined(a[1..], c, b);
    }
  }

  /** Splitting a string built around its first `c` finds the two parts again. */
  lemma SplitOnceJoined(a: string, c: char, b: string)
    requires c !in a
    ensures SplitOnce(a + [c] + b, c) == [a, b]
  {
    var s := a + [c] + b;
    IndexOfJoined(a, c, b);
    assert s[..|a|] == a;
    assert s[|a| + 1..] == b;
  }
}
