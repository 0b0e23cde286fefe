/** The pieces of Rust's standard library that the claim parser leans on,
    stated over `string` (a sequence of Unicode scalar values, as a Rust
    `&str` is once decoded): `char::is_whitespace`, `str::trim`,
    `str::trim_start_matches`, `str::rsplit_once`, `str::eq_ignore_ascii_case`
    and `u32::from_str`. */
module RustStr {
  import opened Wrappers
  import opened Primitives

  // ---------------------------------------------------------------------------
  // Sequence facts used to keep the proofs below cheap
  // ---------------------------------------------------------------------------

  lemma SplitAt(s: string, k: nat)
    requires k <= |s|
    ensures s == s[..k] + s[k..]
  {
  }

  lemma ConcatAssoc(a: string, b: string, c: string)
    ensures a + (b + c) == a + b + c
  {
  }

  // ---------------------------------------------------------------------------
  // Whitespace and trimming
  // ---------------------------------------------------------------------------

  /** `char::is_whitespace`: the Unicode `White_Space` property. */
  predicate IsWhitespace(c: char) {
    || ('\t' <= c <= '\r')
    || c == ' '
    || c == '\U{0085}'
    || c == '\U{00A0}'
    || c == '\U{1680}'
    || ('\U{2000}' <= c <= '\U{200A}')
    || c == '\U{2028}'
    || c == '\U{2029}'
    || c == '\U{202F}'
    || c == '\U{205F}'
    || c == '\U{3000}'
  }

  /** The code points the Unicode character database lists with the
      `White_Space` property, one by one. */
  const WhiteSpaceTable: set<char> := {
    '\t', '\n', '\U{000B}', '\U{000C}', '\r', ' ', '\U{0085}', '\U{00A0}', '\U{1680}',
    '\U{2000}', '\U{2001}', '\U{2002}', '\U{2003}', '\U{2004}', '\U{2005}',
    '\U{2006}', '\U{2007}', '\U{2008}', '\U{2009}', '\U{200A}',
    '\U{2028}', '\U{2029}', '\U{202F}', '\U{205F}', '\U{3000}'
  }

  /** The ranges of `IsWhitespace` cover exactly the listed code points. */
  lemma WhitespaceTable(c: char)
    ensures IsWhitespace(c) <==> c in WhiteSpaceTable
  {
  }

  predicate AllWhitespace(s: string) {
    forall i :: 0 <= i < |s| ==> IsWhitespace(s[i])
  }

  lemma AllWhitespaceConcat(a: string, b: string)
    requires AllWhitespace(a) && AllWhitespace(b)
    ensures AllWhitespace(a + b)
  {
    forall k | 0 <= k < |a + b| ensures IsWhitespace((a + b)[k]) {
      if k >= |a| {
        assert (a + b)[k] == b[k - |a|];
      }
    }
  }

  /** Neither end of `s` is whitespace (trivially so for the empty string). */
  predicate Trimmed(s: string) {
    s == [] || (!IsWhitespace(s[0]) && !IsWhitespace(s[|s| - 1]))
  }

  /** The first position at or after `i` that does not hold whitespace, or
      `|s|` when there is none. */
  function SkipWhitespace(s: string, i: nat): (n: nat)
    requires i <= |s|
    ensures i <= n <= |s|
    ensures forall j :: i <= j < n ==> IsWhitespace(s[j])
    ensures n == |s| || !IsWhitespace(s[n])
    decreases |s| - i
  {
    if i < |s| && IsWhitespace(s[i]) then SkipWhitespace(s, i + 1) else i
  }

  /** The end of the text before `j` once trailing whitespace is dropped:
      just past the last non-whitespace position before `j`, or 0. */
  function SkipWhitespaceBack(s: string, j: nat): (n: nat)
    requires j <= |s|
    ensures n <= j
    ensures forall k :: n <= k < j ==> IsWhitespace(s[k])
    ensures n == 0 || !IsWhitespace(s[n - 1])
  {
    if j > 0 && IsWhitespace(s[j - 1]) then SkipWhitespaceBack(s, j - 1) else j
  }

  /** A whitespace run from `i` ending at a non-whitespace position (or the
      end) is exactly what `SkipWhitespace` skips. */
  lemma {:induction false} SkipRun(s: string, i: nat, e: nat)
    requires i <= e <= |s|
    requires forall j :: i <= j < e ==> IsWhitespace(s[j])
    requires e == |s| || !IsWhitespace(s[e])
    ensures SkipWhitespace(s, i) == e
    decreases e - i
  {
    if i < e {
      SkipRun(s, i + 1, e);
    }
  }

  /** The mirror image of `SkipRun`, for `SkipWhitespaceBack`. */
  lemma {:induction false} SkipRunBack(s: string, e: nat, j: nat)
    requires e <= j <= |s|
    requires forall k :: e <= k < j ==> IsWhitespace(s[k])
    requires e == 0 || !IsWhitespace(s[e - 1])
    ensures SkipWhitespaceBack(s, j) == e
    decreases j
  {
    if e < j {
      SkipRunBack(s, e, j - 1);
    }
  }

  /** `str::trim_start`: drops the longest all-whitespace prefix. */
  function TrimStart(s: string): (r: string)
    ensures |r| <= |s| && r == s[|s| - |r|..]
    ensures AllWhitespace(s[..|s| - |r|])
    ensures r == [] || !IsWhitespace(r[0])
  {
    s[SkipWhitespace(s, 0)..]
  }

  /** `str::trim_end`: drops the longest all-whitespace suffix. */
  function TrimEnd(s: string): (r: string)
    ensures |r| <= |s| && r == s[..|r|]
    ensures AllWhitespace(s[|r|..])
    ensures r == [] || !IsWhitespace(r[|r| - 1])
  {
    s[..SkipWhitespaceBack(s, |s|)]
  }

  /** `r` is the piece of `s` starting at `i`, with only whitespace around it. */
  predicate Framed(s: string, r: string, i: nat) {
    i + |r| <= |s| && r == s[i..i + |r|] && AllWhitespace(s[..i]) && AllWhitespace(s[i + |r|..])
  }

  /** `str::trim`: the text left once whitespace is dropped at both ends.
      The result is a contiguous piece of `s`, flanked by whitespace only. */
  function Trim(s: string): (r: string)
    ensures Trimmed(r)
    ensures exists i :: Framed(s, r, i)
  {
    var a := TrimStart(s);
    var r := TrimEnd(a);
    TrimFrame(s, a, r);
    r
  }

  /** The two halves of `Trim` leave a contiguous piece of `s` between two
      all-whitespace pieces. */
  lemma TrimFrame(s: string, a: string, r: string)
    requires |a| <= |s| && a == s[|s| - |a|..] && AllWhitespace(s[..|s| - |a|])
    requires |r| <= |a| && r == a[..|r|] && AllWhitespace(a[|r|..])
    ensures Framed(s, r, |s| - |a|)
  {
    var i := |s| - |a|;
    assert r == s[i..i + |r|];
    assert s[i + |r|..] == a[|r|..];
  }

  /** Whitespace in front of a text that does not start with whitespace is
      exactly what `TrimStart` removes. */
  lemma TrimStartPadded(w: string, y: string)
    requires AllWhitespace(w)
    requires y == [] || !IsWhitespace(y[0])
    ensures TrimStart(w + y) == y
  {
    var s := w + y;
    assert forall j :: 0 <= j < |w| ==> s[j] == w[j];
    assert y != [] ==> s[|w|] == y[0];
    SkipRun(s, 0, |w|);
    assert s[|w|..] == y;
  }

  /** Whitespace after a text that does not end with whitespace is exactly
      what `TrimEnd` removes. */
  lemma TrimEndPadded(y: string, w: string)
    requires AllWhitespace(w)
    requires y == [] || !IsWhitespace(y[|y| - 1])
    ensures TrimEnd(y + w) == y
  {
    var s := y + w;
    assert forall k :: |y| <= k < |s| ==> s[k] == w[k - |y|];
    assert y != [] ==> s[|y| - 1] == y[|y| - 1];
    SkipRunBack(s, |y|, |s|);
    assert s[..|y|] == y;
  }

  /** Trimming removes exactly whitespace padding around a trimmed core:
      with the contract of `Trim` this makes `Trim(s) == x` equivalent to
      `s` being `x` padded by whitespace on both sides. */
  lemma TrimPadded(w1: string, x: string, w2: string)
    requires AllWhitespace(w1) && AllWhitespace(w2) && Trimmed(x)
    ensures Trim(w1 + x + w2) == x
  {
    ConcatAssoc(w1, x, w2);
    if x == [] {
      var s := w1 + x + w2;
      AllWhitespaceConcat(w1, w2);
      assert s == w1 + w2;
      SkipRun(s, 0, |s|);
      assert TrimStart(s) == [];
    } else {
      assert (x + w2)[0] == x[0];
      TrimStartPadded(w1, x + w2);
      TrimEndPadded(x, w2);
    }
  }

  /** Text with no whitespace at either end is left alone. */
  lemma TrimOfTrimmed(x: string)
    requires Trimmed(x)
    ensures Trim(x) == x
  {
    SkipRun(x, 0, 0);
    SkipRunBack(x, |x|, |x|);
    assert x[0..] == x;
    assert x[..|x|] == x;
  }

  /** With nothing in front, trimming only removes the trailing padding. */
  lemma TrimTrailing(x: string, w: string)
    requires AllWhitespace(w) && Trimmed(x) && x != []
    ensures Trim(x + w) == x
  {
    assert (x + w)[0] == x[0];
    assert SkipWhitespace(x + w, 0) == 0;
    TrimEndPadded(x, w);
  }

  /** The padding `Trim` removes, given back: whitespace on either side. */
  lemma TrimPadding(s: string) returns (w1: string, w2: string)
    ensures AllWhitespace(w1) && AllWhitespace(w2)
    ensures s == w1 + Trim(s) + w2
  {
    var rest := TrimStart(s);
    var core := TrimEnd(rest);
    w1 := s[..|s| - |rest|];
    w2 := rest[|core|..];
    SplitAt(s, |w1|);
    SplitAt(rest, |core|);
    ConcatAssoc(w1, core, w2);
  }

  /** Extra whitespace around a text does not change what trimming leaves. */
  lemma TrimOfPadded(w1: string, s: string, w2: string)
    requires AllWhitespace(w1) && AllWhitespace(w2)
    ensures Trim(w1 + s + w2) == Trim(s)
  {
    var x := Trim(s);
    var v1, v2 := TrimPadding(s);
    ConcatAssoc(w1, v1 + x + v2, w2);
    ConcatAssoc(w1, v1 + x, v2);
    ConcatAssoc(w1, v1, x);
    ConcatAssoc(w1 + v1 + x, v2, w2);
    AllWhitespaceConcat(w1, v1);
    AllWhitespaceConcat(v2, w2);
    TrimPadded(w1 + v1, x, v2 + w2);
  }

  /** `str::trim_start_matches(c)` for a single character `c`. */
  function TrimStartMatches(s: string, c: char): (r: string)
    ensures |r| <= |s| && r == s[|s| - |r|..]
    ensures forall i :: 0 <= i < |s| - |r| ==> s[i] == c
    ensures r == [] || r[0] != c
  {
    if s != [] && s[0] == c then
      var r := TrimStartMatches(s[1..], c);
      assert forall i :: 1 <= i < |s| - |r| ==> s[i] == s[1..][i - 1];
      r
    else
      s
  }

  // ---------------------------------------------------------------------------
  // Splitting and comparing
  // ---------------------------------------------------------------------------

  /** Position of the last occurrence of `c` in `s`, if any. */
  function LastIndexOf(s: string, c: char): (r: Option<nat>)
    ensures r.None? <==> c !in s
    ensures r.Some? ==> r.value < |s| && s[r.value] == c && c !in s[r.value + 1..]
  {
    if s == [] then None
    else if s[|s| - 1] == c then Some(|s| - 1)
    else
      var r := LastIndexOf(s[..|s| - 1], c);
      assert s == s[..|s| - 1] + [s[|s| - 1]];
      if r.Some? then
        assert s[r.value + 1..] == s[..|s| - 1][r.value + 1..] + [s[|s| - 1]];
        r
      else
        r
  }

  /** `str::rsplit_once(c)`: the text before and after the LAST `c`. */
  function RSplitOnce(s: string, c: char): (r: Option<(string, string)>)
    ensures r.None? <==> c !in s
    ensures r.Some? ==> s == r.value.0 + [c] + r.value.1 && c !in r.value.1
  {
    match LastIndexOf(s, c)
    case None => None
    case Some(i) =>
      assert s == s[..i] + [c] + s[i + 1..];
      Some((s[..i], s[i + 1..]))
  }

  /** The split `RSplitOnce` makes is the only one whose right part is free of `c`. */
  lemma RSplitOnceUnique(a: string, c: char, b: string)
    requires c !in b
    ensures RSplitOnce(a + [c] + b, c) == Some((a, b))
  {
    var s := a + [c] + b;
    assert s[|a|] == c;
    var r := RSplitOnce(s, c);
    var a', b' := r.value.0, r.value.1;
    assert |a'| == |a|;
    assert a' == s[..|a|] == a;
    assert b' == s[|a| + 1..] == b;
  }

  /** Splitting at an occurrence of `c` that no later `c` follows. */
  lemma RSplitOnceAt(s: string, c: char, k: nat)
    requires k < |s| && s[k] == c && c !in s[k + 1..]
    ensures RSplitOnce(s, c) == Some((s[..k], s[k + 1..]))
  {
    SplitAt(s, k);
    SplitAt(s[k..], 1);
    assert s[k..][..1] == [c];
    ConcatAssoc(s[..k], [c], s[k + 1..]);
    RSplitOnceUnique(s[..k], c, s[k + 1..]);
  }

  /** `char::to_ascii_lowercase`: only `A`..`Z` change. */
  function ToAsciiLowercase(c: char): (r: char)
    ensures 'A' <= c <= 'Z' ==> 'a' <= r <= 'z' && r as int - c as int == 32
    ensures !('A' <= c <= 'Z') ==> r == c
  {
    if 'A' <= c <= 'Z' then (c as int + 32) as char else c
  }

  /** `str::eq_ignore_ascii_case`. Rust compares the UTF-8 bytes; comparing
      characters agrees with that whenever one side is ASCII, because a
      non-ASCII character encodes to bytes that are not ASCII letters. */
  predicate EqIgnoreAsciiCase(a: string, b: string) {
    |a| == |b| && forall i :: 0 <= i < |a| ==> ToAsciiLowercase(a[i]) == ToAsciiLowercase(b[i])
  }

  /** `str::to_ascii_lowercase`. */
  function AsciiLowercase(s: string): string {
    seq(|s|, i requires 0 <= i < |s| => ToAsciiLowercase(s[i]))
  }

  /** The comparison is the one its Rust documentation gives as its
      meaning: the two texts are equal once both are lowercased. */
  lemma EqIgnoreAsciiCaseLowercase(a: string, b: string)
    ensures EqIgnoreAsciiCase(a, b) <==> AsciiLowercase(a) == AsciiLowercase(b)
  {
    if AsciiLowercase(a) == AsciiLowercase(b) {
      forall i | 0 <= i < |a| ensures ToAsciiLowercase(a[i]) == ToAsciiLowercase(b[i]) {
        assert AsciiLowercase(a)[i] == AsciiLowercase(b)[i];
      }
    }
  }

  // ---------------------------------------------------------------------------
  // u32::from_str
  // ---------------------------------------------------------------------------

  predicate IsAsciiDigit(c: char) {
    '0' <= c <= '9'
  }

  predicate AllDigits(s: string) {
    forall i :: 0 <= i < |s| ==> IsAsciiDigit(s[i])
  }

  function DigitValue(c: char): (d: nat)
    requires IsAsciiDigit(c)
    ensures d <= 9
  {
    c as int - '0' as int
  }

  /** Reading the decimal digits `ds` left to right, starting from `acc`. */
  function ValueFrom(acc: nat, ds: string): nat
    requires AllDigits(ds)
    decreases ds
  {
    if ds == [] then acc else ValueFrom(acc * 10 + DigitValue(ds[0]), ds[1..])
  }

  /** `from_str` reads an optional `+` followed by digits as the digits' value,
      when that value fits in 32 bits. */
  lemma FromStrU32OfNumeral(sign: string, digits: string)
    requires sign == "" || sign == "+"
    requires digits != [] && AllDigits(digits)
    ensures var v := DigitsValue(digits);
            FromStrU32(sign + digits) == if v <= U32_MAX then Some(v as u32) else None
  {
    assert UnsignedDigits(sign + digits) == digits;
  }

  /** A `u32` literal is an optional `+` followed by the digits `from_str` reads. */
  lemma U32LiteralPieces(s: string) returns (sign: string)
    requires IsU32Literal(s)
    ensures sign == "" || sign == "+"
    ensures s == sign + UnsignedDigits(s)
  {
    if s[0] == '+' {
      sign := "+";
      SplitAt(s, 1);
      assert s[..1] == sign;
    } else {
      sign := "";
      assert sign + s == s;
    }
  }

  /** The number a run of decimal digits denotes (leading zeros allowed). */
  function DigitsValue(ds: string): nat
    requires AllDigits(ds)
  {
    ValueFrom(0, ds)
  }

  lemma {:induction false} ValueFromAtLeast(acc: nat, ds: string)
    requires AllDigits(ds)
    ensures ValueFrom(acc, ds) >= acc
    decreases ds
  {
    if ds != [] {
      ValueFromAtLeast(acc * 10 + DigitValue(ds[0]), ds[1..]);
    }
  }

  lemma {:induction false} ValueFromConcat(acc: nat, a: string, b: string)
    requires AllDigits(a) && AllDigits(b)
    ensures AllDigits(a + b)
    ensures ValueFrom(acc, a + b) == ValueFrom(ValueFrom(acc, a), b)
    decreases a
  {
    if a == [] {
      assert a + b == b;
    } else {
      assert (a + b)[0] == a[0];
      assert (a + b)[1..] == a[1..] + b;
      ValueFromConcat(acc * 10 + DigitValue(a[0]), a[1..], b);
    }
  }

  /** Appending a digit multiplies the value by ten and adds the digit. */
  lemma DigitsValueSnoc(ds: string, c: char)
    requires AllDigits(ds) && IsAsciiDigit(c)
    ensures AllDigits(ds + [c])
    ensures DigitsValue(ds + [c]) == DigitsValue(ds) * 10 + DigitValue(c)
  {
    ValueFromConcat(0, ds, [c]);
    assert [c][1..] == [];
  }

  /** Leading zeros do not change the value. */
  lemma {:induction false} DigitsValueLeadingZeros(zeros: string, ds: string)
    requires forall i :: 0 <= i < |zeros| ==> zeros[i] == '0'
    requires AllDigits(ds)
    ensures AllDigits(zeros + ds)
    ensures DigitsValue(zeros + ds) == DigitsValue(ds)
  {
    ValueFromConcat(0, zeros, ds);
    ValueFromOfZeros(zeros);
  }

  lemma {:induction false} ValueFromOfZeros(zeros: string)
    requires forall i :: 0 <= i < |zeros| ==> zeros[i] == '0'
    ensures AllDigits(zeros) && ValueFrom(0, zeros) == 0
  {
    if zeros != [] {
      ValueFromOfZeros(zeros[1..]);
    }
  }

  /** The digit loop of `u32::from_str_radix(_, 10)`: it stops with an error at
      the first character that is not an ASCII digit and whenever the running
      value would overflow `u32`. Because the running value never decreases,
      checking each step is the same as checking the final value. */
  function AccumulateDigits(acc: nat, ds: string): (r: Option<nat>)
    requires acc <= U32_MAX
    ensures r.Some? <==> AllDigits(ds) && ValueFrom(acc, ds) <= U32_MAX
    ensures r.Some? ==> r.value == ValueFrom(acc, ds)
    decreases ds
  {
    if ds == [] then Some(acc)
    else if !IsAsciiDigit(ds[0]) then None
    else
      var next := acc * 10 + DigitValue(ds[0]);
      if next > U32_MAX then
        assert AllDigits(ds) ==> ValueFrom(acc, ds) > U32_MAX by {
          if AllDigits(ds) {
            ValueFromAtLeast(next, ds[1..]);
          }
        }
        None
      else
        var r := AccumulateDigits(next, ds[1..]);
        assert AllDigits(ds) <==> AllDigits(ds[1..]) by {
          if AllDigits(ds[1..]) {
            assert forall i :: 1 <= i < |ds| ==> ds[i] == ds[1..][i - 1];
          }
        }
        r
  }

  /** The digits `u32::from_str` reads: everything after one optional leading `+`. */
  function UnsignedDigits(s: string): string {
    if |s| > 0 && s[0] == '+' then s[1..] else s
  }

  /** The reference reading of a `u32` literal: an optional `+`, then one or
      more ASCII digits whose value fits in 32 bits. */
  predicate IsU32Literal(s: string) {
    var ds := UnsignedDigits(s);
    ds != [] && AllDigits(ds) && DigitsValue(ds) <= U32_MAX
  }

  /** `u32::from_str`, following the shape of the standard library code:
      empty input and a lone sign are errors; a leading `+` is skipped; a
      leading `-` is left in place and fails as a non-digit. */
  function FromStrU32(s: string): (r: Option<u32>)
    ensures r.Some? <==> IsU32Literal(s)
    ensures r.Some? ==> r.value as int == DigitsValue(UnsignedDigits(s))
  {
    if s == [] then None
    else if (s[0] == '+' || s[0] == '-') && |s| == 1 then None
    else
      var ds := if s[0] == '+' then s[1..] else s;
      match AccumulateDigits(0, ds)
      case None => None
      case Some(v) => Some(v as u32)
  }

  function DigitChar(d: nat): (c: char)
    requires d <= 9
    ensures IsAsciiDigit(c) && DigitValue(c) == d
  {
    (d + '0' as int) as char
  }

  /** Canonical decimal rendering of `n`: no sign, no leading zero. */
  function DecimalString(n: nat): (r: string)
    ensures r != [] && AllDigits(r)
    ensures r[0] == '0' ==> n == 0 && |r| == 1
    ensures DigitsValue(r) == n
  {
    var d := [DigitChar(n % 10)];
    if n < 10 then
      assert ValueFrom(0, d) == ValueFrom(DigitValue(d[0]), d[1..]);
      d
    else
      var r := DecimalString(n / 10);
      DigitsValueSnoc(r, d[0]);
      r + d
  }

  /** `from_str` inverts decimal rendering, with or without a `+` sign and
      with any number of leading zeros. */
  lemma FromStrU32OfDecimal(sign: string, zeros: string, n: nat)
    requires sign == "" || sign == "+"
    requires forall i :: 0 <= i < |zeros| ==> zeros[i] == '0'
    requires n <= U32_MAX
    ensures FromStrU32(sign + zeros + DecimalString(n)) == Some(n as u32)
  {
    var ds := zeros + DecimalString(n);
    DigitsValueLeadingZeros(zeros, DecimalString(n));
    assert sign + zeros + DecimalString(n) == sign + ds;
    assert ds[0] != '+';
    assert UnsignedDigits(sign + ds) == ds;
  }
}
