/** Shared vocabulary of the model: optional values, the error kinds the library raises,
    the fixed-width integer types of the .NET runtime, and the ASCII subset of the
    string operations the library relies on (Trim, ToUpperInvariant, StartsWith,
    IndexOf, Split, int.TryParse, Int32.ToString). */
module Common {

  datatype Option<T> = None | Some(value: T)

  /** The exceptions the library lets escape, by kind. */
  datatype Error =
    | Win32Error                      // System.ComponentModel.Win32Exception
    | ArgumentNull                    // ArgumentNullException
    | ArgumentOutOfRange              // ArgumentOutOfRangeException
    | NullReference                   // NullReferenceException
    | IndexOutOfRange                 // IndexOutOfRangeException
    | DivideByZero                    // DivideByZeroException
    | Overflow                        // OverflowException
    | FormatError(message: string)    // FormatException
    | GeneralError(message: string)   // System.Exception with a message

  /** Completion of an operation that returns nothing (void) or throws. */
  datatype Outcome = Pass | Fail(error: Error)

  /** Completion of an operation that returns a value or throws. */
  datatype Result<T> = Ok(value: T) | Err(error: Error)

  const MinInt32: int := -0x8000_0000
  const MaxInt32: int := 0x7FFF_FFFF
  const MinInt64: int := -0x8000_0000_0000_0000
  const MaxInt64: int := 0x7FFF_FFFF_FFFF_FFFF
  const TwoTo32: int := 0x1_0000_0000
  const TwoTo64: int := 0x1_0000_0000_0000_0000

  newtype byte = x: int | 0 <= x < 0x100
  newtype int32 = x: int | -0x8000_0000 <= x < 0x8000_0000
  newtype uint32 = x: int | 0 <= x < 0x1_0000_0000
  newtype int64 = x: int | -0x8000_0000_0000_0000 <= x < 0x8000_0000_0000_0000
  newtype uint64 = x: int | 0 <= x < 0x1_0000_0000_0000_0000

  /** Two's-complement truncation to 32 bits: what an unchecked C# cast or
      addition into `int` yields. */
  function WrapInt32(n: int): (r: int32)
    ensures (r as int - n) % TwoTo32 == 0
    ensures MinInt32 <= n <= MaxInt32 ==> r as int == n
  {
    var m := n % TwoTo32;
    if m > MaxInt32 then (m - TwoTo32) as int32 else m as int32
  }

  /** Two's-complement truncation to 64 bits (unchecked `long` arithmetic). */
  function WrapInt64(n: int): (r: int64)
    ensures (r as int - n) % TwoTo64 == 0
    ensures MinInt64 <= n <= MaxInt64 ==> r as int == n
  {
    var m := n % TwoTo64;
    if m > MaxInt64 then (m - TwoTo64) as int64 else m as int64
  }

  /** C#'s `/` on integers: the quotient truncated toward zero. The caller has
      excluded a zero divisor. */
  function TruncDiv(a: int, b: int): (q: int)
    requires b != 0
    ensures var rem := a - b * q;
      (if rem < 0 then -rem else rem) < (if b < 0 then -b else b) &&
      (rem == 0 || (rem < 0 <==> a < 0))
  {
    var na := if a < 0 then -a else a;
    var nb := if b < 0 then -b else b;
    var nq := na / nb;
    if (a < 0) == (b < 0) then nq else -nq
  }

  // ---------------------------------------------------------------- characters

  /** The characters .NET's Trim and NumberStyles.Integer treat as white space,
      restricted to ASCII: space and U+0009..U+000D. */
  predicate IsWhiteSpace(c: char) {
    c == ' ' || ('\t' <= c <= '\r')
  }

  predicate IsDigit(c: char) {
    '0' <= c <= '9'
  }

  predicate AllDigits(s: string) {
    forall i :: 0 <= i < |s| ==> IsDigit(s[i])
  }

  /** ToUpperInvariant restricted to ASCII letters. */
  function UpperChar(c: char): (u: char)
    ensures 'a' <= c <= 'z' ==> u as int == c as int - 32
    ensures !('a' <= c <= 'z') ==> u == c
  {
    if 'a' <= c <= 'z' then (c as int - 32) as char else c
  }

  function ToUpper(s: string): (r: string)
    ensures |r| == |s|
    ensures forall i :: 0 <= i < |s| ==> r[i] == UpperChar(s[i])
  {
    seq(|s|, i requires 0 <= i < |s| => UpperChar(s[i]))
  }

  // ---------------------------------------------------------------- trimming

  /** The first position at or after `i` that holds no white space (|s| if none). */
  function SkipWhiteSpace(s: string, i: nat): (n: nat)
    requires i <= |s|
    ensures i <= n <= |s|
    ensures n < |s| ==> !IsWhiteSpace(s[n])
    decreases |s| - i
  {
    if i < |s| && IsWhiteSpace(s[i]) then SkipWhiteSpace(s, i + 1) else i
  }

  /** The end of `s[..j]` once its trailing white space is dropped. */
  function SkipWhiteSpaceBack(s: string, j: nat): (n: nat)
    requires j <= |s|
    ensures n <= j
    ensures n > 0 ==> !IsWhiteSpace(s[n - 1])
    decreases j
  {
    if j > 0 && IsWhiteSpace(s[j - 1]) then SkipWhiteSpaceBack(s, j - 1) else j
  }

  /** What SkipWhiteSpace passes over is white space throughout. */
  lemma {:induction false} SkippedIsWhiteSpace(s: string, i: nat, k: nat)
    requires i <= |s| && i <= k < SkipWhiteSpace(s, i)
    ensures IsWhiteSpace(s[k])
    decreases |s| - i
  {
    if k > i {
      SkippedIsWhiteSpace(s, i + 1, k);
    }
  }

  /** The same for SkipWhiteSpaceBack. */
  lemma {:induction false} SkippedBackIsWhiteSpace(s: string, j: nat, k: nat)
    requires j <= |s| && SkipWhiteSpaceBack(s, j) <= k < j
    ensures IsWhiteSpace(s[k])
    decreases j
  {
    if k < j - 1 {
      SkippedBackIsWhiteSpace(s, j - 1, k);
    }
  }

  /** String.TrimStart(). */
  function TrimStart(s: string): string {
    s[SkipWhiteSpace(s, 0)..]
  }

  /** String.TrimEnd(). */
  function TrimEnd(s: string): string {
    s[..SkipWhiteSpaceBack(s, |s|)]
  }

  /** String.Trim(): removes leading and trailing white space. */
  function Trim(s: string): (r: string)
    ensures r == [] || (!IsWhiteSpace(r[0]) && !IsWhiteSpace(r[|r| - 1]))
  {
    TrimEnd(TrimStart(s))
  }

  /** Whether a string is white space throughout. */
  predicate AllWhiteSpace(s: string) {
    forall k :: 0 <= k < |s| ==> IsWhiteSpace(s[k])
  }

  /** Trim takes away exactly white space, from the front and from the back. */
  lemma TrimDropsPadding(s: string)
    ensures exists pre, post :: AllWhiteSpace(pre) && AllWhiteSpace(post) && s == pre + Trim(s) + post
  {
    var a := SkipWhiteSpace(s, 0);
    var t := s[a..];
    var b := SkipWhiteSpaceBack(t, |t|);
    var pre, mid, post := s[..a], t[..b], t[b..];
    LeadingIsPadding(s);
    TrailingIsPadding(t);
    assert Trim(s) == mid;
    assert s == pre + mid + post by { assert s == pre + t; assert t == mid + post; }
    assert AllWhiteSpace(pre) && AllWhiteSpace(post) && s == pre + Trim(s) + post;
  }

  /** What TrimStart drops is white space. */
  lemma LeadingIsPadding(s: string)
    ensures AllWhiteSpace(s[..SkipWhiteSpace(s, 0)])
  {
    forall k | 0 <= k < SkipWhiteSpace(s, 0) ensures IsWhiteSpace(s[k]) { SkippedIsWhiteSpace(s, 0, k); }
  }

  /** What TrimEnd drops is white space. */
  lemma TrailingIsPadding(t: string)
    ensures AllWhiteSpace(t[SkipWhiteSpaceBack(t, |t|)..])
  {
    var b := SkipWhiteSpaceBack(t, |t|);
    forall k | 0 <= k < |t| - b ensures IsWhiteSpace(t[b..][k]) { SkippedBackIsWhiteSpace(t, |t|, b + k); }
  }

  lemma TrimKeepsUnpadded(s: string)
    requires s == [] || (!IsWhiteSpace(s[0]) && !IsWhiteSpace(s[|s| - 1]))
    ensures Trim(s) == s
  {
    assert TrimStart(s) == s;
  }

  // ---------------------------------------------------------------- prefixes and search

  predicate StartsWith(s: string, p: string) {
    |p| <= |s| && s[..|p|] == p
  }

  predicate EndsWith(s: string, p: string) {
    |p| <= |s| && s[|s| - |p|..] == p
  }

  /** StartsWith with an ignore-case comparison, ASCII case folding only. */
  predicate StartsWithIgnoreCase(s: string, p: string) {
    |p| <= |s| && forall i :: 0 <= i < |p| ==> UpperChar(s[i]) == UpperChar(p[i])
  }

  predicate OccursAt(s: string, pat: string, i: int) {
    0 <= i && i + |pat| <= |s| && s[i..i + |pat|] == pat
  }

  /** Ordinal String.IndexOf(pat, from): the first position at or after `from`
      where `pat` occurs, or -1. */
  function IndexOf(s: string, pat: string, from: nat): (r: int)
    requires from <= |s|
    ensures r == -1 || (from <= r && OccursAt(s, pat, r))
    ensures r == -1 ==> forall i :: from <= i ==> !OccursAt(s, pat, i)
    ensures r >= 0 ==> forall i :: from <= i < r ==> !OccursAt(s, pat, i)
    decreases |s| - from
  {
    if from + |pat| > |s| then -1
    else if OccursAt(s, pat, from) then from
    else IndexOf(s, pat, from + 1)
  }

  /** IndexOf is pinned down by an occurrence with no earlier one. */
  lemma IndexOfIs(s: string, pat: string, from: nat, k: nat)
    requires from <= k && OccursAt(s, pat, k) && from <= |s|
    requires forall i :: from <= i < k ==> !OccursAt(s, pat, i)
    ensures IndexOf(s, pat, from) == k
  {
  }

  // ---------------------------------------------------------------- integers as text

  function DigitValue(c: char): nat
    requires IsDigit(c)
  {
    c as int - '0' as int
  }

  function DigitChar(d: nat): (c: char)
    requires d < 10
    ensures IsDigit(c) && DigitValue(c) == d
  {
    ('0' as int + d) as char
  }

  /** The value of a string of decimal digits. */
  function DigitsValue(s: string): nat
    requires AllDigits(s)
    decreases |s|
  {
    if s == [] then 0 else DigitsValue(s[..|s| - 1]) * 10 + DigitValue(s[|s| - 1])
  }

  /** Decimal rendering of a natural number, without leading zeros. */
  function NatToString(n: nat): (r: string)
    ensures |r| >= 1 && AllDigits(r)
    decreases n
  {
    if n < 10 then [DigitChar(n)] else NatToString(n / 10) + [DigitChar(n % 10)]
  }

  lemma {:induction false} NatToStringRoundTrip(n: nat)
    ensures DigitsValue(NatToString(n)) == n
    decreases n
  {
    var s := NatToString(n);
    if n < 10 {
      assert s[..|s| - 1] == [];
    } else {
      NatToStringRoundTrip(n / 10);
      assert s[..|s| - 1] == NatToString(n / 10);
    }
  }

  /** Int32.ToString(CultureInfo.InvariantCulture). */
  function Int32ToString(n: int32): (r: string)
    ensures |r| >= 1
  {
    if n < 0 then "-" + NatToString(-(n as int)) else NatToString(n as int)
  }

  /** int.TryParse(s, NumberStyles.Integer, CultureInfo.InvariantCulture): optional
      surrounding white space, an optional sign, one or more decimal digits, and a
      value inside the 32-bit range. */
  function TryParseInt32(s: string): (r: Option<int32>)
  {
    var t := Trim(s);
    if t == [] then None
    else
      var negative := t[0] == '-';
      var body := if t[0] == '-' || t[0] == '+' then t[1..] else t;
      if body == [] || !AllDigits(body) then None
      else
        var v: int := if negative then 0 - DigitsValue(body) else DigitsValue(body);
        if MinInt32 <= v <= MaxInt32 then Some(v as int32) else None
  }

  /** Parsing what Int32ToString printed gives the number back. */
  lemma Int32RoundTrip(n: int32)
    ensures TryParseInt32(Int32ToString(n)) == Some(n)
  {
    var s := Int32ToString(n);
    var m: nat := if n < 0 then -(n as int) else n as int;
    var digits := NatToString(m);
    NatToStringRoundTrip(m);
    if n < 0 {
      assert s == "-" + digits;
      assert s[1..] == digits;
      assert s[|s| - 1] == digits[|digits| - 1];
      TrimKeepsUnpadded(s);
      assert Trim(s) == s;
    } else {
      assert s == digits;
      TrimKeepsUnpadded(s);
      assert Trim(s) == s;
      assert s[0] != '-' && s[0] != '+';
    }
  }

  /** A string the parser accepts is made of digits with at most a sign and
      surrounding white space, so it never holds a letter or a backslash. */
  lemma ParsedHasNoLetter(s: string, c: char)
    requires TryParseInt32(s).Some?
    requires c in Trim(s)
    ensures IsDigit(c) || c == '-' || c == '+'
  {
    var t := Trim(s);
    var body := if t[0] == '-' || t[0] == '+' then t[1..] else t;
    var i :| 0 <= i < |t| && t[i] == c;
    if i > 0 || !(t[0] == '-' || t[0] == '+') {
      assert body[if t[0] == '-' || t[0] == '+' then i - 1 else i] == c;
    }
  }

  // ---------------------------------------------------------------- splitting

  /** parts[0] + sep + parts[1] + sep + ... */
  function Join(parts: seq<string>, sep: char): string
    decreases |parts|
  {
    if |parts| == 0 then ""
    else if |parts| == 1 then parts[0]
    else parts[0] + [sep] + Join(parts[1..], sep)
  }

  /** String.Split(sep): the pieces between separators, never empty as a list. */
  function Split(s: string, sep: char): (parts: seq<string>)
    ensures |parts| >= 1
    ensures forall i :: 0 <= i < |parts| ==> sep !in parts[i]
    decreases |s|
  {
    if s == [] then [""]
    else
      var rest := Split(s[1..], sep);
      if s[0] == sep then [""] + rest
      else [[s[0]] + rest[0]] + rest[1..]
  }

  lemma {:induction false} JoinSplit(s: string, sep: char)
    ensures Join(Split(s, sep), sep) == s
    decreases |s|
  {
    if s != [] {
      JoinSplit(s[1..], sep);
      var rest := Split(s[1..], sep);
      if s[0] == sep {
        assert ([""] + rest)[1..] == rest;
      } else {
        var parts := [[s[0]] + rest[0]] + rest[1..];
        if |rest| > 1 {
          assert parts[1..] == rest[1..];
          assert Join(rest, sep) == rest[0] + [sep] + Join(rest[1..], sep);
        }
      }
    }
  }

  /** Splitting undoes joining when no piece holds the separator. */
  lemma {:induction false} SplitJoin(parts: seq<string>, sep: char)
    requires |parts| >= 1
    requires forall i :: 0 <= i < |parts| ==> sep !in parts[i]
    ensures Split(Join(parts, sep), sep) == parts
    decreases |parts|, |parts[0]|
  {
    if |parts[0]| == 0 {
      if |parts| > 1 {
        SplitJoin(parts[1..], sep);
        var s := Join(parts, sep);
        assert s == [sep] + Join(parts[1..], sep);
        assert s[1..] == Join(parts[1..], sep);
        assert [""] + parts[1..] == parts;
      }
    } else {
      var head := parts[0];
      var shorter := [head[1..]] + parts[1..];
      SplitJoin(shorter, sep) by {
        forall i | 0 <= i < |shorter| ensures sep !in shorter[i] {
          if i == 0 {
            assert forall k :: 0 <= k < |head[1..]| ==> head[1..][k] == head[k + 1];
          } else {
            assert shorter[i] == parts[i];
          }
        }
      }
      var s := Join(parts, sep);
      assert shorter[1..] == parts[1..];
      if |parts| > 1 {
        assert s == head + [sep] + Join(parts[1..], sep);
        assert Join(shorter, sep) == head[1..] + [sep] + Join(parts[1..], sep);
      }
      assert s[0] == head[0];
      assert s[1..] == Join(shorter, sep);
      assert s[0] != sep;
      assert [head[0]] + head[1..] == head;
      assert [[head[0]] + shorter[0]] + shorter[1..] == parts;
    }
  }

  /** The number of occurrences of c in s. */
  function CountChar(s: string, c: char): nat
  {
    if s == [] then 0 else (if s[0] == c then 1 else 0) + CountChar(s[1..], c)
  }
}
