/**
 * The pieces of Python's `str` that the responder relies on: `strip()`, `startswith`,
 * the `in` substring test, `str(int)` and the line structure of a multi-line reply.
 * Strings are sequences of Unicode scalar values: Python 3 strings can also hold the
 * surrogate code points U+D800-U+DFFF, which Dafny's `char` excludes.
 */
module Text {

  /** Python's `str.isspace()`: the characters `strip()` removes when called without arguments. */
  predicate IsSpace(c: char) {
    ('\t' <= c <= '\r') || ('\U{1C}' <= c <= '\U{1F}') || c == ' ' || c == '\U{85}'
    || c == '\U{A0}' || c == '\U{1680}' || ('\U{2000}' <= c <= '\U{200A}')
    || c == '\U{2028}' || c == '\U{2029}' || c == '\U{202F}' || c == '\U{205F}' || c == '\U{3000}'
  }

  predicate AllSpace(s: string) {
    forall i :: 0 <= i < |s| ==> IsSpace(s[i])
  }

  /** Neither end of `s` is whitespace: what `strip()` leaves behind. */
  predicate Trimmed(s: string) {
    s == [] || (!IsSpace(s[0]) && !IsSpace(s[|s| - 1]))
  }

  /** `s.lstrip()`: the suffix left after the leading whitespace. */
  function TrimStart(s: string): (r: string)
    ensures |r| <= |s| && r == s[|s| - |r|..]
    ensures AllSpace(s[..|s| - |r|])
    ensures r == [] || !IsSpace(r[0])
    decreases |s|
  {
    if |s| > 0 && IsSpace(s[0]) then
      var r := TrimStart(s[1..]);
      SpacePrefixGrows(s, |s| - |r|);
      assert s[1..][|s| - 1 - |r|..] == s[|s| - |r|..];
      r
    else s
  }

  lemma SpacePrefixGrows(s: string, n: nat)
    requires 0 < n <= |s| && IsSpace(s[0]) && AllSpace(s[1..][..n - 1])
    ensures AllSpace(s[..n])
  {
    forall x | 0 < x < n
      ensures IsSpace(s[x])
    {
      assert s[1..][..n - 1][x - 1] == s[x];
    }
  }

  /** `s.rstrip()`: the prefix left before the trailing whitespace. */
  function TrimEnd(s: string): (r: string)
    ensures |r| <= |s| && r == s[..|r|]
    ensures AllSpace(s[|r|..])
    ensures r == [] || !IsSpace(r[|r| - 1])
    decreases |s|
  {
    if |s| > 0 && IsSpace(s[|s| - 1]) then TrimEnd(s[..|s| - 1]) else s
  }

  /** `s.strip()`. */
  function Strip(s: string): (r: string)
    ensures Trimmed(r)
    ensures |r| <= |s|
  {
    TrimEnd(TrimStart(s))
  }

  /**
   * `strip()` is characterised without reference to how it is computed: whenever `s` is
   * some all-whitespace text, then `t` with no whitespace at either end, then all-whitespace
   * text, the result is `t`.
   */
  lemma StripCharacterization(s: string, i: nat, j: nat)
    requires i <= j <= |s|
    requires AllSpace(s[..i]) && AllSpace(s[j..]) && Trimmed(s[i..j])
    ensures Strip(s) == s[i..j]
  {
    if i == j {
      AllSpaceAround(s, i);
      StripAllSpace(s);
    } else {
      TrimmedEdges(s, i, j);
      StripAround(s, i, j);
    }
  }

  lemma StripAllSpace(s: string)
    requires AllSpace(s[..|s|])
    ensures Strip(s) == []
  {
    TrimStartAt(s, |s|);
    TrimEndAt([], 0);
  }

  lemma StripAround(s: string, i: nat, j: nat)
    requires i < j <= |s| && AllSpace(s[..i]) && AllSpace(s[j..])
    requires !IsSpace(s[i]) && !IsSpace(s[j - 1])
    ensures Strip(s) == s[i..j]
  {
    TrimStartAt(s, i);
    var a := s[i..];
    assert a[..j - i] == s[i..j] && a[j - i..] == s[j..] && a[j - i - 1] == s[j - 1];
    TrimEndAt(a, j - i);
  }

  lemma TrimmedEdges(s: string, i: nat, j: nat)
    requires i < j <= |s| && Trimmed(s[i..j])
    ensures !IsSpace(s[i]) && !IsSpace(s[j - 1])
  {
    assert s[i..j][0] == s[i] && s[i..j][j - i - 1] == s[j - 1];
  }

  lemma AllSpaceAround(s: string, i: nat)
    requires i <= |s| && AllSpace(s[..i]) && AllSpace(s[i..])
    ensures AllSpace(s[..|s|])
  {
    forall x | 0 <= x < |s|
      ensures IsSpace(s[x])
    {
      if x < i { assert s[..i][x] == s[x]; } else { assert s[i..][x - i] == s[x]; }
    }
  }

  /** When the leading whitespace ends at `i`, `TrimStart` keeps `s[i..]`. */
  lemma {:induction false} TrimStartAt(s: string, i: nat)
    requires i <= |s| && AllSpace(s[..i]) && (i == |s| || !IsSpace(s[i]))
    ensures TrimStart(s) == s[i..]
    decreases i
  {
    if i > 0 {
      assert s[..i][0] == s[0];
      assert s[1..][..i - 1] == s[1..i];
      assert forall x :: 0 <= x < i - 1 ==> s[1..i][x] == s[..i][x + 1];
      TrimStartAt(s[1..], i - 1);
    }
  }

  /** When the trailing whitespace starts at `j`, `TrimEnd` keeps `s[..j]`. */
  lemma {:induction false} TrimEndAt(s: string, j: nat)
    requires j <= |s| && AllSpace(s[j..]) && (j == 0 || !IsSpace(s[j - 1]))
    ensures TrimEnd(s) == s[..j]
    decreases |s| - j
  {
    if j < |s| {
      var t := s[..|s| - 1];
      assert s[j..][|s| - 1 - j] == s[|s| - 1];
      assert t[j..] == s[j..|s| - 1];
      assert forall x :: 0 <= x < |s| - 1 - j ==> t[j..][x] == s[j..][x];
      TrimEndAt(t, j);
      assert t[..j] == s[..j];
    }
  }

  /** Text with no whitespace at either end is left as it is. */
  lemma StripTrimmed(t: string)
    requires Trimmed(t)
    ensures Strip(t) == t
  {
    assert t[..0] == [] && t[|t|..] == [] && t[0..|t|] == t;
    StripCharacterization(t, 0, |t|);
  }

  /** `strip()` is idempotent. */
  lemma StripIdempotent(s: string)
    ensures Strip(Strip(s)) == Strip(s)
  {
    StripTrimmed(Strip(s));
  }

  /** A single trailing newline after trimmed, non-empty text is all that `strip()` removes. */
  lemma StripTrailingNewline(t: string)
    requires t != [] && Trimmed(t)
    ensures Strip(t + "\n") == t
  {
    var s := t + "\n";
    assert s[..0] == [] && s[|t|..] == "\n" && s[0..|t|] == t;
    StripCharacterization(s, 0, |t|);
  }

  /** Python's `s.startswith(p)`. */
  predicate StartsWith(s: string, p: string) {
    |p| <= |s| && s[..|p|] == p
  }

  /** Python's `s.endswith(p)`. */
  predicate EndsWith(s: string, p: string) {
    |p| <= |s| && s[|s| - |p|..] == p
  }

  /** Python's `u in s` on strings, scanning `s` from the left. */
  function Contains(s: string, u: string): (found: bool)
    ensures found ==> |u| <= |s|
    ensures StartsWith(s, u) ==> found
    ensures u == [] ==> found
    decreases |s|
  {
    StartsWith(s, u) || (|s| > 0 && Contains(s[1..], u))
  }

  /** `u` occurs in `s` starting at position `i`. */
  predicate OccursAt(s: string, u: string, i: int) {
    0 <= i <= |s| - |u| && s[i..i + |u|] == u
  }

  /** `Contains` holds exactly when `u` occurs at some position of `s`. */
  lemma {:induction false} ContainsIff(s: string, u: string)
    ensures Contains(s, u) <==> exists i :: OccursAt(s, u, i)
    decreases |s|
  {
    if StartsWith(s, u) {
      assert OccursAt(s, u, 0);
    } else if |s| > 0 {
      ContainsIff(s[1..], u);
      if Contains(s[1..], u) {
        var i :| OccursAt(s[1..], u, i);
        assert s[1..][i..i + |u|] == s[i + 1..i + 1 + |u|];
        assert OccursAt(s, u, i + 1);
      } else {
        forall i | OccursAt(s, u, i)
          ensures false
        {
          if i > 0 {
            var t := s[1..];
            assert i - 1 + |u| <= |t|;
            assert t[i - 1..i - 1 + |u|] == s[i..i + |u|];
            assert OccursAt(t, u, i - 1);
          }
        }
      }
    } else {
      forall i | OccursAt(s, u, i)
        ensures false
      {
      }
    }
  }

  /** Text that lacks the first character of a non-empty `u` cannot contain `u`. */
  lemma {:induction false} MissingFirstCharNotContains(s: string, u: string)
    requires |u| > 0 && u[0] !in s
    ensures !Contains(s, u)
    decreases |s|
  {
    if |s| > 0 {
      assert forall c :: c in s[1..] ==> c in s;
      MissingFirstCharNotContains(s[1..], u);
    }
  }

  predicate IsDigit(c: char) {
    '0' <= c <= '9'
  }

  predicate AllDigits(s: string) {
    forall i :: 0 <= i < |s| ==> IsDigit(s[i])
  }

  function DigitChar(d: nat): (c: char)
    requires d < 10
    ensures IsDigit(c) && c as int - '0' as int == d
  {
    (d + '0' as int) as char
  }

  /** The value of a string of decimal digits, most significant first. */
  function DecimalValue(s: string): nat
    requires AllDigits(s)
  {
    if s == [] then 0 else 10 * DecimalValue(s[..|s| - 1]) + (s[|s| - 1] as int - '0' as int)
  }

  /** Python's `str(n)` for a non-negative integer: decimal digits, no leading zero. */
  function NatToDecimal(n: nat): (r: string)
    ensures r != [] && AllDigits(r)
    ensures |r| > 1 ==> r[0] != '0'
    decreases n
  {
    if n < 10 then [DigitChar(n)] else NatToDecimal(n / 10) + [DigitChar(n % 10)]
  }

  /** Reading back the digits `str(n)` writes gives `n`. */
  lemma {:induction false} DecimalRoundTrip(n: nat)
    ensures DecimalValue(NatToDecimal(n)) == n
    decreases n
  {
    var r := NatToDecimal(n);
    if n >= 10 {
      DecimalRoundTrip(n / 10);
      assert r[..|r| - 1] == NatToDecimal(n / 10);
    }
  }

  /** Python's `str(i)` for any integer: a minus sign before the digits of a negative value. */
  function IntToDecimal(i: int): (r: string)
    ensures r != [] && '\n' !in r && Trimmed(r)
    ensures i >= 0 ==> AllDigits(r) && DecimalValue(r) == i
    ensures i < 0 ==> r[0] == '-' && AllDigits(r[1..]) && DecimalValue(r[1..]) == -i
    ensures i >= 0 ==> (|r| > 1 ==> r[0] != '0')
    ensures i < 0 ==> (|r| > 2 ==> r[1] != '0')
  {
    var d := NatToDecimal(if i < 0 then -i else i);
    DecimalRoundTrip(if i < 0 then -i else i);
    DigitsSingleLine(d);
    if i < 0 then
      assert ("-" + d)[1..] == d;
      assert ("-" + d)[1] == d[0];
      assert ("-" + d)[|"-" + d| - 1] == d[|d| - 1];
      "-" + d
    else
      d
  }

  /** A non-empty run of digits is a single line with no whitespace at either end. */
  lemma DigitsSingleLine(d: string)
    requires d != [] && AllDigits(d)
    ensures '\n' !in d && Trimmed(d)
  {
    assert IsDigit(d[0]) && IsDigit(d[|d| - 1]);
  }

  /** `"\n".join(lines)`. */
  function JoinLines(lines: seq<string>): string
    requires |lines| > 0
  {
    if |lines| == 1 then lines[0] else lines[0] + "\n" + JoinLines(lines[1..])
  }

  /** Python's `s.split("\n")`: always at least one piece. */
  function SplitLines(s: string): (r: seq<string>)
    ensures |r| > 0
    decreases |s|
  {
    if s == [] then [[]]
    else if s[0] == '\n' then [[]] + SplitLines(s[1..])
    else
      var rest := SplitLines(s[1..]);
      [[s[0]] + rest[0]] + rest[1..]
  }

  lemma {:induction false} SplitLinesSingle(line: string)
    requires '\n' !in line
    ensures SplitLines(line) == [line]
    decreases |line|
  {
    if line != [] {
      assert line[1..] + [] == line[1..];
      SplitLinesSingle(line[1..]);
      assert [line[0]] + line[1..] == line;
    }
  }

  lemma {:induction false} SplitLinesCons(line: string, rest: string)
    requires '\n' !in line
    ensures SplitLines(line + "\n" + rest) == [line] + SplitLines(rest)
    decreases |line|
  {
    var s := line + "\n" + rest;
    if line == [] {
      assert s == "\n" + rest && s[1..] == rest;
    } else {
      assert s[1..] == line[1..] + "\n" + rest;
      SplitLinesCons(line[1..], rest);
      assert [line[0]] + line[1..] == line;
    }
  }

  /** Splitting joined lines gives the lines back, when none of them holds a newline. */
  lemma {:induction false} SplitJoin(lines: seq<string>)
    requires |lines| > 0
    requires forall k :: 0 <= k < |lines| ==> '\n' !in lines[k]
    ensures SplitLines(JoinLines(lines)) == lines
    decreases |lines|
  {
    if |lines| == 1 {
      SplitLinesSingle(lines[0]);
    } else {
      SplitJoin(lines[1..]);
      SplitLinesCons(lines[0], JoinLines(lines[1..]));
      assert [lines[0]] + lines[1..] == lines;
    }
  }
}
