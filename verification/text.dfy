/** The few pieces of Python string handling the transpiler relies on:
    `str.strip()`, `str.replace(" ", "")`, `str.split(sep)`, `int()` on a
    plain decimal string and `str()` of a non-negative integer. */
module Text {

  /** Python's `str.isspace()` for a single character. */
  predicate IsSpace(c: char) {
    || '\t' <= c <= '\r'
    || '\U{1c}' <= c <= ' '
    || c == '\U{85}' || c == '\U{a0}' || c == '\U{1680}'
    || '\U{2000}' <= c <= '\U{200a}'
    || c == '\U{2028}' || c == '\U{2029}' || c == '\U{202f}'
    || c == '\U{205f}' || c == '\U{3000}'
  }

  predicate AllSpace(s: string) {
    forall i :: 0 <= i < |s| ==> IsSpace(s[i])
  }

  /** Number of whitespace characters at the front of `s`. */
  function LeadingSpaces(s: string): (n: nat)
    ensures n <= |s|
    ensures forall i :: 0 <= i < n ==> IsSpace(s[i])
    ensures n < |s| ==> !IsSpace(s[n])
  {
    if |s| == 0 || !IsSpace(s[0]) then 0
    else
      var n := LeadingSpaces(s[1..]);
      assert forall i :: 1 <= i < 1 + n ==> s[i] == s[1..][i - 1];
      1 + n
  }

  /** Number of whitespace characters at the back of `s`. */
  function TrailingSpaces(s: string): (n: nat)
    ensures n <= |s|
    ensures forall i :: |s| - n <= i < |s| ==> IsSpace(s[i])
    ensures n < |s| ==> !IsSpace(s[|s| - n - 1])
  {
    if |s| == 0 || !IsSpace(s[|s| - 1]) then 0
    else
      var n := TrailingSpaces(s[..|s| - 1]);
      assert forall i :: |s| - 1 - n <= i < |s| - 1 ==> s[i] == s[..|s| - 1][i];
      1 + n
  }

  /** Python's `s.lstrip()`. */
  function StripFront(s: string): (r: string)
    ensures r == s[LeadingSpaces(s)..]
  {
    if |s| > 0 && IsSpace(s[0]) then StripFront(s[1..]) else s
  }

  /** Python's `s.rstrip()`. */
  function StripBack(s: string): (r: string)
    ensures r == s[..|s| - TrailingSpaces(s)]
  {
    if |s| > 0 && IsSpace(s[|s| - 1]) then StripBack(s[..|s| - 1]) else s
  }

  /** Python's `s.strip()`: `s` without its leading and trailing whitespace. */
  function Strip(s: string): (r: string)
    ensures |r| <= |s|
    ensures |r| > 0 ==> !IsSpace(r[0]) && !IsSpace(r[|r| - 1])
  {
    var t := StripFront(s);
    var r := StripBack(t);
    assert |r| > 0 ==> r[0] == t[0] && r[|r| - 1] == t[|t| - TrailingSpaces(t) - 1];
    r
  }

  /** `Strip` only removes characters: text without a space stays so. */
  lemma StripNoSpace(s: string)
    requires ' ' !in s
    ensures ' ' !in Strip(s)
  {
    var t := StripFront(s);
    var r := StripBack(t);
    assert forall i :: 0 <= i < |t| ==> t[i] == s[LeadingSpaces(s) + i];
    assert forall i :: 0 <= i < |r| ==> r[i] == t[i];
  }

  /** Text with no whitespace at either end is left alone by `Strip`. */
  lemma StripTrimmed(s: string)
    requires |s| > 0 && !IsSpace(s[0]) && !IsSpace(s[|s| - 1])
    ensures Strip(s) == s
  {
    assert StripFront(s) == s;
    assert StripBack(s) == s;
  }

  /** Whitespace after trimmed text, such as a line break, is stripped away. */
  lemma StripTrailing(s: string, rest: string)
    requires |s| > 0 && !IsSpace(s[0]) && !IsSpace(s[|s| - 1]) && AllSpace(rest)
    ensures Strip(s + rest) == s
  {
    assert (s + rest)[0] == s[0];
    assert StripFront(s + rest) == s + rest;
    StripBackTrailing(s, rest);
  }

  lemma {:induction false} StripBackTrailing(s: string, rest: string)
    requires |s| > 0 && !IsSpace(s[|s| - 1]) && AllSpace(rest)
    ensures StripBack(s + rest) == s
    decreases |rest|
  {
    if rest == [] {
      assert s + rest == s;
      assert StripBack(s) == s;
    } else {
      var t := s + rest;
      var shorter := rest[..|rest| - 1];
      assert t[|t| - 1] == rest[|rest| - 1];
      assert t[..|t| - 1] == s + shorter;
      StripBackTrailing(s, shorter);
    }
  }

  /** `Strip` yields the empty string exactly for all-whitespace text. */
  lemma StripEmptyIffAllSpace(s: string)
    ensures Strip(s) == "" <==> AllSpace(s)
  {
    if AllSpace(s) {
      AllSpaceLeading(s);
    }
  }

  /** A whitespace character in front of `s` does not change `Strip(s)`. */
  lemma StripSpaceFront(c: char, s: string)
    requires IsSpace(c)
    ensures Strip([c] + s) == Strip(s)
  {
    assert ([c] + s)[1..] == s;
    assert StripFront([c] + s) == StripFront(s);
  }

  lemma {:induction false} AllSpaceLeading(s: string)
    requires AllSpace(s)
    ensures LeadingSpaces(s) == |s|
  {
    if |s| > 0 {
      AllSpaceLeading(s[1..]);
    }
  }

  /** Python's `s.replace(" ", "")`. With `RemoveSpacesAppend`, the
      one-character case fixes the result: the other characters are kept
      in order and with their multiplicity. */
  function RemoveSpaces(s: string): (r: string)
    ensures ' ' !in r
    ensures ' ' !in s ==> r == s
    ensures forall c :: c in r <==> c in s && c != ' '
    ensures |s| == 1 ==> r == (if s[0] == ' ' then "" else s)
  {
    if |s| == 0 then ""
    else
      var rest := RemoveSpaces(s[1..]);
      assert forall c :: c in s <==> c == s[0] || c in s[1..];
      if s[0] == ' ' then rest else [s[0]] + rest
  }

  /** Removing spaces works piece by piece. */
  lemma {:induction false} RemoveSpacesAppend(a: string, b: string)
    ensures RemoveSpaces(a + b) == RemoveSpaces(a) + RemoveSpaces(b)
    decreases |a|
  {
    if |a| == 0 {
      assert a + b == b;
    } else {
      RemoveSpacesAppend(a[1..], b);
      assert (a + b)[0] == a[0];
      assert (a + b)[1..] == a[1..] + b;
      RemoveSpacesFront(a);
      RemoveSpacesFront(a + b);
    }
  }

  /** One step of `RemoveSpaces`: the first character, unless a space, then
      the rest. */
  lemma RemoveSpacesFront(s: string)
    requires |s| > 0
    ensures RemoveSpaces(s) == (if s[0] == ' ' then "" else [s[0]]) + RemoveSpaces(s[1..])
  {
  }

  /** Inverse of `Split`: the pieces with `sep` between neighbours. */
  function Join(parts: seq<string>, sep: char): string
    requires |parts| >= 1
  {
    if |parts| == 1 then parts[0] else parts[0] + [sep] + Join(parts[1..], sep)
  }

  /** Python's `s.split(sep)` for a one-character separator: at least one
      piece, no piece contains `sep`, and joining the pieces gives `s` back. */
  function Split(s: string, sep: char): (r: seq<string>)
    ensures |r| >= 1
    ensures forall i :: 0 <= i < |r| ==> sep !in r[i]
    ensures Join(r, sep) == s
  {
    if |s| == 0 then [""]
    else
      var rest := Split(s[1..], sep);
      if s[0] == sep then
        assert Join([""] + rest, sep) == [sep] + Join(rest, sep) by {
          assert ([""] + rest)[1..] == rest;
        }
        [""] + rest
      else
        var r := [[s[0]] + rest[0]] + rest[1..];
        assert Join(r, sep) == [s[0]] + Join(rest, sep) by {
          if |rest| > 1 {
            assert r[1..] == rest[1..];
          }
        }
        r
  }

  lemma {:induction false} SplitPiece(p: string, sep: char, rest: string)
    requires sep !in p
    ensures Split(p + [sep] + rest, sep) == [p] + Split(rest, sep)
    decreases |p|
  {
    if |p| == 0 {
      assert p + [sep] + rest == [sep] + rest;
      assert ([sep] + rest)[1..] == rest;
    } else {
      SplitPiece(p[1..], sep, rest);
      assert (p + [sep] + rest)[1..] == p[1..] + [sep] + rest;
      assert (p + [sep] + rest)[0] == p[0] != sep;
      assert [p[0]] + p[1..] == p;
    }
  }

  lemma {:induction false} SplitWhole(p: string, sep: char)
    requires sep !in p
    ensures Split(p, sep) == [p]
    decreases |p|
  {
    if |p| > 0 {
      SplitWhole(p[1..], sep);
      assert [p[0]] + p[1..] == p;
    }
  }

  /** `Split` undoes `Join` when no piece contains the separator. */
  lemma {:induction false} SplitJoin(parts: seq<string>, sep: char)
    requires |parts| >= 1
    requires forall i :: 0 <= i < |parts| ==> sep !in parts[i]
    ensures Split(Join(parts, sep), sep) == parts
    decreases |parts|
  {
    if |parts| == 1 {
      SplitWhole(parts[0], sep);
    } else {
      SplitJoin(parts[1..], sep);
      SplitPiece(parts[0], sep, Join(parts[1..], sep));
    }
  }

  /** Joining two non-empty lists of pieces. */
  lemma {:induction false} JoinAppend(a: seq<string>, b: seq<string>, sep: char)
    requires |a| >= 1 && |b| >= 1
    ensures Join(a + b, sep) == Join(a, sep) + [sep] + Join(b, sep)
    decreases |a|
  {
    if |a| == 1 {
      assert (a + b)[1..] == b;
    } else {
      JoinAppend(a[1..], b, sep);
      assert (a + b)[1..] == a[1..] + b;
    }
  }

  predicate IsDigit(c: char) {
    '0' <= c <= '9'
  }

  /** A non-empty string of ASCII decimal digits. */
  predicate IsDigits(s: string) {
    |s| > 0 && forall i :: 0 <= i < |s| ==> IsDigit(s[i])
  }

  /** Value of a decimal digit string, most significant digit first. */
  function DigitsValue(s: string): nat
    requires forall i :: 0 <= i < |s| ==> IsDigit(s[i])
  {
    if |s| == 0 then 0
    else
      assert IsDigit(s[|s| - 1]);
      DigitsValue(s[..|s| - 1]) * 10 + (s[|s| - 1] as int - '0' as int)
  }

  function DigitChar(d: nat): (c: char)
    requires d < 10
    ensures IsDigit(c) && c as int - '0' as int == d
  {
    ('0' as int + d) as char
  }

  /** Python's `str(n)` for a non-negative integer: digits only, and reading
      them back gives `n`. */
  function NatText(n: nat): (r: string)
    ensures IsDigits(r)
    ensures DigitsValue(r) == n
    ensures r[0] == '0' <==> n == 0
    ensures n == 0 ==> r == "0"
  {
    if n < 10 then [DigitChar(n)]
    else
      var r := NatText(n / 10) + [DigitChar(n % 10)];
      assert r[..|r| - 1] == NatText(n / 10);
      assert r[0] == NatText(n / 10)[0];
      r
  }
}
