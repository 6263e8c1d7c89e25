/**
  The parts of Kotlin's string library that the app relies on, with their exact
  semantics: `split("|||")`, `joinToString`, `replace("|||", "---")`, `trim`,
  `isBlank`, `toBoolean`, `toBooleanStrictOrNull` and the decimal rendering of
  integers used by string templates and `String.format("%d" / "%02d")`.
*/
module KotlinText {
  import opened Wrappers

  /** The record delimiter of the task codec. */
  const Delim: string := "|||"

  // ---------------------------------------------------------------------------
  // Delimiter occurrences
  // ---------------------------------------------------------------------------

  /** `s` holds the delimiter "|||" starting at index `i`. */
  predicate DelimAt(s: string, i: int)
  {
    0 <= i && i + 3 <= |s| && s[i] == '|' && s[i + 1] == '|' && s[i + 2] == '|'
  }

  /** `s` does not contain "|||" anywhere. */
  predicate NoDelim(s: string)
  {
    forall i :: 0 <= i < |s| ==> !DelimAt(s, i)
  }

  predicate EndsWithBar(s: string)
  {
    |s| > 0 && s[|s| - 1] == '|'
  }

  /**
    `indexOf("|||", from)`: the leftmost occurrence at or after `from`, with `|s|`
    standing for "not found" (-1 in Kotlin).
  */
  function FindDelim(s: string, from: nat): (i: nat)
    requires from <= |s|
    ensures from <= i <= |s|
    ensures i < |s| ==> DelimAt(s, i)
    ensures forall j :: from <= j < i ==> !DelimAt(s, j)
    decreases |s| - from
  {
    if from + 3 > |s| then |s|
    else if DelimAt(s, from) then from
    else FindDelim(s, from + 1)
  }

  /**
    `s.split("|||")`: cut at every leftmost, non-overlapping occurrence of the
    delimiter, keeping empty tokens (so `""` splits into `[""]`).
  */
  function Split(s: string): (r: seq<string>)
    ensures |r| >= 1
    ensures forall k :: 0 <= k < |r| ==> NoDelim(r[k])
    decreases |s|
  {
    var i := FindDelim(s, 0);
    if i == |s| then [s]
    else
      NoDelimBeforeFirst(s, i);
      [s[..i]] + Split(s[i + 3..])
  }

  /** The text before the first delimiter holds no delimiter. */
  lemma NoDelimBeforeFirst(s: string, i: nat)
    requires i <= |s|
    requires forall j :: 0 <= j < i ==> !DelimAt(s, j)
    ensures NoDelim(s[..i])
  {
    forall j | 0 <= j < i ensures !DelimAt(s[..i], j) {
      assert !DelimAt(s, j);
    }
  }

  /** `xs.joinToString(sep)`. */
  function Join(xs: seq<string>, sep: string): string
  {
    if |xs| == 0 then ""
    else if |xs| == 1 then xs[0]
    else xs[0] + sep + Join(xs[1..], sep)
  }

  /**
    `s.replace("|||", "---")`: Kotlin's replace scans left to right for the
    leftmost occurrence and resumes after it, exactly like split.
  */
  function ReplaceDelim(s: string): (r: string)
    ensures |r| == |s|
    ensures NoDelim(r)
    decreases |s|
  {
    var i := FindDelim(s, 0);
    if i == |s| then s
    else
      var rest := ReplaceDelim(s[i + 3..]);
      NoDelimBeforeFirst(s, i);
      NoDelimAroundDashes(s[..i], rest);
      s[..i] + "---" + rest
  }

  /** The tokens a joined string can be split back into. */
  predicate Separable(xs: seq<string>)
  {
    && |xs| >= 1
    && (forall k :: 0 <= k < |xs| ==> NoDelim(xs[k]))
    && (forall k :: 0 <= k < |xs| - 1 ==> !EndsWithBar(xs[k]))
  }

  lemma NoDelimAroundDashes(a: string, c: string)
    requires NoDelim(a) && NoDelim(c)
    ensures NoDelim(a + "---" + c)
  {
    var s := a + "---" + c;
    forall j | 0 <= j < |s| ensures !DelimAt(s, j) {
      if j + 3 <= |a| {
        assert !DelimAt(a, j);
      } else if j >= |a| + 3 {
        assert !DelimAt(c, j - |a| - 3);
      }
    }
  }

  // ---------------------------------------------------------------------------
  // Split, join and replace: how they relate
  // ---------------------------------------------------------------------------

  /** A delimiter-free string is its own single token. */
  lemma SplitNoDelim(s: string)
    requires NoDelim(s)
    ensures Split(s) == [s]
  {
    assert FindDelim(s, 0) == |s|;
  }

  /** Joining the tokens of any string with "|||" rebuilds it. */
  lemma {:induction false} JoinSplit(s: string)
    ensures Join(Split(s), Delim) == s
    decreases |s|
  {
    var i := FindDelim(s, 0);
    if i < |s| {
      var rest := s[i + 3..];
      JoinSplit(rest);
      assert Split(s) == [s[..i]] + Split(rest);
      assert |Split(rest)| >= 1;
      assert ([s[..i]] + Split(rest))[1..] == Split(rest);
      assert s[i..i + 3] == Delim;
      assert s == s[..i] + Delim + rest;
    }
  }

  /** When `a` does not end in '|', the first delimiter of `a + "|||" + b` is the joint. */
  lemma FirstDelimAtJoint(a: string, b: string)
    requires NoDelim(a) && !EndsWithBar(a)
    ensures FindDelim(a + Delim + b, 0) == |a|
    ensures (a + Delim + b)[|a| + 3..] == b
    ensures (a + Delim + b)[..|a|] == a
  {
    var s := a + Delim + b;
    assert DelimAt(s, |a|);
    forall j | 0 <= j < |a| ensures !DelimAt(s, j) {
      if j + 3 <= |a| {
        assert !DelimAt(a, j);
      } else {
        assert s[|a| - 1] == a[|a| - 1];
      }
    }
  }

  /** When `a` ends in '|', the first delimiter of `a + "|||" + b` begins inside `a`. */
  lemma FirstDelimBeforeJoint(a: string, b: string)
    requires EndsWithBar(a)
    ensures FindDelim(a + Delim + b, 0) < |a|
  {
    var s := a + Delim + b;
    assert DelimAt(s, |a| - 1);
  }

  /**
    Round trip of the codec: splitting a "|||"-join gives back the tokens exactly
    when the tokens are separable (no token holds "|||" and no token but the last
    ends in '|'; `split` matches leftmost, so "a|" + "|||" + "b" reads back as
    "a", "|b").
  */
  lemma {:induction false} SplitJoin(xs: seq<string>)
    requires |xs| >= 1
    ensures Split(Join(xs, Delim)) == xs <==> Separable(xs)
    decreases |xs|
  {
    var s := Join(xs, Delim);
    if |xs| == 1 {
      if NoDelim(xs[0]) {
        SplitNoDelim(xs[0]);
      } else {
        assert Split(s)[0] != xs[0];
      }
    } else {
      var a, tail := xs[0], xs[1..];
      assert s == a + Delim + Join(tail, Delim);
      SplitJoin(tail);
      if !NoDelim(a) {
        assert Split(s)[0] != a;
      } else if EndsWithBar(a) {
        FirstDelimBeforeJoint(a, Join(tail, Delim));
        var i := FindDelim(s, 0);
        assert Split(s)[0] == s[..i];
        assert |Split(s)[0]| < |a|;
      } else {
        FirstDelimAtJoint(a, Join(tail, Delim));
        assert Split(s) == [a] + Split(Join(tail, Delim));
        assert xs == [a] + tail;
        assert Separable(xs) <==> Separable(tail) by {
          if Separable(tail) {
            forall k | 0 <= k < |xs| ensures NoDelim(xs[k]) {
              if k > 0 { assert xs[k] == tail[k - 1]; }
            }
            forall k | 0 <= k < |xs| - 1 ensures !EndsWithBar(xs[k]) {
              if k > 0 { assert xs[k] == tail[k - 1]; }
            }
          }
          if Separable(xs) {
            forall k | 0 <= k < |tail| ensures NoDelim(tail[k]) {
              assert tail[k] == xs[k + 1];
            }
            forall k | 0 <= k < |tail| - 1 ensures !EndsWithBar(tail[k]) {
              assert tail[k] == xs[k + 1];
            }
          }
        }
      }
    }
  }

  /** `replace("|||", "---")` is the same scan as split, re-joined with "---". */
  lemma {:induction false} ReplaceIsSplitJoin(s: string)
    ensures ReplaceDelim(s) == Join(Split(s), "---")
    decreases |s|
  {
    var i := FindDelim(s, 0);
    if i < |s| {
      var rest := s[i + 3..];
      ReplaceIsSplitJoin(rest);
      assert |Split(rest)| >= 1;
      assert ([s[..i]] + Split(rest))[1..] == Split(rest);
    }
  }

  /** A name without "|||" is left unchanged by the replacement, so it is idempotent. */
  lemma ReplaceFixesClean(s: string)
    ensures NoDelim(s) ==> ReplaceDelim(s) == s
    ensures ReplaceDelim(ReplaceDelim(s)) == ReplaceDelim(s)
  {
    var r := ReplaceDelim(s);
    assert FindDelim(r, 0) == |r|;
    if NoDelim(s) {
      assert FindDelim(s, 0) == |s|;
    }
  }

  // ---------------------------------------------------------------------------
  // Whitespace, trim, isBlank
  // ---------------------------------------------------------------------------

  /**
    `Char.isWhitespace()`: Java's `Character.isWhitespace` or `isSpaceChar`, i.e.
    TAB..CR, the four information separators, and every space, line and paragraph
    separator of Unicode (including the no-break spaces).
  */
  predicate IsWhitespace(c: char)
  {
    || c == ' '
    || ('\t' <= c <= '\r')
    || ('\U{1C}' <= c <= '\U{1F}')
    || c == '\U{A0}'
    || c == '\U{1680}'
    || ('\U{2000}' <= c <= '\U{200A}')
    || c == '\U{2028}' || c == '\U{2029}'
    || c == '\U{202F}' || c == '\U{205F}' || c == '\U{3000}'
  }

  /** `isBlank()`: empty or whitespace only. */
  predicate IsBlank(s: string)
  {
    forall i :: 0 <= i < |s| ==> IsWhitespace(s[i])
  }

  /** Drops leading whitespace: the result is a suffix whose dropped prefix is blank. */
  function TrimStart(s: string): (r: string)
    ensures |r| <= |s| && r == s[|s| - |r|..]
    ensures IsBlank(s[..|s| - |r|])
    ensures r == [] || !IsWhitespace(r[0])
    decreases |s|
  {
    if s != [] && IsWhitespace(s[0]) then
      var r := TrimStart(s[1..]);
      assert forall i :: 1 <= i < |s| - |r| ==> s[i] == s[1..][i - 1];
      r
    else s
  }

  /** Drops trailing whitespace: the result is a prefix whose dropped suffix is blank. */
  function TrimEnd(s: string): (r: string)
    ensures |r| <= |s| && r == s[..|r|]
    ensures IsBlank(s[|r|..])
    ensures r == [] || !IsWhitespace(r[|r| - 1])
    decreases |s|
  {
    if s != [] && IsWhitespace(s[|s| - 1]) then
      var r := TrimEnd(s[..|s| - 1]);
      assert forall i :: |r| <= i < |s| - 1 ==> s[i] == s[..|s| - 1][i];
      r
    else s
  }

  /** `trim()`. */
  function Trim(s: string): string
  {
    TrimEnd(TrimStart(s))
  }

  /** Dropping leading whitespace empties exactly the blank strings. */
  lemma {:induction false} TrimStartEmpty(s: string)
    ensures TrimStart(s) == "" <==> IsBlank(s)
    decreases |s|
  {
    if s != [] {
      if IsWhitespace(s[0]) {
        TrimStartEmpty(s[1..]);
        assert IsBlank(s) == IsBlank(s[1..]) by {
          assert forall i :: 0 <= i < |s| - 1 ==> s[1..][i] == s[i + 1];
        }
      } else {
        assert !IsBlank(s) by { assert !IsWhitespace(s[0]); }
      }
    }
  }

  /** Dropping trailing whitespace empties exactly the blank strings. */
  lemma {:induction false} TrimEndEmpty(s: string)
    ensures TrimEnd(s) == "" <==> IsBlank(s)
    decreases |s|
  {
    if s != [] {
      var last := |s| - 1;
      if IsWhitespace(s[last]) {
        TrimEndEmpty(s[..last]);
        assert IsBlank(s) == IsBlank(s[..last]) by {
          assert forall i :: 0 <= i < last ==> s[..last][i] == s[i];
        }
      } else {
        assert !IsBlank(s) by { assert !IsWhitespace(s[last]); }
      }
    }
  }

  /**
    Trimming gives the empty string exactly for blank input; otherwise the result
    neither begins nor ends with whitespace.
  */
  lemma TrimEmptyIffBlank(s: string)
    ensures Trim(s) == "" <==> IsBlank(s)
    ensures Trim(s) != "" ==> !IsWhitespace(Trim(s)[0]) && !IsWhitespace(Trim(s)[|Trim(s)| - 1])
  {
    var t := TrimStart(s);
    var r := TrimEnd(t);
    TrimStartEmpty(s);
    TrimEndEmpty(t);
    if r != "" {
      assert r == t[..|r|];
      assert r[0] == t[0];
    }
  }

  // ---------------------------------------------------------------------------
  // Booleans
  // ---------------------------------------------------------------------------

  /** `Boolean.toString()`. */
  function BoolToString(b: bool): string
  {
    if b then "true" else "false"
  }

  /**
    `String.toBoolean()`: true exactly for "true" compared ignoring case. No
    character outside ASCII changes case to one of the letters of "true", so
    ASCII case folding is exact here.
  */
  predicate ParseLenient(s: string)
  {
    && |s| == 4
    && (s[0] == 't' || s[0] == 'T')
    && (s[1] == 'r' || s[1] == 'R')
    && (s[2] == 'u' || s[2] == 'U')
    && (s[3] == 'e' || s[3] == 'E')
  }

  /** `String.toBooleanStrictOrNull()`: only the exact tokens "true" and "false" parse. */
  function ParseStrict(s: string): (r: Option<bool>)
  {
    if s == "true" then Some(true) else if s == "false" then Some(false) else None
  }

  /** The lower-case form of an ASCII capital; every other character is its own. */
  function LowerAscii(c: char): char
  {
    if 'A' <= c <= 'Z' then (c as int + 32) as char else c
  }

  /** `String.equals(other, ignoreCase = true)` restricted to ASCII case folding. */
  predicate EqualsIgnoreCase(a: string, b: string)
  {
    |a| == |b| && forall i :: 0 <= i < |a| ==> LowerAscii(a[i]) == LowerAscii(b[i])
  }

  /** A character folds to a lower-case letter exactly when it is that letter or its capital. */
  lemma LowerAsciiIs(c: char, lower: char)
    requires 'a' <= lower <= 'z'
    ensures LowerAscii(c) == lower <==> c == lower || c as int == lower as int - 32
  {
  }

  /** `toBoolean()` holds exactly for "true" compared ignoring case; every other string reads as false. */
  lemma ParseLenientIgnoresCase(s: string)
    ensures ParseLenient(s) <==> EqualsIgnoreCase(s, "true")
  {
    if |s| == 4 {
      LowerAsciiIs(s[0], 't');
      LowerAsciiIs(s[1], 'r');
      LowerAsciiIs(s[2], 'u');
      LowerAsciiIs(s[3], 'e');
      assert LowerAscii("true"[0]) == 't' && LowerAscii("true"[1]) == 'r';
      assert LowerAscii("true"[2]) == 'u' && LowerAscii("true"[3]) == 'e';
    }
  }

  /**
    Both parsers read back what `Boolean.toString` writes; the strict one
    rejects every other token and the lenient one accepts exactly the casings
    of "true".
  */
  lemma BooleanTokensRoundTrip(b: bool, s: string)
    ensures ParseLenient(BoolToString(b)) == b
    ensures ParseStrict(BoolToString(b)) == Some(b)
    ensures ParseStrict(s).Some? <==> (s == "true" || s == "false")
    ensures ParseLenient(s) <==> EqualsIgnoreCase(s, "true")
  {
    ParseLenientIgnoresCase(s);
  }

  // ---------------------------------------------------------------------------
  // Decimal rendering of integers
  // ---------------------------------------------------------------------------

  predicate IsDigits(s: string)
  {
    forall i :: 0 <= i < |s| ==> '0' <= s[i] <= '9'
  }

  function DigitChar(d: nat): char
    requires d < 10
  {
    ('0' as int + d) as char
  }

  /** The decimal digits of `n`, without sign or leading zeros. */
  function NatToString(n: nat): (r: string)
    ensures |r| >= 1 && IsDigits(r)
    ensures |r| > 1 ==> r[0] != '0'
    decreases n
  {
    if n < 10 then [DigitChar(n)] else NatToString(n / 10) + [DigitChar(n % 10)]
  }

  /** Reads a string of decimal digits back as a number. */
  function ParseDigits(s: string): nat
    requires IsDigits(s)
    decreases |s|
  {
    if s == [] then 0 else ParseDigits(s[..|s| - 1]) * 10 + (s[|s| - 1] as int - '0' as int)
  }

  /** Rendering a number in decimal and reading it back gives the number. */
  lemma {:induction false} NatToStringRoundTrip(n: nat)
    ensures ParseDigits(NatToString(n)) == n
    decreases n
  {
    if n >= 10 {
      NatToStringRoundTrip(n / 10);
      var r := NatToString(n);
      assert r[..|r| - 1] == NatToString(n / 10);
    }
  }

  /** Distinct numbers render differently. */
  lemma NatToStringInjective(m: nat, n: nat)
    requires NatToString(m) == NatToString(n)
    ensures m == n
  {
    NatToStringRoundTrip(m);
    NatToStringRoundTrip(n);
  }

  /** `"%d"` / string templates for an `Int`. */
  function IntToString(n: int): string
  {
    if n < 0 then "-" + NatToString(-n) else NatToString(n)
  }

  /**
    `"%02d"`: at least two characters, zero-padded; a negative number already
    has two characters, sign included, so it is never padded.
  */
  function Pad2(n: int): string
  {
    if 0 <= n < 10 then "0" + NatToString(n) else IntToString(n)
  }

  /** On a minute of the clock, `"%02d"` gives exactly two digits that read back as the minute. */
  lemma Pad2Minute(m: int)
    requires 0 <= m < 60
    ensures |Pad2(m)| == 2 && IsDigits(Pad2(m))
    ensures ParseDigits(Pad2(m)) == m
  {
    NatToStringRoundTrip(m);
    if m >= 10 {
      assert NatToString(m) == NatToString(m / 10) + [DigitChar(m % 10)];
    } else {
      var p := Pad2(m);
      assert p[..1] == "0";
      assert ParseDigits(p[..1]) == 0 by {
        assert p[..1][..0] == [];
      }
    }
  }
}
