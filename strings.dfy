/**
 * The JavaScript string operations the application relies on, each with the
 * property the application needs from it: `split` on a one-character separator
 * (with `join` as its inverse), `trim`, `replace` with a one-character pattern
 * (which replaces the first occurrence only), and the decimal rendering of a
 * number inside a template literal.
 *
 * Strings are sequences of UTF-16 code units in JavaScript; here they are
 * sequences of `char`, and lengths and indices count those.
 */
module Strings {

  predicate EndsWith(s: string, suffix: string)
  {
    |suffix| <= |s| && s[|s| - |suffix|..] == suffix
  }

  /** A string ending with `x + y` ends with `y`, and what precedes that `y` ends with `x`. */
  lemma EndsWithSplit(s: string, x: string, y: string)
    requires EndsWith(s, x + y)
    ensures EndsWith(s, y)
    ensures EndsWith(s[..|s| - |y|], x)
  {
    var k := |s| - |x + y|;
    assert s[|s| - |y|..] == s[k..][|x|..] == (x + y)[|x|..];
    assert s[..|s| - |y|][k..] == s[k..][..|x|] == (x + y)[..|x|];
  }

  /** Number of occurrences of `c` in `s`. */
  function Occurrences(s: string, c: char): nat
  {
    if |s| == 0 then 0 else (if s[0] == c then 1 else 0) + Occurrences(s[1..], c)
  }

  // ---------------------------------------------------------------------------
  // split / join

  /** `s.split(sep)`: the maximal separator-free pieces of `s`, in order. */
  function Split(s: string, sep: char): (parts: seq<string>)
    ensures |parts| == Occurrences(s, sep) + 1
    ensures forall i :: 0 <= i < |parts| ==> sep !in parts[i]
    decreases |s|
  {
    if |s| == 0 then [""]
    else
      var rest := Split(s[1..], sep);
      if s[0] == sep then [""] + rest
      else [[s[0]] + rest[0]] + rest[1..]
  }

  /** `parts.join(sep)`. */
  function Join(parts: seq<string>, sep: char): string
    requires |parts| >= 1
    decreases |parts|
  {
    if |parts| == 1 then parts[0] else parts[0] + [sep] + Join(parts[1..], sep)
  }

  /** Splitting loses nothing: joining the pieces gives the string back. */
  lemma {:induction false} JoinSplit(s: string, sep: char)
    ensures Join(Split(s, sep), sep) == s
    decreases |s|
  {
    if |s| > 0 {
      var rest := Split(s[1..], sep);
      JoinSplit(s[1..], sep);
      var parts := Split(s, sep);
      if s[0] == sep {
        assert parts[1..] == rest;
      } else {
        assert parts[1..] == rest[1..];
        if |rest| > 1 {
          assert Join(rest, sep) == rest[0] + [sep] + Join(rest[1..], sep);
        }
      }
      assert s == [s[0]] + s[1..];
    }
  }

  lemma {:induction false} SplitSeparatorFree(p: string, sep: char)
    requires sep !in p
    ensures Split(p, sep) == [p]
    decreases |p|
  {
    if |p| > 0 {
      SplitSeparatorFree(p[1..], sep);
      assert [p[0]] + p[1..] == p;
    }
  }

  lemma {:induction false} SplitPiece(p: string, sep: char, t: string)
    requires sep !in p
    ensures Split(p + [sep] + t, sep) == [p] + Split(t, sep)
    decreases |p|
  {
    var s := p + [sep] + t;
    if |p| == 0 {
      assert s == [sep] + t && s[1..] == t;
    } else {
      SplitPiece(p[1..], sep, t);
      assert s[0] == p[0] && s[1..] == p[1..] + [sep] + t;
      assert [p[0]] + p[1..] == p;
    }
  }

  /** Joining separator-free pieces and splitting again gives the pieces back. */
  lemma {:induction false} SplitJoin(parts: seq<string>, sep: char)
    requires |parts| >= 1
    requires forall i :: 0 <= i < |parts| ==> sep !in parts[i]
    ensures Split(Join(parts, sep), sep) == parts
    decreases |parts|
  {
    if |parts| == 1 {
      SplitSeparatorFree(parts[0], sep);
    } else {
      SplitJoin(parts[1..], sep);
      SplitPiece(parts[0], sep, Join(parts[1..], sep));
      assert [parts[0]] + parts[1..] == parts;
    }
  }

  /** The last piece is attached to the join of the others by one separator. */
  lemma {:induction false} JoinLast(parts: seq<string>, sep: char)
    requires |parts| >= 2
    ensures Join(parts, sep) == Join(parts[..|parts| - 1], sep) + [sep] + parts[|parts| - 1]
    decreases |parts|
  {
    if |parts| > 2 {
      JoinLast(parts[1..], sep);
      assert parts[1..][..|parts| - 2] == parts[..|parts| - 1][1..];
    }
  }

  // ---------------------------------------------------------------------------
  // trim

  /**
   * The characters `String.prototype.trim` removes: the ECMAScript WhiteSpace
   * characters (tab, vertical tab, form feed, space, no-break space, byte order
   * mark and the Unicode space separators) and the line terminators.
   */
  predicate IsWhitespace(c: char)
  {
    || c == '\t' || c == '\n' || c == '\U{000B}' || c == '\U{000C}' || c == '\r'
    || c == ' ' || c == '\U{00A0}' || c == '\U{1680}'
    || ('\U{2000}' <= c <= '\U{200A}')
    || c == '\U{2028}' || c == '\U{2029}' || c == '\U{202F}' || c == '\U{205F}'
    || c == '\U{3000}' || c == '\U{FEFF}'
  }

  /** Drops the leading whitespace: the result is a suffix of `s` that starts with a non-whitespace character. */
  function TrimStart(s: string): (r: string)
    ensures |r| <= |s| && r == s[|s| - |r|..]
    ensures forall i :: 0 <= i < |s| - |r| ==> IsWhitespace(s[i])
    ensures |r| > 0 ==> !IsWhitespace(r[0])
  {
    if |s| > 0 && IsWhitespace(s[0]) then TrimStart(s[1..]) else s
  }

  /** Drops the trailing whitespace: the result is a prefix of `s` that ends with a non-whitespace character. */
  function TrimEnd(s: string): (r: string)
    ensures |r| <= |s| && r == s[..|r|]
    ensures forall i :: |r| <= i < |s| ==> IsWhitespace(s[i])
    ensures |r| > 0 ==> !IsWhitespace(r[|r| - 1])
  {
    if |s| > 0 && IsWhitespace(s[|s| - 1]) then TrimEnd(s[..|s| - 1]) else s
  }

  /** `r` is the slice of `s` at `i`, with nothing but whitespace around it. */
  predicate TrimmedAt(s: string, r: string, i: nat)
  {
    && i + |r| <= |s|
    && r == s[i..i + |r|]
    && (forall k :: 0 <= k < i ==> IsWhitespace(s[k]))
    && (forall k :: i + |r| <= k < |s| ==> IsWhitespace(s[k]))
  }

  /** `s.trim()`: empty exactly when `s` holds whitespace only, and otherwise neither starts nor ends with whitespace. */
  function Trim(s: string): (r: string)
    ensures r == "" <==> forall i :: 0 <= i < |s| ==> IsWhitespace(s[i])
    ensures r != "" ==> !IsWhitespace(r[0]) && !IsWhitespace(r[|r| - 1])
  {
    TrimStartEmpty(s);
    TrimEnd(TrimStart(s))
  }

  /** `s.trim()` is a slice of `s` with nothing but whitespace before and after it. */
  lemma TrimIsSlice(s: string)
    ensures exists i: nat :: TrimmedAt(s, Trim(s), i)
  {
    var start := TrimStart(s);
    assert Trim(s) == TrimEnd(start);
    TrimSlice(s, start, Trim(s));
    assert TrimmedAt(s, Trim(s), |s| - |start|);
  }

  /**
   * A suffix `start` of `s` after whitespace, cut to a prefix `r` before
   * whitespace, is the slice of `s` starting where that whitespace ends.
   */
  lemma TrimSlice(s: string, start: string, r: string)
    requires |start| <= |s| && start == s[|s| - |start|..]
    requires forall k :: 0 <= k < |s| - |start| ==> IsWhitespace(s[k])
    requires |r| <= |start| && r == start[..|r|]
    requires forall k :: |r| <= k < |start| ==> IsWhitespace(start[k])
    ensures TrimmedAt(s, r, |s| - |start|)
  {
    var i := |s| - |start|;
    forall k | i + |r| <= k < |s| ensures IsWhitespace(s[k]) {
      assert s[k] == start[k - i];
    }
  }

  /** Leading whitespace removal leaves nothing exactly when there is nothing but whitespace. */
  lemma TrimStartEmpty(s: string)
    ensures TrimStart(s) == "" <==> forall i :: 0 <= i < |s| ==> IsWhitespace(s[i])
  {
    var t := TrimStart(s);
    if t != "" {
      assert !IsWhitespace(s[|s| - |t|]);
    }
  }

  // ---------------------------------------------------------------------------
  // replace

  /**
   * `s.replace(from, to)` with a one-character string pattern: the character at
   * the first occurrence of `from` becomes `to`; a string without `from` is
   * returned unchanged.
   */
  function ReplaceFirst(s: string, from: char, to: char): (r: string)
    ensures |r| == |s|
    ensures from !in s ==> r == s
  {
    seq(|s|, i requires 0 <= i < |s| => if s[i] == from && from !in s[..i] then to else s[i])
  }

  /** When `from` first occurs right after `p`, that occurrence, and only it, becomes `to`. */
  lemma ReplaceFirstAt(p: string, from: char, to: char, q: string)
    requires from !in p
    ensures ReplaceFirst(p + [from] + q, from, to) == p + [to] + q
  {
    var s := p + [from] + q;
    var r := ReplaceFirst(s, from, to);
    forall i | 0 <= i < |s|
      ensures r[i] == (p + [to] + q)[i]
    {
      if i < |p| {
        assert s[..i] == p[..i];
      } else if i > |p| {
        assert s[..i][|p|] == from;
      }
    }
  }

  // ---------------------------------------------------------------------------
  // decimal rendering of natural numbers

  function DigitChar(d: nat): (c: char)
    requires d < 10
    ensures '0' <= c <= '9'
  {
    ('0' as int + d) as char
  }

  function DigitValue(c: char): nat
    requires '0' <= c <= '9'
  {
    c as int - '0' as int
  }

  /** `${n}` for a natural number `n`: its decimal digits, with no leading zero except for `0` itself. */
  function NatToDecimal(n: nat): (s: string)
    ensures |s| >= 1
    ensures forall i :: 0 <= i < |s| ==> '0' <= s[i] <= '9'
    ensures s[0] == '0' ==> n == 0
    decreases n
  {
    if n < 10 then [DigitChar(n)] else NatToDecimal(n / 10) + [DigitChar(n % 10)]
  }

  /** The number a string of decimal digits denotes. */
  function DecimalValue(s: string): nat
    requires forall i :: 0 <= i < |s| ==> '0' <= s[i] <= '9'
  {
    if |s| == 0 then 0 else 10 * DecimalValue(s[..|s| - 1]) + DigitValue(s[|s| - 1])
  }

  /** Reading back the decimal rendering of `n` gives `n`. */
  lemma {:induction false} DecimalRoundTrip(n: nat)
    ensures DecimalValue(NatToDecimal(n)) == n
    decreases n
  {
    if n >= 10 {
      DecimalRoundTrip(n / 10);
      var s := NatToDecimal(n);
      assert s[..|s| - 1] == NatToDecimal(n / 10);
    }
  }

  /** A digit string denoting zero holds zeros only. */
  lemma {:induction false} DecimalValueZero(s: string)
    requires forall i :: 0 <= i < |s| ==> '0' <= s[i] <= '9'
    requires DecimalValue(s) == 0
    ensures forall i :: 0 <= i < |s| ==> s[i] == '0'
  {
    if |s| > 0 {
      var p := s[..|s| - 1];
      DecimalValueZero(p);
      forall i | 0 <= i < |s| ensures s[i] == '0' {
        if i < |s| - 1 {
          assert s[i] == p[i];
        }
      }
    }
  }

  /**
   * The rendering is the only digit string without a leading zero (other than
   * `0` itself) that denotes `n`.
   */
  lemma {:induction false} DecimalUnique(s: string, n: nat)
    requires |s| >= 1 && forall i :: 0 <= i < |s| ==> '0' <= s[i] <= '9'
    requires s[0] == '0' ==> |s| == 1
    requires DecimalValue(s) == n
    ensures s == NatToDecimal(n)
    decreases |s|
  {
    var p := s[..|s| - 1];
    if |s| == 1 {
      assert DecimalValue(p) == 0;
      assert n == DigitValue(s[0]) < 10;
      assert s == [DigitChar(n)];
    } else {
      assert p[0] == s[0];
      if DecimalValue(p) == 0 {
        DecimalValueZero(p);
        assert false;
      }
      assert n / 10 == DecimalValue(p) && n % 10 == DigitValue(s[|s| - 1]);
      DecimalUnique(p, n / 10);
      assert s == p + [s[|s| - 1]];
    }
  }

  /** Different numbers have different decimal renderings. */
  lemma NatToDecimalInjective(a: nat, b: nat)
    ensures NatToDecimal(a) == NatToDecimal(b) ==> a == b
  {
    DecimalRoundTrip(a);
    DecimalRoundTrip(b);
  }
}
