/** Small value types and the JavaScript string operations the rest of the model is built from. */
module Common {

  datatype Option<+T> = None | Some(value: T)

  /** JavaScript's `Math.max` on two integers. */
  function Max(a: int, b: int): int
  {
    if a < b then b else a
  }

  function Min(a: int, b: int): int
  {
    if a < b then a else b
  }

  /** JavaScript's `Array.prototype.slice(0, end)`: a negative `end` counts from the back. */
  function Slice<T>(s: seq<T>, end: int): (r: seq<T>)
    ensures 0 <= end ==> r == s[..if end < |s| then end else |s|]
    ensures end < 0 ==> r == s[..Max(0, |s| + end)]
  {
    if end >= 0 then s[..if end < |s| then end else |s|]
    else s[..Max(0, |s| + end)]
  }

  /** The characters JavaScript's `\s` class and `String.prototype.trim` treat as white space. */
  predicate IsWhitespace(c: char)
  {
    c == '\t' || c == '\n' || c == '\U{000B}' || c == '\U{000C}' || c == '\r' || c == ' '
    || c == '\U{00A0}' || c == '\U{1680}' || ('\U{2000}' <= c <= '\U{200A}')
    || c == '\U{2028}' || c == '\U{2029}' || c == '\U{202F}' || c == '\U{205F}'
    || c == '\U{3000}' || c == '\U{FEFF}'
  }

  predicate IsLowerLetter(c: char)
  {
    'a' <= c <= 'z'
  }

  predicate StartsWith(s: string, prefix: string)
  {
    |prefix| <= |s| && s[..|prefix|] == prefix
  }

  /** Number of occurrences of `c` in `s`. */
  function Count(s: string, c: char): (n: nat)
    ensures n <= |s|
    ensures n == 0 <==> c !in s
  {
    if s == [] then 0 else (if s[0] == c then 1 else 0) + Count(s[1..], c)
  }

  lemma {:induction false} CountAppend(a: string, b: string, c: char)
    ensures Count(a + b, c) == Count(a, c) + Count(b, c)
  {
    if a == [] {
      assert a + b == b;
    } else {
      assert (a + b)[1..] == a[1..] + b;
      CountAppend(a[1..], b, c);
    }
  }

  /** `Array.prototype.join`. */
  function Join(parts: seq<string>, sep: string): (r: string)
    ensures |parts| == 0 ==> r == ""
    ensures |parts| == 1 ==> r == parts[0]
  {
    if |parts| == 0 then ""
    else if |parts| == 1 then parts[0]
    else parts[0] + sep + Join(parts[1..], sep)
  }

  function DigitChar(d: nat): char
    requires d < 10
  {
    "0123456789"[d]
  }

  /** Decimal rendering of a non-negative integer, as a template literal prints it. */
  function NatToString(n: nat): (s: string)
    ensures |s| >= 1
    ensures forall i :: 0 <= i < |s| ==> '0' <= s[i] <= '9'
    ensures n >= 10 ==> s[0] != '0'
  {
    if n < 10 then [DigitChar(n)] else NatToString(n / 10) + [DigitChar(n % 10)]
  }

  /** The value of a string of decimal digits. */
  function DigitsValue(s: string): nat
    requires forall i :: 0 <= i < |s| ==> '0' <= s[i] <= '9'
  {
    if s == [] then 0 else 10 * DigitsValue(s[..|s| - 1]) + (s[|s| - 1] as int - '0' as int)
  }

  lemma {:induction false} NatToStringRoundTrip(n: nat)
    ensures DigitsValue(NatToString(n)) == n
  {
    var s := NatToString(n);
    if n < 10 {
      assert s == [DigitChar(n)];
    } else {
      assert s == NatToString(n / 10) + [DigitChar(n % 10)];
      assert s[..|s| - 1] == NatToString(n / 10);
      assert s[|s| - 1] as int - '0' as int == n % 10;
      NatToStringRoundTrip(n / 10);
    }
  }

  /** `s.replace(new RegExp(pattern, 'g'), replacement)` for a literal, non-empty pattern:
      matches are taken left to right and never overlap. */
  function ReplaceAll(s: string, pattern: string, replacement: string): string
    requires |pattern| > 0
    decreases |s|
  {
    if |s| < |pattern| then s
    else if s[..|pattern|] == pattern then replacement + ReplaceAll(s[|pattern|..], pattern, replacement)
    else [s[0]] + ReplaceAll(s[1..], pattern, replacement)
  }

  /** A pattern that cannot occur leaves the string alone. */
  lemma {:induction false} ReplaceAllAbsent(s: string, pattern: string, replacement: string, c: char)
    requires |pattern| > 0 && c in pattern && c !in s
    ensures ReplaceAll(s, pattern, replacement) == s
    decreases |s|
  {
    if |s| >= |pattern| {
      if s[..|pattern|] == pattern {
        assert false;
      } else {
        ReplaceAllAbsent(s[1..], pattern, replacement, c);
        assert s == [s[0]] + s[1..];
      }
    }
  }

  /** `s.replace(pattern, replacement)` with a string pattern: only the first match is replaced. */
  function ReplaceFirst(s: string, pattern: string, replacement: string): string
    requires |pattern| > 0
    decreases |s|
  {
    if |s| < |pattern| then s
    else if s[..|pattern|] == pattern then replacement + s[|pattern|..]
    else [s[0]] + ReplaceFirst(s[1..], pattern, replacement)
  }

  /** `pattern` occurs in `s` at index `k`. */
  predicate MatchAt(s: string, pattern: string, k: nat)
  {
    k + |pattern| <= |s| && s[k..k + |pattern|] == pattern
  }

  lemma MatchShift(s: string, pattern: string, j: nat)
    requires s != []
    ensures MatchAt(s[1..], pattern, j) <==> MatchAt(s, pattern, j + 1)
  {
    if j + 1 + |pattern| <= |s| {
      assert s[1..][j..j + |pattern|] == s[j + 1..j + 1 + |pattern|];
    }
  }

  /** Before the first occurrence, `ReplaceFirst` copies one character and goes on. */
  lemma ReplaceFirstSkip(s: string, pattern: string, replacement: string)
    requires |pattern| > 0 && s != [] && !MatchAt(s, pattern, 0)
    ensures ReplaceFirst(s, pattern, replacement) == [s[0]] + ReplaceFirst(s[1..], pattern, replacement)
  {
    if |s| >= |pattern| {
      assert s[..|pattern|] == s[0..|pattern|];
    }
  }

  lemma SplitAround(s: string, k: nat, n: nat, middle: string)
    requires 0 < k && k + n <= |s|
    ensures [s[0]] + (s[1..][..k - 1] + middle + s[1..][k - 1 + n..]) == s[..k] + middle + s[k + n..]
  {
    assert s[1..][k - 1 + n..] == s[k + n..];
    assert [s[0]] + s[1..][..k - 1] == s[..k];
  }

  /** Only the first occurrence is replaced; everything after it is kept as it is. */
  lemma {:induction false} ReplaceFirstAt(s: string, pattern: string, replacement: string, k: nat)
    requires |pattern| > 0 && MatchAt(s, pattern, k)
    requires forall j :: 0 <= j < k ==> !MatchAt(s, pattern, j)
    ensures ReplaceFirst(s, pattern, replacement) == s[..k] + replacement + s[k + |pattern|..]
    decreases k
  {
    if k == 0 {
      assert s[..|pattern|] == s[0..|pattern|];
    } else {
      ReplaceFirstSkip(s, pattern, replacement);
      forall j | 0 <= j < k - 1 ensures !MatchAt(s[1..], pattern, j) {
        MatchShift(s, pattern, j);
      }
      MatchShift(s, pattern, k - 1);
      ReplaceFirstAt(s[1..], pattern, replacement, k - 1);
      SplitAround(s, k, |pattern|, replacement);
    }
  }

  /** Without an occurrence, nothing is replaced. */
  lemma {:induction false} ReplaceFirstNone(s: string, pattern: string, replacement: string)
    requires |pattern| > 0
    requires forall j :: 0 <= j <= |s| ==> !MatchAt(s, pattern, j)
    ensures ReplaceFirst(s, pattern, replacement) == s
    decreases |s|
  {
    if |s| >= |pattern| {
      assert !MatchAt(s, pattern, 0);
      assert s[..|pattern|] == s[0..|pattern|];
      forall j | 0 <= j <= |s| - 1 ensures !MatchAt(s[1..], pattern, j) {
        MatchShift(s, pattern, j);
      }
      ReplaceFirstNone(s[1..], pattern, replacement);
      assert s == [s[0]] + s[1..];
    }
  }

  /** A character in neither the pattern nor the replacement is in the result iff it is in `s`. */
  lemma {:induction false} ReplaceFirstKeeps(s: string, pattern: string, replacement: string, c: char)
    requires |pattern| > 0 && c !in pattern && c !in replacement
    ensures c in ReplaceFirst(s, pattern, replacement) <==> c in s
    decreases |s|
  {
    if |s| >= |pattern| {
      if s[..|pattern|] == pattern {
        assert s == s[..|pattern|] + s[|pattern|..];
      } else {
        ReplaceFirstKeeps(s[1..], pattern, replacement, c);
        assert s == [s[0]] + s[1..];
      }
    }
  }

  /** `s.replace(new RegExp(c, 'g'), r)` for a single character `c` with no special meaning. */
  function ReplaceChar(s: string, c: char, r: string): string
  {
    if s == [] then [] else (if s[0] == c then r else [s[0]]) + ReplaceChar(s[1..], c, r)
  }

  lemma {:induction false} ReplaceCharAppend(a: string, b: string, c: char, r: string)
    ensures ReplaceChar(a + b, c, r) == ReplaceChar(a, c, r) + ReplaceChar(b, c, r)
  {
    if a != [] {
      assert (a + b)[1..] == a[1..] + b;
      ReplaceCharAppend(a[1..], b, c, r);
    } else {
      assert a + b == b;
    }
  }

  /** `String.prototype.split` on one separator character. */
  function Split(s: string, sep: char): (r: seq<string>)
    ensures |r| >= 1
    ensures forall i :: 0 <= i < |r| ==> sep !in r[i]
    decreases |s|
  {
    if sep !in s then [s]
    else
      var k := IndexOf(s, sep);
      [s[..k]] + Split(s[k + 1..], sep)
  }

  /** Index of the first occurrence of `c`. */
  function IndexOf(s: string, c: char): (k: nat)
    requires c in s
    ensures k < |s| && s[k] == c && c !in s[..k]
  {
    if s[0] == c then 0 else 1 + IndexOf(s[1..], c)
  }

  /** `String.prototype.trim`. */
  function Trim(s: string): string
  {
    TrimEnd(TrimStart(s))
  }

  function TrimStart(s: string): string
  {
    if s != [] && IsWhitespace(s[0]) then TrimStart(s[1..]) else s
  }

  function TrimEnd(s: string): string
  {
    if s != [] && IsWhitespace(s[|s| - 1]) then TrimEnd(s[..|s| - 1]) else s
  }

  /** `TrimStart` drops a white-space prefix and stops at the first other character. */
  lemma {:induction false} TrimStartDrops(s: string)
    ensures var r := TrimStart(s);
            && |r| <= |s| && r == s[|s| - |r|..]
            && (forall i :: 0 <= i < |s| - |r| ==> IsWhitespace(s[i]))
            && (r == [] || !IsWhitespace(r[0]))
  {
    if s != [] && IsWhitespace(s[0]) {
      TrimStartDrops(s[1..]);
    }
  }

  /** `TrimEnd` drops a white-space suffix and stops at the last other character. */
  lemma {:induction false} TrimEndDrops(s: string)
    ensures var r := TrimEnd(s);
            && |r| <= |s| && r == s[..|r|]
            && (forall i :: |r| <= i < |s| ==> IsWhitespace(s[i]))
            && (r == [] || !IsWhitespace(r[|r| - 1]))
  {
    if s != [] && IsWhitespace(s[|s| - 1]) {
      TrimEndDrops(s[..|s| - 1]);
    }
  }

  /** `' '.repeat(n)`. */
  function Spaces(n: nat): (r: string)
    ensures |r| == n && forall i :: 0 <= i < n ==> r[i] == ' '
  {
    if n == 0 then "" else " " + Spaces(n - 1)
  }

  /** Trimming removes only white space, so any other character survives it. */
  lemma TrimKeeps(s: string, c: char)
    requires !IsWhitespace(c)
    ensures c in Trim(s) <==> c in s
  {
    var t := TrimStart(s);
    TrimStartDrops(s);
    TrimEndDrops(t);
    if c in s {
      var i :| 0 <= i < |s| && s[i] == c;
      assert t[i - (|s| - |t|)] == c;
      var u := TrimEnd(t);
      assert u[i - (|s| - |t|)] == c;
    }
  }
}
