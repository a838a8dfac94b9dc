/** The few string operations of Python 2's byte strings that the seed-list
    loaders and the path formatting rely on: `str.split`, `str.strip`,
    `str.lower`, `re.sub(' ', '_', ...)` and `'%d' % x`. */
module Strings {

  /** Python's `str.split(sep)` with an explicit separator: the pieces between
      separators, including empty ones, so that `"".split(',') == [""]`. */
  function Split(s: string, sep: char): (r: seq<string>)
    ensures |r| == Count(s, sep) + 1
  {
    if s == [] then [[]]
    else if s[0] == sep then [[]] + Split(s[1..], sep)
    else
      var rest := Split(s[1..], sep);
      [[s[0]] + rest[0]] + rest[1..]
  }

  /** No piece of a split holds the separator. */
  lemma {:induction false} SplitPieces(s: string, sep: char)
    ensures forall k :: 0 <= k < |Split(s, sep)| ==> sep !in Split(s, sep)[k]
  {
    if s != [] {
      SplitPieces(s[1..], sep);
      if s[0] != sep {
        var rest := Split(s[1..], sep);
        assert sep !in rest[0];
        assert sep !in [s[0]] + rest[0];
      }
    }
  }

  /** Number of occurrences of `c` in `s`. */
  function Count(s: string, c: char): nat
  {
    if s == [] then 0 else (if s[0] == c then 1 else 0) + Count(s[1..], c)
  }

  /** `sep.join(parts)`, the inverse of `Split`. */
  function JoinWith(parts: seq<string>, sep: char): string
  {
    if parts == [] then []
    else if |parts| == 1 then parts[0]
    else parts[0] + [sep] + JoinWith(parts[1..], sep)
  }

  /** Splitting and joining again gives back the line: no character of the
      line is lost by `split`. */
  lemma {:induction false} JoinSplit(s: string, sep: char)
    ensures JoinWith(Split(s, sep), sep) == s
  {
    if s == [] {
    } else if s[0] == sep {
      JoinSplit(s[1..], sep);
      var rest := Split(s[1..], sep);
      assert Split(s, sep) == [[]] + rest;
      assert JoinWith([[]] + rest, sep) == [] + [sep] + JoinWith(rest, sep);
    } else {
      JoinSplit(s[1..], sep);
      var rest := Split(s[1..], sep);
      var parts := [[s[0]] + rest[0]] + rest[1..];
      assert Split(s, sep) == parts;
      if |rest| == 1 {
        assert JoinWith(parts, sep) == [s[0]] + rest[0];
        assert s == [s[0]] + s[1..];
      } else {
        assert parts[1..] == rest[1..];
        assert JoinWith(rest, sep) == rest[0] + [sep] + JoinWith(rest[1..], sep);
        assert JoinWith(parts, sep) == [s[0]] + rest[0] + [sep] + JoinWith(rest[1..], sep);
        assert s == [s[0]] + s[1..];
      }
    }
  }

  /** Joining pieces that contain no separator and splitting again gives the
      pieces back: `Split` and `JoinWith` are mutually inverse. */
  lemma {:induction false} SplitJoin(parts: seq<string>, sep: char)
    requires |parts| >= 1
    requires forall k :: 0 <= k < |parts| ==> sep !in parts[k]
    ensures Split(JoinWith(parts, sep), sep) == parts
  {
    if |parts| == 1 {
      SplitNoSep(parts[0], sep);
    } else {
      SplitJoin(parts[1..], sep);
      SplitPrefix(parts[0], JoinWith(parts[1..], sep), sep);
      assert JoinWith(parts, sep) == parts[0] + [sep] + JoinWith(parts[1..], sep);
      assert parts == [parts[0]] + parts[1..];
    }
  }

  /** A string without the separator splits into itself alone. */
  lemma {:induction false} SplitNoSep(s: string, sep: char)
    requires sep !in s
    ensures Split(s, sep) == [s]
  {
    if s != [] {
      SplitNoSep(s[1..], sep);
      assert s == [s[0]] + s[1..];
    }
  }

  /** Splitting `a + [sep] + b`, where `a` holds no separator, puts `a` first. */
  lemma SplitPrefix(a: string, b: string, sep: char)
    requires sep !in a
    ensures Split(a + [sep] + b, sep) == [a] + Split(b, sep)
  {
    SplitConcat(a, b, sep);
    SplitNoSep(a, sep);
  }

  /** A separator between two strings separates their pieces. */
  lemma {:induction false} SplitConcat(a: string, b: string, sep: char)
    ensures Split(a + [sep] + b, sep) == Split(a, sep) + Split(b, sep)
  {
    if a == [] {
      assert a + [sep] + b == [sep] + b;
      assert ([sep] + b)[1..] == b;
    } else {
      SplitConcat(a[1..], b, sep);
      assert (a + [sep] + b)[1..] == a[1..] + [sep] + b;
      SplitConcatStep(a, a + [sep] + b, Split(a[1..], sep), Split(b, sep), sep);
    }
  }

  /** The step of `SplitConcat`: the first character of `a` goes the same
      way in `a` and in `x`, whose tail splits into the tail of `a`'s pieces
      followed by `b`'s pieces `rb`. */
  lemma SplitConcatStep(a: string, x: string, ra: seq<string>, rb: seq<string>, sep: char)
    requires a != [] && x != [] && x[0] == a[0]
    requires ra == Split(a[1..], sep)
    requires Split(x[1..], sep) == ra + rb
    ensures Split(x, sep) == Split(a, sep) + rb
  {
    if a[0] == sep {
      SplitAtSep(a, sep);
      SplitAtSep(x, sep);
      PrependAssoc([], ra, rb);
    } else {
      SplitAtOther(a, sep);
      SplitAtOther(x, sep);
      ConsAppend(a[0], ra, rb);
    }
  }

  /** Regrouping a concatenation that starts with one element. */
  lemma PrependAssoc<T>(x: T, ra: seq<T>, rb: seq<T>)
    ensures [x] + (ra + rb) == [x] + ra + rb
  {
  }

  /** Extending the pieces `ra` by `rb` extends the first piece's join with a
      leading character the same way. */
  lemma ConsAppend(c: char, ra: seq<string>, rb: seq<string>)
    requires ra != []
    ensures [[c] + (ra + rb)[0]] + (ra + rb)[1..] == [[c] + ra[0]] + ra[1..] + rb
  {
    assert (ra + rb)[0] == ra[0];
    assert (ra + rb)[1..] == ra[1..] + rb;
  }

  lemma SplitAtSep(s: string, sep: char)
    requires s != [] && s[0] == sep
    ensures Split(s, sep) == [[]] + Split(s[1..], sep)
  {
  }

  lemma SplitAtOther(s: string, sep: char)
    requires s != [] && s[0] != sep
    ensures Split(s, sep) == [[s[0]] + Split(s[1..], sep)[0]] + Split(s[1..], sep)[1..]
  {
  }

  /** The characters Python 2's `str.strip()` removes by default. */
  predicate IsSpace(c: char)
  {
    c == ' ' || c == '\t' || c == '\n' || c == '\r' || c == '\U{000B}' || c == '\U{000C}'
  }

  /** `str.lstrip()`: the longest suffix that does not start with white space. */
  function TrimLeft(s: string): (r: string)
    ensures |r| <= |s| && r == s[|s| - |r|..]
    ensures r == [] || !IsSpace(r[0])
    ensures forall k :: 0 <= k < |s| - |r| ==> IsSpace(s[k])
  {
    if s != [] && IsSpace(s[0]) then TrimLeft(s[1..]) else s
  }

  /** `str.rstrip()`: the longest prefix that does not end with white space. */
  function TrimRight(s: string): (r: string)
    ensures |r| <= |s| && r == s[..|r|]
    ensures r == [] || !IsSpace(r[|r| - 1])
    ensures forall k :: |r| <= k < |s| ==> IsSpace(s[k])
  {
    if s != [] && IsSpace(s[|s| - 1]) then TrimRight(s[..|s| - 1]) else s
  }

  /** `str.strip()`: the line with its leading and trailing white space removed
      and everything in between kept. */
  function Strip(s: string): (r: string)
    ensures r == [] || (!IsSpace(r[0]) && !IsSpace(r[|r| - 1]))
    ensures StripStart(s) + |r| <= |s| && r == s[StripStart(s)..StripStart(s) + |r|]
    ensures forall k :: 0 <= k < StripStart(s) ==> IsSpace(s[k])
    ensures forall k :: StripStart(s) + |r| <= k < |s| ==> IsSpace(s[k])
  {
    var l := TrimLeft(s);
    var r := TrimRight(l);
    assert r == s[|s| - |l|..][..|r|];
    r
  }

  /** Where the stripped text starts in the line. */
  function StripStart(s: string): nat
  {
    |s| - |TrimLeft(s)|
  }

  predicate IsUpper(c: char)
  {
    'A' <= c <= 'Z'
  }

  /** `str.lower()` on a byte string: only the ASCII letters A-Z change. */
  function LowerChar(c: char): (r: char)
    ensures !IsUpper(r)
    ensures IsUpper(c) ==> r as int == c as int + 32
    ensures !IsUpper(c) ==> r == c
  {
    if IsUpper(c) then (c as int + 32) as char else c
  }

  function Lower(s: string): (r: string)
    ensures |r| == |s|
    ensures forall k :: 0 <= k < |s| ==> r[k] == LowerChar(s[k])
  {
    seq(|s|, k requires 0 <= k < |s| => LowerChar(s[k]))
  }

  /** `re.sub(old, new, s)` for a one-character pattern that is not a regular
      expression metacharacter: every occurrence is replaced. */
  function ReplaceChar(s: string, from: char, to: char): (r: string)
    ensures |r| == |s|
    ensures forall k :: 0 <= k < |s| ==> r[k] == if s[k] == from then to else s[k]
  {
    seq(|s|, k requires 0 <= k < |s| => if s[k] == from then to else s[k])
  }

  /** The seed-name normalisation of the newer loaders: spaces become `_`,
      then the name is lower-cased. */
  function Normalize(name: string): (r: string)
    ensures |r| == |name|
    ensures ' ' !in r
    ensures forall k :: 0 <= k < |r| ==> !IsUpper(r[k])
  {
    Lower(ReplaceChar(name, ' ', '_'))
  }

  /** The identity of a character after normalisation. */
  function Fold(c: char): char
  {
    LowerChar(if c == ' ' then '_' else c)
  }

  /** Normalising twice is normalising once. */
  lemma NormalizeIdempotent(name: string)
    ensures Normalize(Normalize(name)) == Normalize(name)
  {
  }

  /** Two names denote the same seed exactly when they agree character by
      character up to case and up to spaces versus underscores. */
  lemma NormalizeSameIdentity(a: string, b: string)
    ensures Normalize(a) == Normalize(b) <==>
            |a| == |b| && forall k :: 0 <= k < |a| ==> Fold(a[k]) == Fold(b[k])
  {
    if Normalize(a) == Normalize(b) {
      forall k | 0 <= k < |a|
        ensures Fold(a[k]) == Fold(b[k])
      {
        assert Normalize(a)[k] == Normalize(b)[k];
      }
    }
  }

  /** A digit 0-9 as its character. */
  function DigitChar(d: nat): (c: char)
    requires d < 10
    ensures '0' <= c <= '9' && c as int - '0' as int == d
  {
    (d + '0' as int) as char
  }

  predicate IsDigit(c: char)
  {
    '0' <= c <= '9'
  }

  /** Decimal digits of a natural number, most significant first. */
  function NatToDecimal(n: nat): (r: string)
    ensures |r| >= 1
    ensures forall k :: 0 <= k < |r| ==> IsDigit(r[k])
    ensures |r| > 1 ==> r[0] != '0'
  {
    if n < 10 then [DigitChar(n)] else NatToDecimal(n / 10) + [DigitChar(n % 10)]
  }

  /** The value of a string of decimal digits, the partner of `NatToDecimal`. */
  function DecimalValue(s: string): nat
    requires forall k :: 0 <= k < |s| ==> IsDigit(s[k])
  {
    if s == [] then 0
    else
      assert IsDigit(s[|s| - 1]);
      10 * DecimalValue(s[..|s| - 1]) + (s[|s| - 1] as int - '0' as int)
  }

  /** Reading back the printed digits gives the number: `%d` loses nothing
      of an integer. */
  lemma {:induction false} DecimalRoundTrip(n: nat)
    ensures DecimalValue(NatToDecimal(n)) == n
  {
    if n >= 10 {
      DecimalRoundTrip(n / 10);
      var s := NatToDecimal(n);
      assert s[..|s| - 1] == NatToDecimal(n / 10);
    }
  }

  /** `'%d' % i` for an integer. */
  function IntToDecimal(i: int): (r: string)
    ensures |r| >= 1
    ensures (i < 0) == (r[0] == '-')
    ensures i < 0 ==> r[1..] == NatToDecimal(-i)
    ensures i >= 0 ==> r == NatToDecimal(i)
  {
    if i < 0 then "-" + NatToDecimal(-i) else NatToDecimal(i)
  }

  /** The integer `'%d'` prints for a float: truncation toward zero. */
  function TruncateReal(x: real): (t: int)
    ensures x >= 0.0 ==> t >= 0 && t as real <= x < t as real + 1.0
    ensures x < 0.0 ==> t <= 0 && t as real - 1.0 < x <= t as real
  {
    if x >= 0.0 then x.Floor else -((-x).Floor)
  }

  /** `'%d' % x` for a float: the decimal form of the truncated value. */
  function FormatD(x: real): (r: string)
    ensures r == IntToDecimal(TruncateReal(x))
    ensures forall k :: 0 <= k < |r| ==> IsDigit(r[k]) || (k == 0 && r[k] == '-')
  {
    IntToDecimal(TruncateReal(x))
  }
}
