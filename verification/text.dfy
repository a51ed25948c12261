/** Python string operations used by the quiz bot, over `string` = `seq<char>`.
    Whitespace follows `str.isspace()` (the characters `\s` matches); case
    mapping and decimal digits are ASCII only. */
module Text {

  datatype Option<+T> = None | Some(value: T)

  /** `c.isspace()` in Python: ASCII and Unicode whitespace. */
  predicate IsSpace(c: char) {
    || c == ' ' || c == '\t' || c == '\n' || c == '\r' || c == '\U{B}' || c == '\U{C}'
    || c == '\U{1C}' || c == '\U{1D}' || c == '\U{1E}' || c == '\U{1F}'
    || c == '\U{85}' || c == '\U{A0}' || c == '\U{1680}'
    || ('\U{2000}' <= c <= '\U{200A}')
    || c == '\U{2028}' || c == '\U{2029}' || c == '\U{202F}' || c == '\U{205F}' || c == '\U{3000}'
  }

  /** True of a string that `s.strip()` empties. */
  predicate IsBlank(s: string) {
    forall k :: 0 <= k < |s| ==> IsSpace(s[k])
  }

  /** `s.lstrip()`: drops leading whitespace. */
  function LStrip(s: string): (r: string)
    ensures |r| <= |s|
    ensures r == [] || !IsSpace(r[0])
    decreases |s|
  {
    if |s| > 0 && IsSpace(s[0]) then LStrip(s[1..]) else s
  }

  /** What `lstrip` keeps is a suffix of its input. */
  lemma {:induction false} LStripSuffix(s: string)
    ensures LStrip(s) == s[|s| - |LStrip(s)|..]
    decreases |s|
  {
    if |s| > 0 && IsSpace(s[0]) {
      LStripSuffix(s[1..]);
    }
  }

  /** What `lstrip` drops is whitespace. */
  lemma {:induction false} LStripDropsSpace(s: string)
    ensures IsBlank(s[..|s| - |LStrip(s)|])
    decreases |s|
  {
    if |s| > 0 && IsSpace(s[0]) {
      LStripDropsSpace(s[1..]);
      var n := |s| - |LStrip(s)|;
      assert forall k :: 1 <= k < n ==> s[k] == s[1..][..n - 1][k - 1];
    }
  }

  /** `s.rstrip()`: drops trailing whitespace. */
  function RStrip(s: string): (r: string)
    ensures |r| <= |s|
    ensures r == [] || !IsSpace(r[|r| - 1])
    decreases |s|
  {
    if |s| > 0 && IsSpace(s[|s| - 1]) then RStrip(s[..|s| - 1]) else s
  }

  /** What `rstrip` keeps is a prefix of its input. */
  lemma {:induction false} RStripPrefix(s: string)
    ensures RStrip(s) == s[..|RStrip(s)|]
    decreases |s|
  {
    if |s| > 0 && IsSpace(s[|s| - 1]) {
      RStripPrefix(s[..|s| - 1]);
    }
  }

  /** What `rstrip` drops is whitespace. */
  lemma {:induction false} RStripDropsSpace(s: string)
    ensures IsBlank(s[|RStrip(s)|..])
    decreases |s|
  {
    if |s| > 0 && IsSpace(s[|s| - 1]) {
      RStripDropsSpace(s[..|s| - 1]);
      var n := |RStrip(s)|;
      assert forall k :: n <= k < |s| - 1 ==> s[k] == s[..|s| - 1][n..][k - n];
    }
  }

  /** `s.strip()`. */
  function Strip(s: string): (r: string)
    ensures r != [] ==> !IsSpace(r[0]) && !IsSpace(r[|r| - 1])
    ensures |r| <= |s|
  {
    var l := LStrip(s);
    var r := RStrip(l);
    if r == [] then r
    else
      assert !IsSpace(r[0]) by {
        RStripPrefix(l);
        assert r[0] == l[0];
      }
      r
  }

  /** `strip` empties exactly the all-whitespace strings. */
  lemma StripEmpty(s: string)
    ensures Strip(s) == [] <==> IsBlank(s)
  {
    var l := LStrip(s);
    var r := RStrip(l);
    LStripDropsSpace(s);
    RStripDropsSpace(l);
    if r == [] {
      assert l[|r|..] == l;
      assert s[..|s| - |l|] == s;
    } else {
      LStripSuffix(s);
      RStripPrefix(l);
      assert r[0] == l[0] == s[|s| - |l|];
    }
  }

  /** `strip` keeps only characters of its input. */
  lemma StripSub(s: string)
    ensures forall c :: c in Strip(s) ==> c in s
  {
    var l := LStrip(s);
    var r := Strip(s);
    LStripSuffix(s);
    RStripPrefix(l);
    forall c | c in r
      ensures c in s
    {
      var k :| 0 <= k < |r| && r[k] == c;
      assert r[k] == l[k] == s[|s| - |l| + k];
    }
  }

  /** A string with no surrounding whitespace is its own strip. */
  lemma StripTrimmed(s: string)
    requires s != [] ==> !IsSpace(s[0]) && !IsSpace(s[|s| - 1])
    ensures Strip(s) == s
  {
    if s != [] {
      assert LStrip(s) == s;
      assert RStrip(s) == s;
    }
  }

  /** `.strip()` is idempotent. */
  lemma StripIdempotent(s: string)
    ensures Strip(Strip(s)) == Strip(s)
  {
    StripTrimmed(Strip(s));
  }

  /** Leading whitespace does not change what `lstrip` leaves. */
  lemma {:induction false} LStripSpaces(w: string, s: string)
    requires IsBlank(w)
    ensures LStrip(w + s) == LStrip(s)
    decreases |w|
  {
    if w == [] {
      assert w + s == s;
    } else {
      assert (w + s)[1..] == w[1..] + s;
      LStripSpaces(w[1..], s);
    }
  }

  /** Trailing whitespace does not change what `rstrip` leaves. */
  lemma {:induction false} RStripSpaces(s: string, w: string)
    requires IsBlank(w)
    ensures RStrip(s + w) == RStrip(s)
    decreases |w|
  {
    if w == [] {
      assert s + w == s;
    } else {
      assert (s + w)[..|s + w| - 1] == s + w[..|w| - 1];
      RStripSpaces(s, w[..|w| - 1]);
    }
  }

  /** Surrounding whitespace does not change what `strip` leaves. */
  lemma StripPadded(w1: string, s: string, w2: string)
    requires IsBlank(w1) && IsBlank(w2)
    ensures Strip(w1 + s + w2) == Strip(s)
  {
    assert w1 + s + w2 == w1 + (s + w2);
    LStripSpaces(w1, s + w2);
    if IsBlank(s) {
      assert IsBlank(s + w2);
      StripEmpty(s + w2);
      StripEmpty(s);
    } else {
      var l := LStrip(s);
      LStripPrefix(s, w2);
      RStripSpaces(l, w2);
    }
  }

  /** `lstrip` of a string that has a non-space character only looks at its prefix. */
  lemma {:induction false} LStripPrefix(s: string, t: string)
    requires !IsBlank(s)
    ensures LStrip(s + t) == LStrip(s) + t
    decreases |s|
  {
    if IsSpace(s[0]) {
      assert (s + t)[1..] == s[1..] + t;
      assert !IsBlank(s[1..]) by {
        var k :| 0 <= k < |s| && !IsSpace(s[k]);
        assert s[1..][k - 1] == s[k];
      }
      LStripPrefix(s[1..], t);
    }
  }

  predicate IsDigit(c: char) {
    '0' <= c <= '9'
  }

  predicate IsLower(c: char) {
    'a' <= c <= 'z'
  }

  predicate IsUpper(c: char) {
    'A' <= c <= 'Z'
  }

  /** ASCII `c.upper()`. */
  function Upper(c: char): (r: char)
    ensures IsUpper(r) <==> IsUpper(c) || IsLower(c)
    ensures !IsLower(c) ==> r == c
  {
    if IsLower(c) then (c as int - 32) as char else c
  }

  /** ASCII `c.lower()`. */
  function Lower(c: char): (r: char)
    ensures IsLower(r) <==> IsUpper(c) || IsLower(c)
    ensures !IsUpper(c) ==> r == c
  {
    if IsUpper(c) then (c as int + 32) as char else c
  }

  function UpperStr(s: string): (r: string)
    ensures |r| == |s| && forall k :: 0 <= k < |s| ==> r[k] == Upper(s[k])
  {
    if s == [] then [] else [Upper(s[0])] + UpperStr(s[1..])
  }

  function LowerStr(s: string): (r: string)
    ensures |r| == |s| && forall k :: 0 <= k < |s| ==> r[k] == Lower(s[k])
  {
    if s == [] then [] else [Lower(s[0])] + LowerStr(s[1..])
  }

  predicate StartsWith(s: string, prefix: string) {
    |prefix| <= |s| && s[..|prefix|] == prefix
  }

  /** `s.replace(c, "")`. */
  function RemoveChar(s: string, c: char): (r: string)
    ensures c !in r
    ensures |r| <= |s|
    ensures c !in s ==> r == s
  {
    if s == [] then []
    else (if s[0] == c then [] else [s[0]]) + RemoveChar(s[1..], c)
  }
  /** `replace` only removes characters. */
  lemma {:induction false} RemoveCharSub(s: string, c: char)
    ensures forall x :: x in RemoveChar(s, c) ==> x in s
  {
    if s != [] {
      RemoveCharSub(s[1..], c);
    }
  }


  /** `s.split(sep)` for a one-character separator: the pieces between separators. */
  function Split(s: string, sep: char): (r: seq<string>)
    ensures |r| >= 1
    ensures forall k :: 0 <= k < |r| ==> sep !in r[k]
  {
    if s == [] then [[]]
    else if s[0] == sep then [[]] + Split(s[1..], sep)
    else
      var rest := Split(s[1..], sep);
      [[s[0]] + rest[0]] + rest[1..]
  }

  /** A piece without the separator is kept whole, and the rest is split independently. */
  lemma {:induction false} SplitAppend(a: string, sep: char, b: string)
    requires sep !in a
    ensures Split(a + [sep] + b, sep) == [a] + Split(b, sep)
    decreases |a|
  {
    if a == [] {
      assert a + [sep] + b == [sep] + b;
      assert ([sep] + b)[1..] == b;
    } else {
      assert (a + [sep] + b)[1..] == a[1..] + [sep] + b;
      SplitAppend(a[1..], sep, b);
      assert [a[0]] + a[1..] == a;
    }
  }

  /** A string without the separator splits into itself. */
  lemma {:induction false} SplitNone(a: string, sep: char)
    requires sep !in a
    ensures Split(a, sep) == [a]
    decreases |a|
  {
    if a != [] {
      SplitNone(a[1..], sep);
      assert [a[0]] + a[1..] == a;
    }
  }

  /** `sep.join(parts)`. */
  function Join(sep: string, parts: seq<string>): string {
    if parts == [] then []
    else if |parts| == 1 then parts[0]
    else parts[0] + sep + Join(sep, parts[1..])
  }

  /** Line boundaries recognised by Python's `str.splitlines()`. */
  predicate IsLineBreak(c: char) {
    || c == '\n' || c == '\r' || c == '\U{B}' || c == '\U{C}'
    || c == '\U{1C}' || c == '\U{1D}' || c == '\U{1E}' || c == '\U{85}'
    || c == '\U{2028}' || c == '\U{2029}'
  }

  /** Index of the first line boundary at or after `i`, or `|s|`. */
  function NextBreak(s: string, i: nat): (j: nat)
    requires i <= |s|
    ensures i <= j <= |s|
    ensures forall k :: i <= k < j ==> !IsLineBreak(s[k])
    ensures j < |s| ==> IsLineBreak(s[j])
    decreases |s| - i
  {
    if i == |s| || IsLineBreak(s[i]) then i else NextBreak(s, i + 1)
  }

  /** `s.splitlines()`: "\r\n" is one boundary and a final boundary opens no empty line. */
  function SplitLines(s: string): (r: seq<string>)
    ensures forall k, m :: 0 <= k < |r| && 0 <= m < |r[k]| ==> !IsLineBreak(r[k][m])
    decreases |s|
  {
    if s == [] then []
    else
      var j := NextBreak(s, 0);
      if j == |s| then [s]
      else
        var w := if s[j] == '\r' && j + 1 < |s| && s[j + 1] == '\n' then 2 else 1;
        [s[..j]] + SplitLines(s[j + w..])
  }

  /** Every line of an all-whitespace text is all whitespace. */
  lemma {:induction false} SplitLinesBlank(s: string)
    requires IsBlank(s)
    ensures forall k :: 0 <= k < |SplitLines(s)| ==> IsBlank(SplitLines(s)[k])
    decreases |s|
  {
    if s != [] {
      var j := NextBreak(s, 0);
      if j < |s| {
        var w := if s[j] == '\r' && j + 1 < |s| && s[j + 1] == '\n' then 2 else 1;
        assert IsBlank(s[..j]);
        SplitLinesBlank(s[j + w..]);
      }
    }
  }

  function DigitChar(d: nat): (c: char)
    requires d < 10
    ensures IsDigit(c)
  {
    ('0' as int + d) as char
  }

  /** `str(n)` for a natural number: decimal digits, no leading zero. */
  function NatToString(n: nat): (r: string)
    ensures r != [] && forall k :: 0 <= k < |r| ==> IsDigit(r[k])
    decreases n
  {
    if n < 10 then [DigitChar(n)] else NatToString(n / 10) + [DigitChar(n % 10)]
  }

  /** `str(n)` for an integer. */
  function IntToString(n: int): (r: string)
    ensures r != [] && !IsSpace(r[0]) && !IsSpace(r[|r| - 1])
    ensures forall k :: 0 <= k < |r| ==> IsDigit(r[k]) || (k == 0 && r[k] == '-')
  {
    if n < 0 then "-" + NatToString(-n) else NatToString(n)
  }

  /** The value of a string of decimal digits. */
  function DigitsValue(s: string): nat
    requires forall k :: 0 <= k < |s| ==> IsDigit(s[k])
  {
    if s == [] then 0
    else
      assert IsDigit(s[|s| - 1]);
      DigitsValue(s[..|s| - 1]) * 10 + (s[|s| - 1] as int - '0' as int)
  }

  lemma {:induction false} NatToStringValue(n: nat)
    ensures DigitsValue(NatToString(n)) == n
    decreases n
  {
    if n >= 10 {
      var r := NatToString(n);
      assert r[..|r| - 1] == NatToString(n / 10);
      NatToStringValue(n / 10);
    }
  }

  /** The digit groups Python's `int()` accepts: digits with single underscores between them. */
  predicate IsDigitGroup(s: string) {
    && s != [] && IsDigit(s[0]) && IsDigit(s[|s| - 1])
    && forall k :: 0 <= k < |s| ==> GroupChar(s, k)
  }

  /** A digit, or an underscore with a digit after it. */
  predicate GroupChar(s: string, k: nat)
    requires k < |s|
  {
    IsDigit(s[k]) || (s[k] == '_' && k + 1 < |s| && IsDigit(s[k + 1]))
  }

  /** Python `int(s)` in base 10: surrounding whitespace, an optional sign, a digit group. */
  function ParseInt(s: string): (r: Option<int>)
    ensures r.Some? ==> Strip(s) != []
  {
    var t := Strip(s);
    if t == [] then None
    else
      var body := if t[0] == '-' || t[0] == '+' then t[1..] else t;
      match DigitGroupValue(body)
      case None => None
      case Some(v) => var n: int := v; Some(if t[0] == '-' then -n else n)
  }

  /** The value of a digit group, underscores ignored. */
  function DigitGroupValue(body: string): (r: Option<nat>)
    ensures r.Some? <==> IsDigitGroup(body)
  {
    if !IsDigitGroup(body) then None
    else
      var digits := RemoveChar(body, '_');
      assert IsDigitGroup(body);
      assert forall k :: 0 <= k < |body| ==> IsDigit(body[k]) || body[k] == '_' by {
        forall k | 0 <= k < |body| ensures IsDigit(body[k]) || body[k] == '_' {
          assert GroupChar(body, k);
        }
      }
      RemoveCharKeepsDigits(body);
      Some(DigitsValue(digits))
  }

  lemma {:induction false} RemoveCharKeepsDigits(s: string)
    requires forall k :: 0 <= k < |s| ==> IsDigit(s[k]) || s[k] == '_'
    ensures forall k :: 0 <= k < |RemoveChar(s, '_')| ==> IsDigit(RemoveChar(s, '_')[k])
    decreases |s|
  {
    if s != [] {
      RemoveCharKeepsDigits(s[1..]);
    }
  }

  /** `int(str(n)) == n`: the decimal rendering of an integer parses back to it. */
  lemma IntToStringRoundTrip(n: int)
    ensures ParseInt(IntToString(n)) == Some(n)
  {
    var r := IntToString(n);
    StripTrimmed(r);
    var m: nat := if n < 0 then -n else n;
    var d := NatToString(m);
    assert n < 0 ==> r[1..] == d;
    assert n >= 0 ==> r == d;
    NatDigitGroup(m);
  }

  lemma NatDigitGroup(m: nat)
    ensures DigitGroupValue(NatToString(m)) == Some(m)
  {
    var d := NatToString(m);
    assert IsDigitGroup(d);
    assert '_' !in d by {
      forall k | 0 <= k < |d| ensures d[k] != '_' { assert IsDigit(d[k]); }
    }
    NatToStringValue(m);
  }
}
