/** The Option type used for Python operations that can raise. */
module Wrappers {
  datatype Option<+T> = None | Some(value: T)
}

/**
 * The string operations the codecs are built from, written to behave as the
 * Python built-ins they stand for: `str.find` on one character, slicing with
 * possibly negative bounds, `str.split` on one separator, `str(int)` and `int(str)`.
 */
module Text {
  import opened Wrappers

  /** Every character has a code below 256 (what `format(ord(c), '08b')` renders in 8 digits). */
  predicate Latin1(s: string) {
    forall c :: c in s ==> c as int < 256
  }

  lemma Latin1Concat(a: string, b: string)
    ensures Latin1(a + b) <==> Latin1(a) && Latin1(b)
  {
    assert forall c :: c in a + b <==> c in a || c in b;
  }

  lemma Latin1Head(t: string)
    requires |t| > 0 && Latin1(t)
    ensures t[0] as int < 256 && Latin1(t[1..])
  {
    assert t[0] in t;
    assert forall c :: c in t[1..] ==> c in t;
  }

  /** `s.find(c)`: the index of the first occurrence of `c`, or -1. */
  function Find(s: string, c: char): (r: int)
    ensures -1 <= r < |s|
    ensures r >= 0 ==> s[r] == c && c !in s[..r]
    ensures r == -1 <==> c !in s
  {
    if |s| == 0 then -1
    else if s[0] == c then 0
    else
      var k := Find(s[1..], c);
      if k < 0 then -1
      else
        assert s[..k + 1] == [s[0]] + s[1..][..k];
        k + 1
  }

  lemma FindAt(s: string, c: char, k: nat)
    requires k < |s| && s[k] == c && c !in s[..k]
    ensures Find(s, c) == k
  {
    assert s[..k + 1][k] == c;
  }

  /** A Python slice bound: negative counts from the end, then clamped to `[0, n]`. */
  function SliceBound(i: int, n: nat): (r: nat)
    ensures r <= n
    ensures 0 <= i <= n ==> r == i
    ensures -(n as int) <= i < 0 ==> r == n + i
  {
    if i < 0 then (if n + i < 0 then 0 else n + i)
    else if i > n then n
    else i
  }

  /** `s[i:j]`. */
  function PySlice(s: string, i: int, j: int): (r: string)
    ensures |r| <= |s|
  {
    var a, b := SliceBound(i, |s|), SliceBound(j, |s|);
    if a < b then s[a..b] else []
  }

  /** `sep.join(parts)`. */
  function Join(parts: seq<string>, sep: char): string {
    if |parts| == 0 then []
    else if |parts| == 1 then parts[0]
    else parts[0] + [sep] + Join(parts[1..], sep)
  }

  /** `s.split(sep)`: the maximal pieces between separators; joining them back gives `s`. */
  function Split(s: string, sep: char): (parts: seq<string>)
    ensures |parts| >= 1
    ensures forall i :: 0 <= i < |parts| ==> sep !in parts[i]
    ensures Join(parts, sep) == s
    decreases |s|
  {
    var k := Find(s, sep);
    if k < 0 then [s]
    else
      var rest := Split(s[k + 1..], sep);
      var parts := [s[..k]] + rest;
      assert parts[1..] == rest;
      assert s == s[..k] + [sep] + s[k + 1..];
      parts
  }

  /** No part contains `c`. */
  predicate Free(parts: seq<string>, c: char) {
    forall i :: 0 <= i < |parts| ==> c !in parts[i]
  }

  lemma JoinExcludes(parts: seq<string>, sep: char, c: char)
    requires c != sep && Free(parts, c)
    ensures c !in Join(parts, sep)
  {
    if |parts| > 1 {
      JoinExcludes(parts[1..], sep, c);
    }
  }

  lemma JoinLatin1(parts: seq<string>, sep: char)
    requires sep as int < 256
    requires forall i :: 0 <= i < |parts| ==> Latin1(parts[i])
    ensures Latin1(Join(parts, sep))
  {
    if |parts| > 1 {
      JoinLatin1(parts[1..], sep);
    }
  }

  /** The pieces of `a + [c] + b`, found by position. */
  lemma SliceAround(a: string, c: char, b: string)
    ensures var s := a + [c] + b;
            s[..|a|] == a && s[|a|] == c && s[|a| + 1..] == b
  {
  }

  /** Splitting undoes joining when no part contains the separator. */
  lemma {:induction false} SplitJoin(parts: seq<string>, sep: char)
    requires |parts| >= 1 && Free(parts, sep)
    ensures Split(Join(parts, sep), sep) == parts
  {
    if |parts| > 1 {
      var head, rest := parts[0], Join(parts[1..], sep);
      var s := Join(parts, sep);
      assert s == head + [sep] + rest;
      SliceAround(head, sep, rest);
      FindAt(s, sep, |head|);
      assert Split(s, sep) == [head] + Split(rest, sep);
      SplitJoin(parts[1..], sep);
      assert parts == [head] + parts[1..];
    } else {
      assert Join(parts, sep) == parts[0];
    }
  }

  /** A header `[f0:f1:...]`, as the f-strings of every codec write it. */
  function Header(fields: seq<string>): (r: string)
    ensures |r| >= 2 && r[0] == '[' && r[|r| - 1] == ']'
  {
    "[" + Join(fields, ':') + "]"
  }

  /**
   * The part every decapsulation shares: `fin = s.find(']') + 1`, payload `s[fin:]`
   * and the fields `s[:fin][1:-1].split(':')`.
   */
  function SplitHeader(s: string): (r: (string, seq<string>))
    ensures |r.1| >= 1 && Free(r.1, ':')
    ensures |r.0| <= |s| && r.0 == s[|s| - |r.0|..]
    ensures ']' !in s ==> r == (s, [""])
  {
    var fin := Find(s, ']') + 1;
    (s[fin..], Split(PySlice(s[..fin], 1, -1), ':'))
  }

  /** The header text, its closing bracket and the payload, located in `Header(fields) + payload`. */
  lemma {:induction false} HeaderLayout(fields: seq<string>, payload: string)
    requires Free(fields, ']') && Free(fields, ':')
    ensures var s := Header(fields) + payload;
            var j := |Join(fields, ':')| + 1;
            && |Header(fields)| == j + 1
            && Find(s, ']') == j
            && s[..j + 1] == Header(fields)
            && s[j + 1..] == payload
            && s[1..j] == Join(fields, ':')
  {
    var s := Header(fields) + payload;
    var body := Join(fields, ':');
    var j := |body| + 1;
    JoinExcludes(fields, ':', ']');
    assert s == "[" + body + "]" + payload;
    assert s[..j] == "[" + body;
    assert ']' !in s[..j];
    FindAt(s, ']', j);
  }

  /** Decapsulating a header built by `Header` gives back the payload and the fields. */
  lemma {:induction false} SplitHeaderRoundTrip(fields: seq<string>, payload: string)
    requires |fields| >= 1 && Free(fields, ']') && Free(fields, ':')
    ensures SplitHeader(Header(fields) + payload) == (payload, fields)
  {
    var s := Header(fields) + payload;
    var j := |Join(fields, ':')| + 1;
    HeaderLayout(fields, payload);
    assert PySlice(s[..j + 1], 1, -1) == Join(fields, ':');
    SplitJoin(fields, ':');
  }

  // Decimal text, as `str(n)` writes an int and `int(s)` reads it back.

  predicate IsDigit(c: char) {
    '0' <= c <= '9'
  }

  predicate AllDigits(s: string) {
    forall i :: 0 <= i < |s| ==> IsDigit(s[i])
  }

  function DigitChar(d: nat): (c: char)
    requires d < 10
    ensures IsDigit(c) && c as int - '0' as int == d
  {
    ('0' as int + d) as char
  }

  /** `str(n)` for `n >= 0`: decimal digits with no leading zero. */
  function NatToString(n: nat): (s: string)
    ensures |s| >= 1 && AllDigits(s)
    ensures |s| > 1 ==> s[0] != '0'
  {
    if n < 10 then [DigitChar(n)]
    else
      var p := NatToString(n / 10);
      assert (p + [DigitChar(n % 10)])[0] == p[0];
      p + [DigitChar(n % 10)]
  }

  /** `str(n)`. */
  function IntToString(n: int): (s: string)
    ensures |s| >= 1 && (n < 0 <==> s[0] == '-')
    ensures n >= 0 ==> AllDigits(s)
    ensures n < 0 ==> AllDigits(s[1..]) && |s| >= 2
  {
    if n < 0 then "-" + NatToString(-n) else NatToString(n)
  }

  /** The value of a string of decimal digits. */
  function DigitsValue(s: string): nat
    requires AllDigits(s)
  {
    if |s| == 0 then 0
    else DigitsValue(s[..|s| - 1]) * 10 + (s[|s| - 1] as int - '0' as int)
  }

  /**
   * `int(s)` for the forms `str` produces: an optional sign then at least one digit.
   * Anything else raises `ValueError`, which is `None` here.
   */
  function ParseInt(s: string): (r: Option<int>)
    ensures |s| == 0 ==> r.None?
    ensures AllDigits(s) && |s| >= 1 ==> r == Some(DigitsValue(s))
    ensures r.Some? && r.value < 0 ==> s[0] == '-'
  {
    if |s| >= 2 && s[0] == '-' && AllDigits(s[1..]) then Some(-(DigitsValue(s[1..]) as int))
    else if |s| >= 2 && s[0] == '+' && AllDigits(s[1..]) then Some(DigitsValue(s[1..]))
    else if |s| >= 1 && AllDigits(s) then Some(DigitsValue(s))
    else None
  }

  lemma {:induction false} DigitsValueOfNat(n: nat)
    ensures DigitsValue(NatToString(n)) == n
  {
    if n >= 10 {
      var s := NatToString(n);
      assert s[..|s| - 1] == NatToString(n / 10);
      DigitsValueOfNat(n / 10);
    }
  }

  /** `int(str(n)) == n` for every int. */
  lemma ParseIntToString(n: int)
    ensures ParseInt(IntToString(n)) == Some(n)
  {
    var s := IntToString(n);
    if n < 0 {
      var d := NatToString(-n);
      assert s == "-" + d && s[0] == '-' && s[1..] == d;
      DigitsValueOfNat(-n);
    } else {
      assert s == NatToString(n) && IsDigit(s[0]);
      DigitsValueOfNat(n);
    }
  }

  /** `str(n)` is made of digits and `-` only, so it is a valid header field. */
  lemma IntToStringField(n: int)
    ensures ':' !in IntToString(n) && ']' !in IntToString(n) && Latin1(IntToString(n))
  {
    var s := IntToString(n);
    if n < 0 {
      assert s == "-" + NatToString(-n);
    }
    assert forall c :: c in s ==> c == '-' || IsDigit(c);
  }
}
