/** The handful of Python `str` operations the agent's text formats rely on:
    `split`, `join`, `partition`, `strip`, `startswith`, `endswith`, `upper`,
    `lower`, and the decimal rendering and parsing of whole numbers. */
module Text {
  import opened Wrappers

  /** The characters Python's `str.isspace` accepts, and so the ones
      `str.strip()` removes. */
  predicate IsSpace(c: char) {
    var n := c as int;
    n == 0x20 || 0x09 <= n <= 0x0d || 0x1c <= n <= 0x1f || n == 0x85 || n == 0xa0
    || n == 0x1680 || 0x2000 <= n <= 0x200a || n == 0x2028 || n == 0x2029
    || n == 0x202f || n == 0x205f || n == 0x3000
  }

  function TrimLeft(s: string): (r: string)
    ensures r == "" || !IsSpace(r[0])
  {
    if |s| > 0 && IsSpace(s[0]) then TrimLeft(s[1..]) else s
  }

  function TrimRight(s: string): (r: string)
    ensures r == "" || !IsSpace(r[|r| - 1])
  {
    if |s| > 0 && IsSpace(s[|s| - 1]) then TrimRight(s[..|s| - 1]) else s
  }

  /** Python's `str.strip()` with no argument. */
  function Strip(s: string): string {
    TrimRight(TrimLeft(s))
  }

  /** A string that `strip()` leaves alone: empty, or neither end is whitespace. */
  predicate StripStable(s: string) {
    s == "" || (!IsSpace(s[0]) && !IsSpace(s[|s| - 1]))
  }

  lemma StripOfStable(s: string)
    requires StripStable(s)
    ensures Strip(s) == s
  {
  }

  /** Python's `str.split(sep)` with a one-character separator: the pieces
      between the occurrences of `sep`, in order; never an empty list. */
  function Split(s: string, sep: char): (parts: seq<string>)
    ensures |parts| >= 1
  {
    if |s| == 0 then [""]
    else
      var rest := Split(s[1..], sep);
      if s[0] == sep then [""] + rest
      else [[s[0]] + rest[0]] + rest[1..]
  }

  /** Python's `sep.join(parts)`. */
  function Join(sep: char, parts: seq<string>): string {
    if |parts| == 0 then ""
    else if |parts| == 1 then parts[0]
    else parts[0] + [sep] + Join(sep, parts[1..])
  }

  lemma {:induction false} SplitNoSep(s: string, sep: char)
    requires sep !in s
    ensures Split(s, sep) == [s]
  {
    if |s| > 0 {
      SplitNoSep(s[1..], sep);
      assert [s[0]] + s[1..] == s;
    }
  }

  lemma {:induction false} SplitConcat(p: string, sep: char, rest: string)
    requires sep !in p
    ensures Split(p + [sep] + rest, sep) == [p] + Split(rest, sep)
  {
    var s := p + [sep] + rest;
    if |p| == 0 {
      assert s[1..] == rest;
    } else {
      assert s[1..] == p[1..] + [sep] + rest;
      SplitConcat(p[1..], sep, rest);
      assert [p[0]] + p[1..] == p;
    }
  }

  /** Splitting undoes joining when no part contains the separator. */
  lemma {:induction false} SplitJoin(sep: char, parts: seq<string>)
    requires |parts| >= 1
    requires forall i :: 0 <= i < |parts| ==> sep !in parts[i]
    ensures Split(Join(sep, parts), sep) == parts
  {
    if |parts| == 1 {
      SplitNoSep(parts[0], sep);
    } else {
      SplitJoin(sep, parts[1..]);
      SplitConcat(parts[0], sep, Join(sep, parts[1..]));
      assert [parts[0]] + parts[1..] == parts;
    }
  }

  lemma {:induction false} JoinNoSep(sep: char, c: char, parts: seq<string>)
    requires c != sep
    requires forall i :: 0 <= i < |parts| ==> c !in parts[i]
    ensures c !in Join(sep, parts)
  {
    if |parts| > 1 {
      JoinNoSep(sep, c, parts[1..]);
    }
  }

  /** The first piece of `split(sep)` is everything before the first `sep`. */
  lemma FirstPieceOf(p: string, sep: char, rest: string)
    requires sep !in p
    ensures Split(p, sep)[0] == p
    ensures Split(p + [sep] + rest, sep)[0] == p
  {
    SplitNoSep(p, sep);
    SplitConcat(p, sep, rest);
  }

  /** Python's `s.partition(sep)` without the middle element: what comes
      before the first `sep` and what comes after it; `(s, "")` when `sep`
      does not occur.  `s.split(sep, maxsplit=1)` agrees with it whenever
      `sep` occurs. */
  function Partition(s: string, sep: char): (r: (string, string))
    ensures sep in s ==> sep !in r.0 && r.0 + [sep] + r.1 == s
    ensures sep !in s ==> r == (s, "")
  {
    if |s| == 0 then ("", "")
    else if s[0] == sep then
      assert s == [] + [sep] + s[1..];
      ("", s[1..])
    else
      var (before, after) := Partition(s[1..], sep);
      assert sep in s[1..] ==> [s[0]] + before + [sep] + after == [s[0]] + s[1..];
      assert [s[0]] + s[1..] == s;
      ([s[0]] + before, after)
  }

  /** `Partition` is determined by the position of the first separator. */
  lemma PartitionAt(p: string, sep: char, rest: string)
    requires sep !in p
    ensures Partition(p + [sep] + rest, sep) == (p, rest)
  {
    var s := p + [sep] + rest;
    var r := Partition(s, sep);
    assert sep in s by { assert s[|p|] == sep; }
    PrefixUnique(r.0, r.1, p, rest, sep);
  }

  lemma PrefixUnique(a: string, b: string, p: string, q: string, sep: char)
    requires sep !in a && sep !in p
    requires a + [sep] + b == p + [sep] + q
    ensures a == p && b == q
  {
    var s := a + [sep] + b;
    FirstSeparator(a, b, sep);
    FirstSeparator(p, q, sep);
    assert a == s[..|a|] == p;
    assert b == s[|a| + 1..] == q;
  }

  lemma FirstSeparator(a: string, b: string, sep: char)
    requires sep !in a
    ensures (a + [sep] + b)[|a|] == sep
    ensures forall i :: 0 <= i < |a| ==> (a + [sep] + b)[i] != sep
  {
  }

  predicate StartsWith(s: string, prefix: string) {
    |prefix| <= |s| && s[..|prefix|] == prefix
  }

  predicate EndsWith(s: string, suffix: string) {
    |suffix| <= |s| && s[|s| - |suffix|..] == suffix
  }

  predicate IsAsciiUpper(c: char) {
    'A' <= c <= 'Z'
  }

  predicate IsAsciiLower(c: char) {
    'a' <= c <= 'z'
  }

  function UpperChar(c: char): char {
    if IsAsciiLower(c) then (c as int - 32) as char else c
  }

  function LowerChar(c: char): char {
    if IsAsciiUpper(c) then (c as int + 32) as char else c
  }

  lemma UpperCharSpace(c: char)
    ensures IsSpace(UpperChar(c)) <==> IsSpace(c)
  {
  }

  /** `str.upper()`, on the ASCII letters. */
  function Upper(s: string): (r: string)
    ensures |r| == |s|
  {
    seq(|s|, i requires 0 <= i < |s| => UpperChar(s[i]))
  }

  /** `str.lower()`, on the ASCII letters. */
  function Lower(s: string): (r: string)
    ensures |r| == |s|
  {
    seq(|s|, i requires 0 <= i < |s| => LowerChar(s[i]))
  }

  /** No ASCII capital letter: the strings `lower()` gives back after `upper()`. */
  predicate NoUpper(s: string) {
    forall i :: 0 <= i < |s| ==> !IsAsciiUpper(s[i])
  }

  lemma LowerOfUpper(s: string)
    requires NoUpper(s)
    ensures Lower(Upper(s)) == s
  {
    assert forall i :: 0 <= i < |s| ==> LowerChar(UpperChar(s[i])) == s[i];
  }

  /** `upper()` is one-to-one on strings without capitals. */
  lemma UpperInjective(s: string, t: string)
    requires NoUpper(s) && NoUpper(t)
    requires Upper(s) == Upper(t)
    ensures s == t
  {
    LowerOfUpper(s);
    LowerOfUpper(t);
  }

  lemma UpperKeeps(s: string, c: char)
    requires !IsAsciiLower(c) && !IsAsciiUpper(c)
    ensures c in s <==> c in Upper(s)
  {
    if c in s {
      var i :| 0 <= i < |s| && s[i] == c;
      assert Upper(s)[i] == c;
    }
    if c in Upper(s) {
      var i :| 0 <= i < |s| && Upper(s)[i] == c;
      assert s[i] == c;
    }
  }

  lemma UpperConcat(s: string, t: string)
    ensures Upper(s + t) == Upper(s) + Upper(t)
  {
  }

  // Whole numbers in decimal notation: the `str` of a whole-valued Decimal
  // and the inputs `Decimal(...)` reads back as one.

  predicate IsDigit(c: char) {
    '0' <= c <= '9'
  }

  function DigitChar(d: nat): char
    requires d < 10
  {
    ('0' as int + d) as char
  }

  function DigitValue(c: char): nat
    requires IsDigit(c)
  {
    c as int - '0' as int
  }

  predicate AllDigits(s: string) {
    forall i :: 0 <= i < |s| ==> IsDigit(s[i])
  }

  /** The decimal rendering of `n`, without leading zeros. */
  function NatToDecimal(n: nat): (s: string)
    ensures |s| >= 1 && AllDigits(s)
  {
    if n < 10 then [DigitChar(n)]
    else NatToDecimal(n / 10) + [DigitChar(n % 10)]
  }

  function DigitsValue(s: string): nat
    requires AllDigits(s)
  {
    if |s| == 0 then 0
    else DigitsValue(s[..|s| - 1]) * 10 + DigitValue(s[|s| - 1])
  }

  /** A digit string as `str` prints a number: no leading zero unless it
      is the single digit `0`. */
  predicate Canonical(s: string) {
    |s| >= 1 && AllDigits(s) && (|s| == 1 || s[0] != '0')
  }

  /** Reads a non-empty string of digits as a whole number; anything else
      is refused.  A canonical string is read as the number that prints as
      that very string. */
  function DecimalToNat(s: string): (r: Option<nat>)
    ensures r.Some? <==> |s| >= 1 && AllDigits(s)
    ensures Canonical(s) ==> r.Some? && NatToDecimal(r.value) == s
  {
    if |s| >= 1 && AllDigits(s) then
      if Canonical(s) then CanonicalPrints(s); Some(DigitsValue(s))
      else Some(DigitsValue(s))
    else None
  }

  /** Without a leading zero, a number of two or more digits is at least 10. */
  lemma {:induction false} LeadingDigitValue(s: string)
    requires |s| >= 1 && AllDigits(s) && s[0] != '0'
    ensures DigitsValue(s) >= 1
    ensures |s| >= 2 ==> DigitsValue(s) >= 10
  {
    if |s| >= 2 {
      var t := s[..|s| - 1];
      assert t[0] == s[0];
      LeadingDigitValue(t);
    } else {
      assert s[..0] == "";
    }
  }

  /** Printing the value of a canonical digit string gives the string. */
  lemma {:induction false} CanonicalPrints(s: string)
    requires Canonical(s)
    ensures NatToDecimal(DigitsValue(s)) == s
  {
    var n := |s| - 1;
    if n == 0 {
      assert s[..0] == "";
      assert s == [DigitChar(DigitValue(s[0]))];
    } else {
      var t := s[..n];
      assert t[0] == s[0];
      LeadingDigitValue(t);
      CanonicalPrints(t);
      var v := DigitsValue(s);
      var d := DigitValue(s[n]);
      assert v == DigitsValue(t) * 10 + d;
      assert v / 10 == DigitsValue(t) && v % 10 == d;
      assert s == t + [DigitChar(d)];
    }
  }

  lemma {:induction false} DecimalRoundTrip(n: nat)
    ensures DecimalToNat(NatToDecimal(n)) == Some(n)
  {
    var s := NatToDecimal(n);
    if n < 10 {
      assert s[..0] == "";
      assert DigitsValue(s) == DigitsValue(s[..0]) * 10 + DigitValue(s[0]);
    } else {
      DecimalRoundTrip(n / 10);
      assert s[..|s| - 1] == NatToDecimal(n / 10);
    }
  }
}
