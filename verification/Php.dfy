/** The parts of PHP's scalar semantics that several components rely on. */
module Php {
  import opened Wrappers

  predicate IsDigit(c: char) {
    '0' <= c <= '9'
  }

  function DigitValue(c: char): (d: nat)
    requires IsDigit(c)
    ensures d < 10
  {
    c as int - '0' as int
  }

  function Digit(d: nat): (c: char)
    requires d < 10
    ensures IsDigit(c) && DigitValue(c) == d
  {
    ('0' as int + d) as char
  }

  predicate AllDigits(s: string) {
    forall i :: 0 <= i < |s| ==> IsDigit(s[i])
  }

  /** The value of a string of digits. */
  function DigitsValue(s: string): nat
    requires AllDigits(s)
  {
    if s == "" then 0 else DigitsValue(s[..|s| - 1]) * 10 + DigitValue(s[|s| - 1])
  }

  function DecimalNat(n: nat): (s: string)
    ensures s != "" && AllDigits(s)
  {
    if n < 10 then [Digit(n)] else DecimalNat(n / 10) + [Digit(n % 10)]
  }

  /** `(string)$i` */
  function Decimal(i: int): (s: string)
    ensures s != ""
  {
    if i < 0 then "-" + DecimalNat(-i) else DecimalNat(i)
  }

  lemma {:induction false} DecimalNatValue(n: nat)
    ensures DigitsValue(DecimalNat(n)) == n
    ensures DecimalNat(n)[0] == '0' <==> n == 0
    ensures n == 0 ==> DecimalNat(n) == "0"
  {
    if n < 10 {
      var s := DecimalNat(n);
      assert s[..|s| - 1] == "";
    } else {
      DecimalNatValue(n / 10);
      var s := DecimalNat(n);
      assert s[..|s| - 1] == DecimalNat(n / 10);
    }
  }

  function Signed(negative: bool, n: nat): int {
    if negative then 0 - n else n
  }

  /** The longest prefix of digits, and what follows it. */
  function SpanDigits(s: string): (r: (string, string))
    ensures s == r.0 + r.1 && AllDigits(r.0)
    ensures r.1 == "" || !IsDigit(r.1[0])
  {
    if s == "" || !IsDigit(s[0]) then ("", s)
    else
      var (ds, rest) := SpanDigits(s[1..]);
      ([s[0]] + ds, rest)
  }

  lemma {:induction false} SpanDigitsExact(ds: string, rest: string)
    requires AllDigits(ds) && (rest == "" || !IsDigit(rest[0]))
    ensures SpanDigits(ds + rest) == (ds, rest)
  {
    if ds != "" {
      assert (ds + rest)[1..] == ds[1..] + rest;
      SpanDigitsExact(ds[1..], rest);
      assert [ds[0]] + ds[1..] == ds;
    } else {
      assert ds + rest == rest;
    }
  }

  predicate IsBlank(c: char) {
    c == ' ' || c == '\t' || c == '\n' || c == '\r' || c == 11 as char || c == 12 as char
  }

  function SkipBlanks(s: string): string {
    if s != "" && IsBlank(s[0]) then SkipBlanks(s[1..]) else s
  }

  /** `(int)$s` for strings without exponent and within the integer range: the leading integer, or 0. */
  function IntCast(s: string): int {
    var t := SkipBlanks(s);
    if t != "" && t[0] == '-' then Signed(true, DigitsValue(SpanDigits(t[1..]).0))
    else if t != "" && t[0] == '+' then DigitsValue(SpanDigits(t[1..]).0)
    else DigitsValue(SpanDigits(t).0)
  }

  lemma {:induction false} DigitsOnly(n: nat)
    ensures SpanDigits(DecimalNat(n)) == (DecimalNat(n), "") && DigitsValue(DecimalNat(n)) == n
  {
    DecimalNatValue(n);
    assert DecimalNat(n) + "" == DecimalNat(n);
    SpanDigitsExact(DecimalNat(n), "");
  }

  lemma {:induction false} IntCastDecimal(i: int)
    ensures IntCast(Decimal(i)) == i
  {
    var s := Decimal(i);
    var ds := DecimalNat(if i < 0 then -i else i);
    DigitsOnly(if i < 0 then -i else i);
    if i < 0 {
      assert s[0] == '-' && s[1..] == ds;
    } else {
      assert s == ds && IsDigit(s[0]) && !IsBlank(s[0]);
      assert IntCast(s) == DigitsValue(SpanDigits(s).0);
    }
  }

  /** Leading blanks, an integer, and whatever cannot continue it. */
  lemma {:induction false} IntCastReads(blanks: string, i: int, rest: string)
    requires forall k :: 0 <= k < |blanks| ==> IsBlank(blanks[k])
    requires rest == "" || !IsDigit(rest[0])
    ensures IntCast(blanks + Decimal(i) + rest) == i
  {
    hide DecimalNat, DigitsValue, SpanDigits, SkipBlanks;
    var n := if i < 0 then -i else i;
    var ds := DecimalNat(n);
    DecimalNatValue(n);
    SpanDigitsExact(ds, rest);
    var t := Decimal(i) + rest;
    assert IsDigit(ds[0]);
    assert blanks + Decimal(i) + rest == blanks + t;
    if i < 0 {
      assert t[0] == '-' && t[1..] == ds + rest;
    } else {
      assert t == ds + rest;
    }
    SkipAll(blanks, t);
  }

  lemma {:induction false} SkipAll(blanks: string, t: string)
    requires forall k :: 0 <= k < |blanks| ==> IsBlank(blanks[k])
    requires t != "" && !IsBlank(t[0])
    ensures SkipBlanks(blanks + t) == t
  {
    if blanks == "" {
      assert blanks + t == t;
    } else {
      assert (blanks + t)[1..] == blanks[1..] + t;
      SkipAll(blanks[1..], t);
    }
  }

  /** A text that starts with neither a digit, a sign nor a blank is 0. */
  lemma {:induction false} IntCastText(s: string)
    requires s == "" || !(IsDigit(s[0]) || IsBlank(s[0]) || s[0] == '-' || s[0] == '+')
    ensures IntCast(s) == 0
  {
  }

  lemma {:induction false} DecimalHasNoDot(i: int)
    ensures '.' !in Decimal(i)
  {
  }

  /** `(bool)$s` */
  predicate BoolCast(s: string) {
    s != "" && s != "0"
  }

  const INT_MIN := -0x8000_0000_0000_0000
  const INT_MAX := 0x7fff_ffff_ffff_ffff

  predicate InRange(i: int) {
    INT_MIN <= i <= INT_MAX
  }

  /** The integer that PHP turns an array key into, when the string is a canonical decimal integer. */
  function IntegerKey(s: string): (r: Option<int>)
    ensures r.Some? ==> InRange(r.value)
  {
    var negative := s != "" && s[0] == '-';
    var ds := if negative then s[1..] else s;
    if ds == "" || !AllDigits(ds) || (ds[0] == '0' && (negative || |ds| > 1)) then None
    else
      var n := Signed(negative, DigitsValue(ds));
      if InRange(n) then Some(n) else None
  }

  lemma {:induction false} IntegerKeyDecimal(i: int)
    requires InRange(i)
    ensures IntegerKey(Decimal(i)) == Some(i)
  {
    var s, n := Decimal(i), if i < 0 then -i else i;
    var ds := DecimalNat(n);
    DecimalNatValue(n);
    if i < 0 {
      assert s[0] == '-' && s[1..] == ds;
    } else {
      assert s == ds && IsDigit(s[0]);
    }
  }

  /** `explode($separator, $s)` for a one-character separator. */
  function Explode(separator: char, s: string): (parts: seq<string>)
    ensures |parts| >= 1
    ensures forall i :: 0 <= i < |parts| ==> separator !in parts[i]
  {
    if s == "" then [""]
    else
      var rest := Explode(separator, s[1..]);
      if s[0] == separator then [""] + rest else [[s[0]] + rest[0]] + rest[1..]
  }

  /** `implode($separator, $parts)` */
  function Implode(separator: string, parts: seq<string>): string {
    if parts == [] then ""
    else if |parts| == 1 then parts[0]
    else parts[0] + separator + Implode(separator, parts[1..])
  }

  lemma {:induction false} ImplodeExplode(separator: char, s: string)
    ensures Implode([separator], Explode(separator, s)) == s
    ensures |Explode(separator, s)| > 1 <==> separator in s
  {
    if s != "" {
      var rest := Explode(separator, s[1..]);
      ImplodeExplode(separator, s[1..]);
      if s[0] == separator {
        assert ([""] + rest)[1..] == rest;
        assert "" + [separator] + s[1..] == s;
      } else {
        var parts := [[s[0]] + rest[0]] + rest[1..];
        assert parts[1..] == rest[1..];
        if |rest| > 1 {
          assert [s[0]] + (rest[0] + [separator] + Implode([separator], rest[1..])) == s;
        }
      }
    }
  }

  lemma {:induction false} ExplodeFirst(separator: char, first: string, rest: string)
    requires separator !in first
    ensures Explode(separator, first + [separator] + rest) == [first] + Explode(separator, rest)
    ensures Explode(separator, first) == [first]
  {
    if first == "" {
      assert (first + [separator] + rest)[1..] == rest;
    } else {
      assert (first + [separator] + rest)[1..] == first[1..] + [separator] + rest;
      ExplodeFirst(separator, first[1..], rest);
      assert [first[0]] + first[1..] == first;
    }
  }

  /** Splitting inverts joining, when no part holds the separator. */
  lemma {:induction false} ExplodeImplode(separator: char, parts: seq<string>)
    requires parts != [] && forall part :: part in parts ==> separator !in part
    ensures Explode(separator, Implode([separator], parts)) == parts
  {
    if |parts| == 1 {
      ExplodeFirst(separator, parts[0], "");
      assert parts == [parts[0]];
    } else {
      ExplodeFirst(separator, parts[0], Implode([separator], parts[1..]));
      ExplodeImplode(separator, parts[1..]);
      assert [parts[0]] + parts[1..] == parts;
    }
  }

  function LowerChar(c: char): char {
    if 'A' <= c <= 'Z' then (c as int - 'A' as int + 'a' as int) as char else c
  }

  function UpperChar(c: char): char {
    if 'a' <= c <= 'z' then (c as int - 'a' as int + 'A' as int) as char else c
  }

  /** The 26 letters change case, one for one and in order; no other character changes. */
  lemma {:induction false} CaseOf(c: char)
    ensures 'A' <= c <= 'Z' ==> LowerChar(c) as int == c as int + 32 && UpperChar(c) == c
    ensures 'a' <= c <= 'z' ==> UpperChar(c) as int == c as int - 32 && LowerChar(c) == c
    ensures !('A' <= c <= 'Z' || 'a' <= c <= 'z') ==> LowerChar(c) == c == UpperChar(c)
    ensures UpperChar(LowerChar(c)) == UpperChar(c) && LowerChar(UpperChar(c)) == LowerChar(c)
  {
  }

  /** `strtolower($s)` */
  function Lower(s: string): string {
    seq(|s|, i requires 0 <= i < |s| => LowerChar(s[i]))
  }

  /** `strtoupper($s)` */
  function Upper(s: string): string {
    seq(|s|, i requires 0 <= i < |s| => UpperChar(s[i]))
  }

  /** Texts that differ in case only are the same in lower case exactly when they are in upper case. */
  lemma {:induction false} SameInAnyCase(s: string, t: string)
    ensures Lower(s) == Lower(t) <==> Upper(s) == Upper(t)
  {
    if Lower(s) == Lower(t) {
      forall i | 0 <= i < |s|
        ensures Upper(s)[i] == Upper(t)[i]
      {
        assert Lower(s)[i] == Lower(t)[i];
        CaseOf(s[i]);
        CaseOf(t[i]);
      }
    }
    if Upper(s) == Upper(t) {
      assert |s| == |Upper(s)| == |t|;
      forall i | 0 <= i < |s|
        ensures Lower(s)[i] == Lower(t)[i]
      {
        assert Upper(s)[i] == Upper(t)[i];
        CaseOf(s[i]);
        CaseOf(t[i]);
      }
    }
  }

  /** `trim($s, $blanks)` for the characters of `filter_var`: space, \t, \n, \v and \r. */
  function TrimStart(s: string): string {
    if s != "" && IsBlank(s[0]) && s[0] != 12 as char then TrimStart(s[1..]) else s
  }

  function TrimEnd(s: string): string {
    if s != "" && IsBlank(s[|s| - 1]) && s[|s| - 1] != 12 as char then TrimEnd(s[..|s| - 1]) else s
  }

  function ReplaceChar(s: string, from: char, to: char): string {
    seq(|s|, i requires 0 <= i < |s| => if s[i] == from then to else s[i])
  }

  /** `str_contains($s, $part)` */
  predicate Contains(s: string, part: string) {
    exists i :: 0 <= i <= |s| && part <= s[i..]
  }

  /** `$ids + [0]`: the union keeps the entry of $ids at index 0 when there is one. */
  function PlusZero(ids: seq<int>): seq<int> {
    if ids == [] then [0] else ids
  }
}
