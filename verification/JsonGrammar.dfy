/**
 The JSON texts that are read, as trees: the reader accepts exactly the texts of these trees and yields
 the values they stand for (sections 2 to 7 of RFC 8259, with literals in any case and at most 512
 arrays inside each other).
 */
module JsonGrammar {
  import opened Wrappers
  import opened Php
  import opened Json
  import opened JsonRoundTrip

  // ---------------------------------------------------------------- lexical parts

  predicate AllSpaces(s: string) {
    forall i :: 0 <= i < |s| ==> s[i] == ' ' || s[i] == '\t' || s[i] == '\n' || s[i] == '\r'
  }

  /** A text of a character inside a string. */
  datatype Spelling = Spelling(text: string, c: char)

  predicate IsHex(c: char) {
    '0' <= c <= '9' || 'a' <= c <= 'f' || 'A' <= c <= 'F'
  }

  function HexOf(c: char): nat
    requires IsHex(c)
  {
    if c <= '9' then c as int - 48 else if c <= 'F' then c as int - 55 else c as int - 87
  }

  /** `\u` and four hexadecimal digits. */
  predicate IsUnit(s: string) {
    |s| == 6 && s[0] == '\\' && s[1] == 'u' && IsHex(s[2]) && IsHex(s[3]) && IsHex(s[4]) && IsHex(s[5])
  }

  function UnitOf(s: string): nat
    requires IsUnit(s)
  {
    ((HexOf(s[2]) * 16 + HexOf(s[3])) * 16 + HexOf(s[4])) * 16 + HexOf(s[5])
  }

  /** The character that stands behind a backslash for another one or itself. */
  predicate IsShort(letter: char, c: char) {
    || (letter == c && (c == '"' || c == '\\' || c == '/'))
    || (letter == 'b' && c as int == 8) || (letter == 'f' && c as int == 12) || (letter == 'n' && c as int == 10)
    || (letter == 'r' && c as int == 13) || (letter == 't' && c as int == 9)
  }

  /** A character itself, behind a backslash, by its code unit, or by its two surrogates. */
  predicate Spells(p: Spelling) {
    var n := p.c as int;
    || (p.text == [p.c] && n >= 32 && p.c != '"' && p.c != '\\')
    || (|p.text| == 2 && p.text[0] == '\\' && IsShort(p.text[1], p.c))
    || (IsUnit(p.text) && UnitOf(p.text) == n)
    || (|p.text| == 12 && IsUnit(p.text[..6]) && IsUnit(p.text[6..]) && n >= 0x10000 &&
        UnitOf(p.text[..6]) == 0xD800 + (n - 0x10000) / 1024 && UnitOf(p.text[6..]) == 0xDC00 + (n - 0x10000) % 1024)
  }

  function Spelled(chars: seq<Spelling>): string {
    if chars == [] then "" else chars[0].text + Spelled(chars[1..])
  }

  function Chars(chars: seq<Spelling>): string {
    if chars == [] then "" else [chars[0].c] + Chars(chars[1..])
  }

  predicate AllSpell(chars: seq<Spelling>) {
    forall i :: 0 <= i < |chars| ==> Spells(chars[i])
  }

  /** A number: its sign, digits, the digits of a fraction, and the text of an exponent. */
  datatype NumberText = NumberText(negative: bool, digits: string, fraction: Option<string>, exponent: Option<string>)

  predicate IsDigits(s: string) {
    s != "" && AllDigits(s)
  }

  predicate IsExponent(s: string) {
    |s| >= 2 && (s[0] == 'e' || s[0] == 'E') &&
    (IsDigits(s[1..]) || ((s[1] == '+' || s[1] == '-') && IsDigits(s[2..])))
  }

  predicate IsNumber(n: NumberText) {
    && IsDigits(n.digits) && (n.digits[0] == '0' ==> n.digits == "0")
    && (n.fraction.Some? ==> IsDigits(n.fraction.value))
    && (n.exponent.Some? ==> IsExponent(n.exponent.value))
  }

  function FractionText(n: NumberText): string {
    if n.fraction.Some? then "." + n.fraction.value else ""
  }

  function ExponentText(n: NumberText): string {
    n.exponent.GetOr("")
  }

  function NumberSpelled(n: NumberText): string {
    (if n.negative then "-" else "") + (n.digits + (FractionText(n) + ExponentText(n)))
  }

  /** Whole numbers in range are integers, except the negative zero; all others keep their text. */
  function NumberValue(n: NumberText): Value
    requires IsNumber(n)
  {
    var i := Signed(n.negative, DigitsValue(n.digits));
    if n.fraction.None? && n.exponent.None? && InRange(i) && !(n.negative && n.digits == "0") then Int(i)
    else Float(NumberSpelled(n))
  }

  /** A literal, in any case. */
  predicate IsWord(text: string) {
    Lower(text) == "null" || Lower(text) == "true" || Lower(text) == "false"
  }

  function WordValue(text: string): Value {
    if Lower(text) == "null" then Null else if Lower(text) == "true" then Bool(true) else Bool(false)
  }

  // ---------------------------------------------------------------- trees

  datatype Tree =
    | Word(text: string)
    | Numeral(number: NumberText)
    | Quoted(chars: seq<Spelling>)
    | Listed(inner: string, elements: seq<Element>)
    | Braced(inner: string, members: seq<Member>)

  /** A value between spaces. */
  datatype Element = Element(front: string, tree: Tree, back: string)

  datatype Member = Member(front: string, key: seq<Spelling>, back: string, value: Element)

  function Text(tree: Tree): string
    decreases tree, 1
  {
    match tree
    case Word(text) => text
    case Numeral(number) => NumberSpelled(number)
    case Quoted(chars) => "\"" + (Spelled(chars) + "\"")
    case Listed(inner, elements) => "[" + (inner + (ElementsText(elements) + "]"))
    case Braced(inner, members) => "{" + (inner + (MembersText(members) + "}"))
  }

  function ElementText(e: Element): string
    decreases e, 2
  {
    e.front + (Text(e.tree) + e.back)
  }

  function ElementsText(elements: seq<Element>): string
    decreases elements, 0
  {
    if elements == [] then ""
    else if |elements| == 1 then ElementText(elements[0])
    else ElementText(elements[0]) + ("," + ElementsText(elements[1..]))
  }

  function MemberText(m: Member): string
    decreases m, 3
  {
    m.front + ("\"" + (Spelled(m.key) + ("\"" + (m.back + (":" + ElementText(m.value))))))
  }

  function MembersText(members: seq<Member>): string
    decreases members, 0
  {
    if members == [] then ""
    else if |members| == 1 then MemberText(members[0])
    else MemberText(members[0]) + ("," + MembersText(members[1..]))
  }

  /** A well-formed value inside of `level` arrays. */
  predicate Well(tree: Tree, level: nat)
    decreases tree, 1
  {
    match tree
    case Word(text) => IsWord(text)
    case Numeral(number) => IsNumber(number)
    case Quoted(chars) => AllSpell(chars)
    case Listed(inner, elements) => level < 512 && AllSpaces(inner) && WellElements(elements, level + 1)
    case Braced(inner, members) => level < 512 && AllSpaces(inner) && WellMembers(members, level + 1)
  }

  predicate WellElement(e: Element, level: nat)
    decreases e, 2
  {
    AllSpaces(e.front) && AllSpaces(e.back) && Well(e.tree, level)
  }

  predicate WellElements(elements: seq<Element>, level: nat)
    decreases elements, 0
  {
    elements != [] ==> WellElement(elements[0], level) && WellElements(elements[1..], level)
  }

  predicate WellMember(m: Member, level: nat)
    decreases m, 3
  {
    AllSpaces(m.front) && AllSpell(m.key) && AllSpaces(m.back) && WellElement(m.value, level)
  }

  predicate WellMembers(members: seq<Member>, level: nat)
    decreases members, 0
  {
    members != [] ==> WellMember(members[0], level) && WellMembers(members[1..], level)
  }

  /** The value: words by their letters, lists with the keys 0, 1, ..., members put one after another. */
  function ValueOf(tree: Tree, level: nat): Value
    requires Well(tree, level)
    decreases tree, 1
  {
    match tree
    case Word(text) => WordValue(text)
    case Numeral(number) => NumberValue(number)
    case Quoted(chars) => Str(Chars(chars))
    case Listed(_, elements) => Array(EntriesOf(elements, level + 1, 0))
    case Braced(_, members) => Array(PutAll([], members, level + 1))
  }

  function ElementValue(e: Element, level: nat): Value
    requires WellElement(e, level)
    decreases e, 2
  {
    ValueOf(e.tree, level)
  }

  /** The entries under the keys n, n + 1, ... */
  function EntriesOf(elements: seq<Element>, level: nat, n: nat): seq<Entry>
    requires WellElements(elements, level)
    decreases elements, 0
  {
    if elements == [] then []
    else [Entry(IntKey(n), ElementValue(elements[0], level))] + EntriesOf(elements[1..], level, n + 1)
  }

  function MemberValue(m: Member, level: nat): Value
    requires WellMember(m, level)
    decreases m, 3
  {
    ElementValue(m.value, level)
  }

  function PutAll(entries: seq<Entry>, members: seq<Member>, level: nat): seq<Entry>
    requires WellMembers(members, level)
    decreases members, 0
  {
    if members == [] then entries
    else
      PutAll(Put(entries, ToKey(Chars(members[0].key)), MemberValue(members[0], level)), members[1..], level)
  }

  // ---------------------------------------------------------------- spaces

  lemma {:induction false} SpacesSkipped(front: string, t: string)
    requires AllSpaces(front)
    ensures SkipSpace(front + t) == SkipSpace(t)
  {
    if front == "" {
      assert front + t == t;
    } else {
      assert (front + t)[1..] == front[1..] + t;
      SpacesSkipped(front[1..], t);
    }
  }

  /** What is skipped are spaces, and all of those. */
  lemma {:induction false} SkippedSpaces(s: string) returns (front: string)
    ensures AllSpaces(front) && s == front + SkipSpace(s)
    ensures SkipSpace(s) != "" ==> !IsSpace(SkipSpace(s)[0])
    ensures SkipSpace(SkipSpace(s)) == SkipSpace(s)
  {
    if s != "" && IsSpace(s[0]) {
      var rest := SkippedSpaces(s[1..]);
      front := [s[0]] + rest;
    } else {
      front := "";
    }
  }

  // ---------------------------------------------------------------- strings

  lemma {:induction false} HexIs(c: char)
    ensures HexValue(c) == if IsHex(c) then Some(HexOf(c)) else None
  {
  }

  lemma {:induction false} UnitIs(s: string)
    ensures |s| >= 6 ==> ReadUnit(s) == if IsUnit(s[..6]) then Some(UnitOf(s[..6])) else None
    ensures |s| < 6 ==> ReadUnit(s) == None
  {
    if |s| >= 6 {
      HexIs(s[2]);
      HexIs(s[3]);
      HexIs(s[4]);
      HexIs(s[5]);
    }
  }

  lemma {:induction false} UnescapeIs(letter: char, c: char)
    ensures Unescape(letter) == Some(c) <==> IsShort(letter, c)
  {
  }

  lemma {:induction false} SpelledReads(p: Spelling, t: string)
    requires Spells(p)
    ensures p.text != "" && p.text[0] != '"' && ReadChar(p.text + t) == Ok(p.c, t)
  {
    var s, n := p.text + t, p.c as int;
    if p.text == [p.c] && n >= 32 && p.c != '"' && p.c != '\\' {
      assert s[1..] == t;
    } else if |p.text| == 2 {
      UnescapeIs(p.text[1], p.c);
      assert s[1] == p.text[1] && s[2..] == t;
    } else if IsUnit(p.text) {
      UnitIs(s);
      assert s[..6] == p.text && s[6..] == t;
    } else {
      UnitIs(s);
      UnitIs(s[6..]);
      assert s[..6] == p.text[..6] && s[6..][..6] == p.text[6..] && s[12..] == t;
    }
  }

  lemma {:induction false} ReadIsSpelled(s: string)
    requires s != "" && s[0] != '"' && ReadChar(s).Ok?
    ensures var n := |s| - |ReadChar(s).rest|;
      && 0 <= n && s[n..] == ReadChar(s).rest && Spells(Spelling(s[..n], ReadChar(s).value))
  {
    UnitIs(s);
    if |s| >= 6 {
      UnitIs(s[6..]);
    }
    if s[0] == '\\' && |s| > 1 && s[1] != 'u' {
      UnescapeIs(s[1], ReadChar(s).value);
    }
  }

  lemma {:induction false} Regroup(a: string, b: string, c: string)
    ensures (a + b) + c == a + (b + c)
  {
  }

  lemma {:induction false} RegroupTwice(a: string, b: string, c: string, d: string)
    ensures (a + (b + c)) + d == a + (b + (c + d))
  {
  }

  lemma {:induction false} SpelledFirst(p: Spelling, rest: seq<Spelling>)
    ensures Spelled([p] + rest) == p.text + Spelled(rest) && Chars([p] + rest) == [p.c] + Chars(rest)
    ensures AllSpell([p] + rest) <==> Spells(p) && AllSpell(rest)
  {
    hide Spells;
    var all := [p] + rest;
    assert all[1..] == rest && all[0] == p;
    assert AllSpell(rest) ==> forall i :: 1 <= i < |all| ==> all[i] == rest[i - 1] && Spells(rest[i - 1]);
    if AllSpell(all) {
      forall i | 0 <= i < |rest|
        ensures Spells(rest[i])
      {
        assert Spells(all[i + 1]);
      }
    }
  }

  lemma {:induction false} CharsReadBack(chars: seq<Spelling>, t: string)
    requires AllSpell(chars)
    ensures ReadChars(Spelled(chars) + ("\"" + t)) == Ok(Chars(chars), t)
  {
    if chars == [] {
      assert Spelled(chars) + ("\"" + t) == "\"" + t && ("\"" + t)[1..] == t;
    } else {
      hide ReadChars, ReadChar, Spells, Spelled, Chars;
      var p, rest := chars[0], chars[1..];
      assert chars == [p] + rest;
      SpelledFirst(p, rest);
      var u := Spelled(rest) + ("\"" + t);
      CharsReadBack(rest, t);
      SpelledReads(p, u);
      Regroup(p.text, Spelled(rest), "\"" + t);
      CharsStep(p.text + u, p.c, u, Chars(rest), t);
    }
  }

  lemma {:induction false} ReadCharsParts(s: string)
    requires ReadChars(s).Ok?
    ensures s != "" && (s[0] == '"' ==> ReadChars(s) == Ok("", s[1..]) && s == "\"" + s[1..])
    ensures s[0] != '"' ==>
      && ReadChar(s).Ok? && ReadChars(ReadChar(s).rest).Ok? && |ReadChar(s).rest| < |s|
      && ReadChars(s).value == [ReadChar(s).value] + ReadChars(ReadChar(s).rest).value
      && ReadChars(s).rest == ReadChars(ReadChar(s).rest).rest
  {
    hide ReadChar;
  }

  lemma {:induction false} ReadCharsAreSpelled(s: string) returns (chars: seq<Spelling>)
    requires ReadChars(s).Ok?
    ensures AllSpell(chars) && Chars(chars) == ReadChars(s).value
    ensures s == Spelled(chars) + ("\"" + ReadChars(s).rest)
    decreases |s|
  {
    hide ReadChars, ReadChar, Spells, Spelled, Chars, AllSpell;
    ReadCharsParts(s);
    if s[0] == '"' {
      chars := [];
      NoChars(s);
    } else {
      ReadIsSpelled(s);
      var u, t := ReadChar(s).rest, ReadChars(s).rest;
      var n := |s| - |u|;
      var first := Spelling(s[..n], ReadChar(s).value);
      var rest := ReadCharsAreSpelled(u);
      chars := [first] + rest;
      SpelledFirst(first, rest);
      Regroup(first.text, Spelled(rest), "\"" + t);
      Divided(s, n);
    }
  }

  lemma {:induction false} NoChars(s: string)
    ensures AllSpell([]) && Chars([]) == "" && Spelled([]) + s == s
  {
    assert "" + s == s;
  }

  lemma {:induction false} Divided(s: string, n: nat)
    requires n <= |s|
    ensures s[..n] + s[n..] == s
  {
  }

  // ---------------------------------------------------------------- numbers

  /** What stands behind a value. */
  predicate Ends(t: string) {
    t == "" || IsSpace(t[0]) || t[0] == ',' || t[0] == ']' || t[0] == '}'
  }

  lemma {:induction false} FractionReads(n: NumberText, t: string)
    requires IsNumber(n) && (t == "" || (!IsDigit(t[0]) && t[0] != '.'))
    ensures FractionEnd(FractionText(n) + t) == Some(t)
  {
    if n.fraction.Some? {
      SpanDigitsExact(n.fraction.value, t);
      assert (FractionText(n) + t)[1..] == n.fraction.value + t;
    } else {
      assert FractionText(n) + t == t;
    }
  }

  /** The mark of an exponent: its letter, and its sign if there is one. */
  predicate IsMark(mark: string) {
    mark != "" && (mark[0] == 'e' || mark[0] == 'E') &&
    (|mark| == 1 || (|mark| == 2 && (mark[1] == '+' || mark[1] == '-')))
  }

  lemma {:induction false} MarkedReads(mark: string, digits: string, t: string)
    requires IsMark(mark) && IsDigits(digits) && Ends(t)
    ensures ExponentEnd(mark + (digits + t)) == Some(t)
  {
    SpanDigitsExact(digits, t);
    hide SpanDigits;
    var s := mark + (digits + t);
    assert s[0] == mark[0] && s[|mark|..] == digits + t && IsDigit(digits[0]);
    if |mark| == 1 {
      assert s[1] == digits[0];
    } else {
      assert s[1] == mark[1];
    }
  }

  lemma {:induction false} ExponentReads(n: NumberText, t: string)
    requires IsNumber(n) && Ends(t)
    ensures ExponentEnd(ExponentText(n) + t) == Some(t)
  {
    hide ExponentEnd, Ends;
    if n.exponent.Some? {
      var e := n.exponent.value;
      var k := if IsDigits(e[1..]) then 1 else 2;
      hide IsDigits;
      MarkedReads(e[..k], e[k..], t);
      Regroup(e[..k], e[k..], t);
      assert e == e[..k] + e[k..];
    } else {
      assert ExponentText(n) + t == t;
      NoExponent(t);
    }
  }

  lemma {:induction false} NoExponent(t: string)
    requires Ends(t)
    ensures ExponentEnd(t) == Some(t)
  {
  }

  lemma {:induction false} NumberParts(n: NumberText, t: string)
    requires IsNumber(n) && Ends(t)
    ensures var rest := FractionText(n) + (ExponentText(n) + t);
      && SpanDigits(n.digits + rest) == (n.digits, rest)
      && FractionEnd(rest) == Some(ExponentText(n) + t)
      && ExponentEnd(ExponentText(n) + t) == Some(t)
      && (rest == t <==> n.fraction.None? && n.exponent.None?)
  {
    var rest := FractionText(n) + (ExponentText(n) + t);
    assert rest == "" || !IsDigit(rest[0]);
    SpanDigitsExact(n.digits, rest);
    FractionReads(n, ExponentText(n) + t);
    ExponentReads(n, t);
    assert |rest| == |FractionText(n)| + |ExponentText(n)| + |t|;
  }

  /** The parts that a number is read in. */
  lemma {:induction false} ReadNumberParts(negative: bool, ds: string, rest: string, mid: string, t: string, s: string)
    requires ds != "" && AllDigits(ds) && s == (if negative then "-" else "") + ds + rest
    requires SpanDigits(ds + rest) == (ds, rest) && FractionEnd(rest) == Some(mid) && ExponentEnd(mid) == Some(t)
    ensures ReadNumber(s) ==
            if ds[0] == '0' && |ds| > 1 then Fail
            else if t == rest && InRange(Signed(negative, DigitsValue(ds))) && !(negative && ds == "0")
            then Ok(Int(Signed(negative, DigitsValue(ds))), rest)
            else Ok(Float(s[..|s| - |t|]), t)
  {
    hide SpanDigits, FractionEnd, ExponentEnd, DigitsValue;
    assert IsDigit(ds[0]);
    if negative {
      assert s[0] == '-' && s[1..] == ds + rest;
    } else {
      assert s == ds + rest;
    }
  }

  lemma {:induction false} NumberReadBack(n: NumberText, t: string)
    requires IsNumber(n) && Ends(t)
    ensures NumberSpelled(n) != "" && (NumberSpelled(n)[0] == '-' || IsDigit(NumberSpelled(n)[0]))
    ensures ReadNumber(NumberSpelled(n) + t) == Ok(NumberValue(n), t)
  {
    NumberParts(n, t);
    hide SpanDigits, FractionEnd, ExponentEnd, DigitsValue, FractionText, ExponentText, ReadNumber;
    var s, rest := NumberSpelled(n) + t, FractionText(n) + (ExponentText(n) + t);
    NumberJoined(if n.negative then "-" else "", n.digits, FractionText(n), ExponentText(n), t);
    assert IsDigit(n.digits[0]);
    ReadNumberParts(n.negative, n.digits, rest, ExponentText(n) + t, t, s);
    assert s[..|s| - |t|] == NumberSpelled(n);
  }

  lemma {:induction false} NumberJoined(sign: string, ds: string, f: string, e: string, t: string)
    ensures (sign + (ds + (f + e))) + t == sign + ds + (f + (e + t))
  {
  }

  lemma {:induction false} FractionIs(s: string) returns (fraction: Option<string>)
    requires FractionEnd(s).Some?
    ensures fraction.Some? ==> IsDigits(fraction.value)
    ensures s == (if fraction.Some? then "." + fraction.value else "") + FractionEnd(s).value
    ensures fraction.None? <==> FractionEnd(s).value == s
  {
    if s != "" && s[0] == '.' {
      fraction := Some(SpanDigits(s[1..]).0);
      assert s == "." + s[1..];
    } else {
      fraction := None;
      assert "" + s == s;
    }
  }

  lemma {:induction false} ExponentIs(s: string) returns (exponent: Option<string>)
    requires ExponentEnd(s).Some?
    ensures exponent.Some? ==> IsExponent(exponent.value)
    ensures s == exponent.GetOr("") + ExponentEnd(s).value
    ensures exponent.None? <==> ExponentEnd(s).value == s
  {
    if s != "" && (s[0] == 'e' || s[0] == 'E') {
      var k := if |s| > 1 && (s[1] == '+' || s[1] == '-') then 2 else 1;
      var (digits, rest) := SpanDigits(s[k..]);
      hide SpanDigits;
      assert ExponentEnd(s).value == rest && digits != "";
      ExponentOf(s[..k], digits);
      exponent := Some(s[..k] + digits);
      assert s == s[..k] + s[k..];
      Regroup(s[..k], digits, rest);
    } else {
      exponent := None;
      assert "" + s == s;
    }
  }

  lemma {:induction false} ExponentOf(mark: string, digits: string)
    requires IsMark(mark) && IsDigits(digits)
    ensures IsExponent(mark + digits)
  {
    assert (mark + digits)[|mark|..] == digits;
  }

  lemma {:induction false} ReadNumberHas(s: string)
    requires s != "" && ReadNumber(s).Ok?
    ensures var (ds, rest) := SpanDigits(if s[0] == '-' then s[1..] else s);
      && IsDigits(ds) && (ds[0] == '0' ==> |ds| == 1)
      && FractionEnd(rest).Some? && ExponentEnd(FractionEnd(rest).value) == Some(ReadNumber(s).rest)
  {
    hide FractionEnd, ExponentEnd, DigitsValue, SpanDigits;
  }

  lemma {:induction false} NumberSign(s: string)
    requires s != ""
    ensures var (ds, rest) := SpanDigits(if s[0] == '-' then s[1..] else s);
      s == (if s[0] == '-' then "-" else "") + ds + rest
  {
    var (ds, rest) := SpanDigits(if s[0] == '-' then s[1..] else s);
    hide SpanDigits;
    if s[0] == '-' {
      assert s == "-" + s[1..];
      Regroup("-", ds, rest);
    } else {
      assert "" + ds == ds;
    }
  }

  lemma {:induction false} ReadNumberIs(s: string) returns (n: NumberText)
    requires s != "" && ReadNumber(s).Ok?
    ensures IsNumber(n) && NumberValue(n) == ReadNumber(s).value
    ensures s == NumberSpelled(n) + ReadNumber(s).rest
  {
    ReadNumberHas(s);
    NumberSign(s);
    hide FractionEnd, ExponentEnd, DigitsValue, ReadNumber;
    var negative := s[0] == '-';
    var (ds, rest) := SpanDigits(if negative then s[1..] else s);
    var fraction := FractionIs(rest);
    var exponent := ExponentIs(FractionEnd(rest).value);
    var t := ReadNumber(s).rest;
    n := NumberText(negative, ds, fraction, exponent);
    assert |ds| == 1 && ds[0] == '0' ==> ds == "0";
    hide SpanDigits;
    assert rest == FractionText(n) + (ExponentText(n) + t);
    NumberJoined(if negative then "-" else "", ds, FractionText(n), ExponentText(n), t);
    assert s == NumberSpelled(n) + t;
    NumberReadValue(s, n, rest, t);
  }

  lemma {:induction false} NumberReadValue(s: string, n: NumberText, rest: string, t: string)
    requires s != "" && IsNumber(n) && s == NumberSpelled(n) + t
    requires rest == FractionText(n) + (ExponentText(n) + t)
    requires n.negative == (s[0] == '-') && SpanDigits(if n.negative then s[1..] else s) == (n.digits, rest)
    requires FractionEnd(rest) == Some(ExponentText(n) + t) && ExponentEnd(ExponentText(n) + t) == Some(t)
    ensures ReadNumber(s) == Ok(NumberValue(n), t)
  {
    hide FractionEnd, ExponentEnd, DigitsValue;
    NumberJoined(if n.negative then "-" else "", n.digits, FractionText(n), ExponentText(n), t);
    assert (if n.negative then s[1..] else s) == n.digits + rest;
    ReadNumberParts(n.negative, n.digits, rest, ExponentText(n) + t, t, s);
    assert s[..|s| - |t|] == NumberSpelled(n);
    assert |rest| == |FractionText(n)| + |ExponentText(n)| + |t|;
    assert t == rest <==> n.fraction.None? && n.exponent.None?;
  }

  // ---------------------------------------------------------------- words

  lemma {:induction false} WordStarts(text: string)
    requires IsWord(text)
    ensures text != "" && text[0] in ['n', 'N', 't', 'T', 'f', 'F']
    ensures |text| == if Lower(text) == "false" then 5 else 4
    ensures LowerChar(text[0]) == if Lower(text) == "null" then 'n' else if Lower(text) == "true" then 't' else 'f'
  {
    assert |Lower(text)| == |text|;
    assert text != "" ==> Lower(text)[0] == LowerChar(text[0]);
  }

  lemma {:induction false} WordReadBack(text: string, u: string)
    requires IsWord(text)
    ensures ReadLiteral(text + u) == Ok(WordValue(text), u)
  {
    WordStarts(text);
    var s := text + u;
    assert s[..|text|] == text && s[|text|..] == u;
    assert Lower(s[..4])[0] == LowerChar(s[0]);
  }

  lemma {:induction false} ReadLiteralIs(s: string)
    requires ReadLiteral(s).Ok?
    ensures var n := |s| - |ReadLiteral(s).rest|;
      && 0 <= n && s[n..] == ReadLiteral(s).rest && IsWord(s[..n]) && WordValue(s[..n]) == ReadLiteral(s).value
  {
  }

  // ---------------------------------------------------------------- one value

  predicate Begins(c: char) {
    !IsSpace(c) && c != ']' && c != '}'
  }

  lemma {:induction false} TextBegins(tree: Tree, level: nat)
    requires Well(tree, level)
    ensures Text(tree) != "" && Begins(Text(tree)[0])
  {
    hide Spelled, NumberSpelled, IsNumber, IsWord, AllSpell, ElementsText, MembersText, WellElements, WellMembers,
      AllSpaces;
    match tree {
      case Word(text) => WordStarts(text);
      case Numeral(number) => NumberReadBack(number, "");
      case _ =>
    }
  }

  lemma {:induction false} ReadBehindSpaces(front: string, s: string, level: nat)
    requires AllSpaces(front)
    ensures Read(front + s, level) == Read(s, level)
  {
    SpacesSkipped(front, s);
    hide ReadString, ReadList, ReadObject, ReadNumber, ReadLiteral, SkipSpace;
  }

  /** Which reader a value is left to. */
  lemma {:induction false} ReadBranch(s: string, level: nat)
    requires s != "" && !IsSpace(s[0])
    ensures Read(s, level) ==
            if s[0] == '"' then ReadString(s[1..])
            else if s[0] == '[' then ReadList(s[1..], level)
            else if s[0] == '{' then ReadObject(s[1..], level)
            else if s[0] == '-' || IsDigit(s[0]) then ReadNumber(s)
            else ReadLiteral(s)
  {
    hide ReadString, ReadList, ReadObject, ReadNumber, ReadLiteral;
  }

  lemma {:induction false} WordTreeReads(text: string, u: string, level: nat)
    requires IsWord(text)
    ensures Read(text + u, level) == Ok(WordValue(text), u)
  {
    WordStarts(text);
    WordReadBack(text, u);
    assert (text + u)[0] == text[0];
    hide Lower, WordValue, ReadLiteral;
    ReadBranch(text + u, level);
  }

  lemma {:induction false} NumberTreeReads(n: NumberText, u: string, level: nat)
    requires IsNumber(n) && Ends(u)
    ensures Read(NumberSpelled(n) + u, level) == Ok(NumberValue(n), u)
  {
    NumberReadBack(n, u);
    hide NumberSpelled, NumberValue, ReadNumber;
    assert (NumberSpelled(n) + u)[0] == NumberSpelled(n)[0];
    ReadBranch(NumberSpelled(n) + u, level);
  }

  lemma {:induction false} StringTreeReads(chars: seq<Spelling>, u: string, level: nat)
    requires AllSpell(chars)
    ensures Read("\"" + (Spelled(chars) + "\"") + u, level) == Ok(Str(Chars(chars)), u)
  {
    CharsReadBack(chars, u);
    hide AllSpell, Spelled, Chars, ReadChars, Read;
    RegroupTwice("\"", Spelled(chars), "\"", u);
    var rest := Spelled(chars) + ("\"" + u);
    assert ("\"" + rest)[0] == '"' && ("\"" + rest)[1..] == rest;
    ReadBranch("\"" + rest, level);
  }

  // ---------------------------------------------------------------- one step of a list or an object

  lemma {:induction false} ElementsTurn(s: string, level: nat, acc: seq<Entry>)
    ensures var v := Read(s, level);
      if v.Fail? then ReadElements(s, level, acc).Fail?
      else
        var t, more := SkipSpace(v.rest), acc + [Entry(IntKey(|acc|), v.value)];
        if t != "" && t[0] == ']' then ReadElements(s, level, acc) == Ok(more, t[1..])
        else if t != "" && t[0] == ',' then ReadElements(s, level, acc) == ReadElements(t[1..], level, more)
        else ReadElements(s, level, acc).Fail?
  {
    hide Read, SkipSpace;
  }

  /** What a member is read from: its key, and what follows key and colon. */
  predicate MemberHead(s: string, key: string, rest: string) {
    var t := SkipSpace(s);
    && t != "" && t[0] == '"' && ReadChars(t[1..]).Ok? && ReadChars(t[1..]).value == key
    && var u := SkipSpace(ReadChars(t[1..]).rest);
       u != "" && u[0] == ':' && u[1..] == rest
  }

  lemma {:induction false} MembersTurn(s: string, level: nat, acc: seq<Entry>, key: string, rest: string)
    requires MemberHead(s, key, rest)
    ensures var v := Read(rest, level);
      if v.Fail? then ReadMembers(s, level, acc).Fail?
      else
        var t, more := SkipSpace(v.rest), Put(acc, ToKey(key), v.value);
        if t != "" && t[0] == '}' then ReadMembers(s, level, acc) == Ok(more, t[1..])
        else if t != "" && t[0] == ',' then ReadMembers(s, level, acc) == ReadMembers(t[1..], level, more)
        else ReadMembers(s, level, acc).Fail?
  {
    hide Read, SkipSpace, ReadChars, Put, ToKey;
  }

  lemma {:induction false} MembersHaveHead(s: string, level: nat, acc: seq<Entry>) returns (key: string, rest: string)
    requires ReadMembers(s, level, acc).Ok?
    ensures MemberHead(s, key, rest) && |rest| < |s|
  {
    hide Read, Put, ToKey;
    var t := SkipSpace(s);
    var k := ReadChars(t[1..]);
    var u := SkipSpace(k.rest);
    key, rest := k.value, u[1..];
  }

  // ---------------------------------------------------------------- every tree is read

  lemma {:induction false} SpacesEnd(back: string, t: string)
    requires AllSpaces(back) && Ends(t)
    ensures Ends(back + t) && SkipSpace(back + t) == SkipSpace(t)
  {
    SpacesSkipped(back, t);
    assert back == "" ==> back + t == t;
  }

  lemma {:induction false} TreeReads(tree: Tree, level: nat, u: string)
    requires Well(tree, level) && Ends(u)
    ensures Read(Text(tree) + u, level) == Ok(ValueOf(tree, level), u)
    decreases tree, 1
  {
    hide Read, Spelled, Chars, NumberSpelled, NumberValue, IsNumber, AllSpell, WordValue, IsWord, Ends;
    match tree {
      case Word(text) => WordTreeReads(text, u, level);
      case Numeral(number) => NumberTreeReads(number, u, level);
      case Quoted(chars) => StringTreeReads(chars, u, level);
      case Listed(inner, elements) => ListTreeReads(inner, elements, level, u);
      case Braced(inner, members) => ObjectTreeReads(inner, members, level, u);
    }
  }

  lemma {:induction false} ElementReads(e: Element, level: nat, t: string)
    requires WellElement(e, level) && Ends(t)
    ensures Read(ElementText(e) + t, level) == Ok(ElementValue(e, level), e.back + t)
    ensures SkipSpace(e.back + t) == SkipSpace(t)
    decreases e, 2
  {
    hide Read, Text, SkipSpace, AllSpaces, Ends, Well, ValueOf;
    SpacesEnd(e.back, t);
    TreeReads(e.tree, level, e.back + t);
    ReadBehindSpaces(e.front, Text(e.tree) + (e.back + t), level);
    RegroupTwice(e.front, Text(e.tree), e.back, t);
  }

  lemma {:induction false} ElementBegins(e: Element, level: nat, t: string)
    requires WellElement(e, level)
    ensures SkipSpace(ElementText(e) + t) != "" && Begins(SkipSpace(ElementText(e) + t)[0])
  {
    TextBegins(e.tree, level);
    var body := Text(e.tree) + (e.back + t);
    assert body[0] == Text(e.tree)[0];
    hide Text;
    assert ElementText(e) + t == e.front + body;
    SpacesSkipped(e.front, body);
  }

  /** What stands behind the first element of a list up to its end. */
  function BehindElement(rest: seq<Element>, end: string): string {
    if rest == [] then end else "," + (ElementsText(rest) + end)
  }

  lemma {:induction false} FirstElementText(elements: seq<Element>, end: string)
    requires elements != [] && end != ""
    ensures ElementsText(elements) + end == ElementText(elements[0]) + BehindElement(elements[1..], end)
    ensures BehindElement(elements[1..], end)[1..] ==
            if elements[1..] == [] then end[1..] else ElementsText(elements[1..]) + end
  {
    hide ElementText;
  }

  lemma {:induction false} BehindEnds(rest: seq<Element>, end: string)
    requires end != "" && end[0] == ']'
    ensures var t := BehindElement(rest, end);
      t != "" && Ends(t) && SkipSpace(t) == t && t[0] == if rest == [] then ']' else ','
  {
    hide ElementsText;
  }

  lemma {:induction false} BehindMemberEnds(rest: seq<Member>, end: string)
    requires end != "" && end[0] == '}'
    ensures var t := BehindMember(rest, end);
      t != "" && Ends(t) && SkipSpace(t) == t && t[0] == if rest == [] then '}' else ','
  {
    hide MembersText;
  }

  lemma {:induction false} NoEntries(level: nat, n: nat, acc: seq<Entry>)
    ensures EntriesOf([], level, n) == [] && PutAll(acc, [], level) == acc && acc + [] == acc
  {
  }

  lemma {:induction false} ElementsReadBack(elements: seq<Element>, level: nat, acc: seq<Entry>, u: string)
    requires elements != [] && WellElements(elements, level)
    ensures ReadElements(ElementsText(elements) + ("]" + u), level, acc) ==
            Ok(acc + EntriesOf(elements, level, |acc|), u)
    decreases elements, 0
  {
    var first, rest := elements[0], elements[1..];
    var more := acc + [Entry(IntKey(|acc|), ElementValue(first, level))];
    assert acc + EntriesOf(elements, level, |acc|) == more + EntriesOf(rest, level, |more|);
    hide Read, ReadElements, ElementText, ElementValue, ElementsText, EntriesOf, WellElement, SkipSpace, BehindElement;
    var t := BehindElement(rest, "]" + u);
    BehindEnds(rest, "]" + u);
    FirstElementText(elements, "]" + u);
    assert ("]" + u)[1..] == u;
    ElementReads(first, level, t);
    ElementsTurn(ElementText(first) + t, level, acc);
    if rest == [] {
      NoEntries(level, |more|, more);
    } else {
      ElementsReadBack(rest, level, more, u);
    }
  }

  lemma {:induction false} ElementsBegin(elements: seq<Element>, level: nat, t: string)
    requires elements != [] && WellElements(elements, level)
    ensures var s := SkipSpace(ElementsText(elements) + t); s != "" && Begins(s[0])
  {
    hide ElementText, SkipSpace, Begins, WellElement;
    var tail := if |elements| == 1 then t else "," + ElementsText(elements[1..]) + t;
    assert ElementsText(elements) + t == ElementText(elements[0]) + tail;
    ElementBegins(elements[0], level, tail);
  }

  lemma {:induction false} ReadElementsBehindSpaces(front: string, s: string, level: nat, acc: seq<Entry>)
    requires AllSpaces(front)
    ensures ReadElements(front + s, level, acc) == ReadElements(s, level, acc)
  {
    ReadBehindSpaces(front, s, level);
    ElementsTurn(s, level, acc);
    ElementsTurn(front + s, level, acc);
    hide Read, ReadElements, SkipSpace;
  }

  /** The elements behind an opening bracket. */
  lemma {:induction false} ReadListOf(inner: string, s: string, level: nat)
    requires AllSpaces(inner) && level < 512
    ensures SkipSpace(s) != "" && SkipSpace(s)[0] == ']' ==>
      ReadList(inner + s, level) == Ok(Array([]), SkipSpace(s)[1..])
    ensures SkipSpace(s) != "" && SkipSpace(s)[0] != ']' ==>
      var es := ReadElements(s, level + 1, []);
      ReadList(inner + s, level) == if es.Fail? then Fail else Ok(Array(es.value), es.rest)
  {
    SpacesSkipped(inner, s);
    var front := SkippedSpaces(s);
    ReadElementsBehindSpaces(front, SkipSpace(s), level + 1, []);
    hide ReadElements, SkipSpace;
  }

  lemma {:induction false} ListTreeReads(inner: string, elements: seq<Element>, level: nat, u: string)
    requires Well(Listed(inner, elements), level)
    ensures Read(Text(Listed(inner, elements)) + u, level) == Ok(ValueOf(Listed(inner, elements), level), u)
    decreases elements, 1
  {
    hide Read, ReadElements, EntriesOf, ElementsText, WellElements, AllSpaces, SkipSpace;
    var s := ElementsText(elements) + ("]" + u);
    assert Text(Listed(inner, elements)) + u == ['['] + (inner + s);
    JsonRoundTrip.BracketReads(inner + s, level);
    ReadListOf(inner, s, level);
    if elements == [] {
      EmptyClosed(u);
      NoEntries(level + 1, 0, []);
    } else {
      ElementsBegin(elements, level + 1, "]" + u);
      ElementsReadBack(elements, level + 1, [], u);
      assert [] + EntriesOf(elements, level + 1, 0) == EntriesOf(elements, level + 1, 0);
    }
  }

  lemma {:induction false} EmptyClosed(u: string)
    ensures ElementsText([]) + ("]" + u) == "]" + u && SkipSpace("]" + u) == "]" + u && ("]" + u)[1..] == u
    ensures MembersText([]) + ("}" + u) == "}" + u && SkipSpace("}" + u) == "}" + u && ("}" + u)[1..] == u
  {
  }

  /** The text of a member up to its value. */
  function HeadText(m: Member): string {
    m.front + ("\"" + (Spelled(m.key) + ("\"" + (m.back + ":"))))
  }

  lemma {:induction false} MemberSplits(m: Member, t: string)
    ensures MemberText(m) + t == HeadText(m) + (ElementText(m.value) + t)
  {
    hide ElementText, Spelled;
  }

  lemma {:induction false} HeadReads(m: Member, rest: string)
    requires AllSpaces(m.front) && AllSpell(m.key) && AllSpaces(m.back)
    ensures MemberHead(HeadText(m) + rest, Chars(m.key), rest)
  {
    hide ReadChars, AllSpell, Spelled, Chars;
    var behind := m.back + (":" + rest);
    var quoted := "\"" + (Spelled(m.key) + ("\"" + behind));
    assert HeadText(m) + rest == m.front + quoted;
    SpacesSkipped(m.front, quoted);
    assert quoted[1..] == Spelled(m.key) + ("\"" + behind);
    CharsReadBack(m.key, behind);
    SpacesSkipped(m.back, ":" + rest);
    assert (":" + rest)[1..] == rest;
  }

  function BehindMember(rest: seq<Member>, end: string): string {
    if rest == [] then end else "," + (MembersText(rest) + end)
  }

  lemma {:induction false} FirstMemberText(members: seq<Member>, end: string)
    requires members != [] && end != ""
    ensures MembersText(members) + end == MemberText(members[0]) + BehindMember(members[1..], end)
    ensures BehindMember(members[1..], end)[1..] ==
            if members[1..] == [] then end[1..] else MembersText(members[1..]) + end
  {
    hide MemberText;
  }

  lemma {:induction false} MemberReads(m: Member, level: nat, acc: seq<Entry>, t: string)
    requires WellMember(m, level) && Ends(t)
    ensures MemberHead(MemberText(m) + t, Chars(m.key), ElementText(m.value) + t)
    ensures Read(ElementText(m.value) + t, level) == Ok(MemberValue(m, level), m.value.back + t)
    ensures SkipSpace(m.value.back + t) == SkipSpace(t)
    decreases m, 3
  {
    hide Read, MemberHead, AllSpell, ElementText, AllSpaces, Chars, SkipSpace;
    MemberSplits(m, t);
    HeadReads(m, ElementText(m.value) + t);
    ElementReads(m.value, level, t);
  }

  lemma {:induction false} MembersReadBack(members: seq<Member>, level: nat, acc: seq<Entry>, u: string)
    requires members != [] && WellMembers(members, level)
    ensures ReadMembers(MembersText(members) + ("}" + u), level, acc) == Ok(PutAll(acc, members, level), u)
    decreases members, 0
  {
    var first, rest := members[0], members[1..];
    var more := Put(acc, ToKey(Chars(first.key)), MemberValue(first, level));
    assert PutAll(acc, members, level) == PutAll(more, rest, level);
    hide Read, ReadMembers, MemberText, MemberValue, MembersText, PutAll, Put, MemberHead, Chars, ToKey, WellMember,
      SkipSpace, BehindMember;
    var t := BehindMember(rest, "}" + u);
    BehindMemberEnds(rest, "}" + u);
    FirstMemberText(members, "}" + u);
    assert ("}" + u)[1..] == u;
    MemberReads(first, level, acc, t);
    MembersTurn(MemberText(first) + t, level, acc, Chars(first.key), ElementText(first.value) + t);
    if rest == [] {
      NoEntries(level, 0, more);
    } else {
      MembersReadBack(rest, level, more, u);
    }
  }

  lemma {:induction false} MembersBegin(members: seq<Member>, level: nat, t: string)
    requires members != [] && WellMembers(members, level)
    ensures var s := SkipSpace(MembersText(members) + t); s != "" && s[0] == '"'
  {
    hide ElementText, WellElement, Spelled, SkipSpace;
    var m := members[0];
    var tail := if |members| == 1 then t else "," + MembersText(members[1..]) + t;
    assert MembersText(members) + t == MemberText(m) + tail;
    var quoted := "\"" + (Spelled(m.key) + ("\"" + (m.back + (":" + ElementText(m.value))))) + tail;
    assert MemberText(m) + tail == m.front + quoted;
    SpacesSkipped(m.front, quoted);
    assert SkipSpace(quoted) == quoted;
  }

  lemma {:induction false} ReadMembersBehindSpaces(front: string, s: string, level: nat, acc: seq<Entry>)
    requires AllSpaces(front)
    ensures ReadMembers(front + s, level, acc) == ReadMembers(s, level, acc)
  {
    SpacesSkipped(front, s);
    hide Read, SkipSpace, ReadChars, Put, ToKey;
  }

  /** The members behind an opening brace. */
  lemma {:induction false} ReadObjectOf(inner: string, s: string, level: nat)
    requires AllSpaces(inner) && level < 512
    ensures SkipSpace(s) != "" && SkipSpace(s)[0] == '}' ==>
      ReadObject(inner + s, level) == Ok(Array([]), SkipSpace(s)[1..])
    ensures SkipSpace(s) != "" && SkipSpace(s)[0] != '}' ==>
      var es := ReadMembers(s, level + 1, []);
      ReadObject(inner + s, level) == if es.Fail? then Fail else Ok(Array(es.value), es.rest)
  {
    SpacesSkipped(inner, s);
    var front := SkippedSpaces(s);
    ReadMembersBehindSpaces(front, SkipSpace(s), level + 1, []);
    hide ReadMembers, SkipSpace;
  }

  lemma {:induction false} ObjectTreeReads(inner: string, members: seq<Member>, level: nat, u: string)
    requires Well(Braced(inner, members), level)
    ensures Read(Text(Braced(inner, members)) + u, level) == Ok(ValueOf(Braced(inner, members), level), u)
    decreases members, 1
  {
    hide Read, ReadMembers, PutAll, MembersText, WellMembers, AllSpaces, SkipSpace;
    var s := MembersText(members) + ("}" + u);
    assert Text(Braced(inner, members)) + u == ['{'] + (inner + s);
    JsonRoundTrip.BracketReads(inner + s, level);
    ReadObjectOf(inner, s, level);
    if members == [] {
      EmptyClosed(u);
      NoEntries(level + 1, 0, []);
    } else {
      MembersBegin(members, level + 1, "}" + u);
      MembersReadBack(members, level + 1, [], u);
    }
  }

  // ---------------------------------------------------------------- everything read is a tree

  lemma {:induction false} ReadIsTree(s: string, level: nat) returns (front: string, tree: Tree)
    requires Read(s, level).Ok?
    ensures AllSpaces(front) && Well(tree, level) && ValueOf(tree, level) == Read(s, level).value
    ensures s == front + (Text(tree) + Read(s, level).rest)
    decreases |s|, 0
  {
    hide Read, SkipSpace, AllSpaces, ReadString, ReadList, ReadObject, ReadNumber, ReadLiteral, Text, Well, ValueOf;
    front := SkippedSpaces(s);
    var t := SkipSpace(s);
    ReadBehindSpaces(front, t, level);
    NotEmptyRead(t, level);
    ReadBranch(t, level);
    assert t == [t[0]] + t[1..];
    if t[0] == '"' {
      tree := ReadStringIs(t[1..], level);
    } else if t[0] == '[' {
      tree := ReadListIs(t[1..], level);
    } else if t[0] == '{' {
      tree := ReadObjectIs(t[1..], level);
    } else if t[0] == '-' || IsDigit(t[0]) {
      tree := ReadNumeralIs(t, level);
    } else {
      tree := ReadWordIs(t, level);
    }
  }

  lemma {:induction false} NotEmptyRead(t: string, level: nat)
    requires Read(t, level).Ok?
    ensures t != ""
  {
  }

  lemma {:induction false} ReadNumeralIs(t: string, level: nat) returns (tree: Tree)
    requires t != "" && ReadNumber(t).Ok?
    ensures Well(tree, level) && ValueOf(tree, level) == ReadNumber(t).value
    ensures t == Text(tree) + ReadNumber(t).rest
  {
    hide ReadNumber, IsNumber, NumberSpelled, NumberValue;
    var number := ReadNumberIs(t);
    tree := Numeral(number);
  }

  lemma {:induction false} ReadWordIs(t: string, level: nat) returns (tree: Tree)
    requires ReadLiteral(t).Ok?
    ensures Well(tree, level) && ValueOf(tree, level) == ReadLiteral(t).value
    ensures t == Text(tree) + ReadLiteral(t).rest
  {
    hide ReadLiteral, IsWord, WordValue;
    ReadLiteralIs(t);
    var n := |t| - |ReadLiteral(t).rest|;
    tree := Word(t[..n]);
    assert t == t[..n] + t[n..];
  }

  lemma {:induction false} ReadStringIs(s: string, level: nat) returns (tree: Tree)
    requires ReadString(s).Ok?
    ensures Well(tree, level) && ValueOf(tree, level) == ReadString(s).value
    ensures "\"" + s == Text(tree) + ReadString(s).rest
  {
    var chars := ReadCharsAreSpelled(s);
    hide ReadChars, Spelled, AllSpell, Chars;
    tree := Quoted(chars);
    assert Text(tree) + ReadString(s).rest == "\"" + (Spelled(chars) + ("\"" + ReadString(s).rest));
  }

  lemma {:induction false} WellPrepended(first: Element, rest: seq<Element>, level: nat)
    requires WellElement(first, level) && WellElements(rest, level)
    ensures WellElements([first] + rest, level)
  {
    hide WellElement;
    assert ([first] + rest)[1..] == rest;
  }

  lemma {:induction false} TextPrepended(first: Element, rest: seq<Element>, end: string)
    requires end != ""
    ensures ElementsText([first] + rest) + end == ElementText(first) + BehindElement(rest, end)
  {
    FirstElementText([first] + rest, end);
    hide ElementText, ElementsText, BehindElement;
    assert ([first] + rest)[1..] == rest;
  }

  lemma {:induction false} EntriesPrepended(first: Element, rest: seq<Element>, level: nat, acc: seq<Entry>)
    requires WellElement(first, level) && WellElements(rest, level) && WellElements([first] + rest, level)
    ensures var more := acc + [Entry(IntKey(|acc|), ElementValue(first, level))];
      acc + EntriesOf([first] + rest, level, |acc|) == more + EntriesOf(rest, level, |more|)
  {
    hide ElementValue, WellElement;
    assert ([first] + rest)[1..] == rest;
    var entry := Entry(IntKey(|acc|), ElementValue(first, level));
    assert EntriesOf([first] + rest, level, |acc|) == [entry] + EntriesOf(rest, level, |acc| + 1);
  }

  lemma {:induction false} ElementsJoined(first: Element, rest: seq<Element>, level: nat, acc: seq<Entry>, end: string)
    returns (elements: seq<Element>)
    requires WellElement(first, level) && WellElements(rest, level) && end != ""
    ensures elements != [] && WellElements(elements, level)
    ensures ElementsText(elements) + end == ElementText(first) + BehindElement(rest, end)
    ensures var more := acc + [Entry(IntKey(|acc|), ElementValue(first, level))];
      acc + EntriesOf(elements, level, |acc|) == more + EntriesOf(rest, level, |more|)
  {
    hide WellElements, ElementsText, EntriesOf, ElementText, ElementValue, WellElement, BehindElement;
    elements := [first] + rest;
    WellPrepended(first, rest, level);
    TextPrepended(first, rest, end);
    EntriesPrepended(first, rest, level, acc);
  }

  /** The element that a list starts with, and what stands behind it. */
  lemma {:induction false} ReadElementIs(s: string, level: nat) returns (e: Element)
    requires Read(s, level).Ok?
    ensures WellElement(e, level) && ElementValue(e, level) == Read(s, level).value
    ensures s == ElementText(e) + SkipSpace(Read(s, level).rest)
    decreases |s|, 1
  {
    var front, tree := ReadIsTree(s, level);
    var back := SkippedSpaces(Read(s, level).rest);
    hide Read, SkipSpace, AllSpaces, Text, ValueOf, Well;
    e := Element(front, tree, back);
    Regroup(Text(tree), back, SkipSpace(Read(s, level).rest));
    Regroup(front, Text(tree) + back, SkipSpace(Read(s, level).rest));
  }

  lemma {:induction false} ReadElementsAre(s: string, level: nat, acc: seq<Entry>) returns (elements: seq<Element>)
    requires ReadElements(s, level, acc).Ok?
    ensures elements != [] && WellElements(elements, level)
    ensures ReadElements(s, level, acc).value == acc + EntriesOf(elements, level, |acc|)
    ensures s == ElementsText(elements) + ("]" + ReadElements(s, level, acc).rest)
    decreases |s|, 2
  {
    ElementsTurn(s, level, acc);
    var first := ReadElementIs(s, level);
    var end := "]" + ReadElements(s, level, acc).rest;
    var t, more := SkipSpace(Read(s, level).rest), acc + [Entry(IntKey(|acc|), Read(s, level).value)];
    hide Read, ReadElements, SkipSpace, WellElements, WellElement, ElementText, ElementsText, EntriesOf, ElementValue;
    assert t == [t[0]] + t[1..] && |t| <= |s|;
    if t[0] == ']' {
      NoElements(level, more);
      elements := ElementsJoined(first, [], level, acc, end);
    } else {
      var rest := ReadElementsAre(t[1..], level, more);
      elements := ElementsJoined(first, rest, level, acc, end);
    }
  }

  lemma {:induction false} NoElements(level: nat, acc: seq<Entry>)
    ensures WellElements([], level) && acc + EntriesOf([], level, |acc|) == acc
    ensures WellMembers([], level)
  {
    NoEntries(level, |acc|, acc);
  }

  lemma {:induction false} ReadListParts(s: string, level: nat)
    requires ReadList(s, level).Ok?
    ensures level < 512
    ensures var t := SkipSpace(s);
      if t != "" && t[0] == ']' then ReadList(s, level) == Ok(Array([]), t[1..])
      else
        var es := ReadElements(t, level + 1, []);
        es.Ok? && ReadList(s, level) == Ok(Array(es.value), es.rest)
  {
    hide SkipSpace, ReadElements;
  }

  /** The elements behind an opening bracket and spaces. */
  lemma {:induction false} BracketedIs(t: string, level: nat, list: Parsed<Value>) returns (elements: seq<Element>)
    requires if t != "" && t[0] == ']' then list == Ok(Array([]), t[1..])
             else
               var es := ReadElements(t, level, []);
               es.Ok? && list == Ok(Array(es.value), es.rest)
    ensures WellElements(elements, level) && list.Ok?
    ensures list.value == Array(EntriesOf(elements, level, 0)) && t == ElementsText(elements) + ("]" + list.rest)
    decreases |t|, 3
  {
    if t != "" && t[0] == ']' {
      elements := [];
      NoElements(level, []);
      NoEntries(level, 0, []);
      EmptyClosed(list.rest);
      assert t == "]" + t[1..];
    } else {
      hide ReadElements, ElementsText, WellElements, EntriesOf;
      elements := ReadElementsAre(t, level, []);
      assert [] + EntriesOf(elements, level, 0) == EntriesOf(elements, level, 0);
    }
  }

  lemma {:induction false} ReadListIs(s: string, level: nat) returns (tree: Tree)
    requires ReadList(s, level).Ok?
    ensures Well(tree, level) && ValueOf(tree, level) == ReadList(s, level).value
    ensures "[" + s == Text(tree) + ReadList(s, level).rest
    decreases |s|, 4
  {
    hide ReadList, ReadElements, SkipSpace, WellElements, ElementsText, EntriesOf, AllSpaces;
    ReadListParts(s, level);
    var inner := SkippedSpaces(s);
    var rest := ReadList(s, level).rest;
    var elements := BracketedIs(SkipSpace(s), level + 1, ReadList(s, level));
    tree := Listed(inner, elements);
    RegroupTwice(inner, ElementsText(elements), "]", rest);
    Regroup("[", inner + (ElementsText(elements) + "]"), rest);
  }

  /** The member that an object starts with, and what stands behind it. */
  lemma {:induction false} ReadMemberIs(s: string, level: nat, key: string, rest: string) returns (m: Member)
    requires MemberHead(s, key, rest) && |rest| < |s| && Read(rest, level).Ok?
    ensures WellMember(m, level) && Chars(m.key) == key && MemberValue(m, level) == Read(rest, level).value
    ensures s == MemberText(m) + SkipSpace(Read(rest, level).rest)
    decreases |s|, 1
  {
    hide Read, ReadChars, SkipSpace, AllSpaces, AllSpell, Spelled, Chars, WellElement, ElementText, ElementValue,
      MemberHead, MemberText;
    var value := ReadElementIs(rest, level);
    var front, chars, back := HeadIs(s, key, rest);
    m := Member(front, chars, back, value);
    MemberSplits(m, SkipSpace(Read(rest, level).rest));
  }

  lemma {:induction false} HeadIs(s: string, key: string, rest: string)
    returns (front: string, chars: seq<Spelling>, back: string)
    requires MemberHead(s, key, rest)
    ensures AllSpaces(front) && AllSpell(chars) && AllSpaces(back) && Chars(chars) == key
    ensures s == front + ("\"" + (Spelled(chars) + ("\"" + (back + ":")))) + rest
  {
    hide ReadChars, SkipSpace, AllSpaces, AllSpell, Spelled, Chars;
    front := SkippedSpaces(s);
    var t := SkipSpace(s);
    chars := ReadCharsAreSpelled(t[1..]);
    var k := ReadChars(t[1..]);
    back := SkippedSpaces(k.rest);
    HeadJoined(front, Spelled(chars), back, rest);
    assert t == "\"" + t[1..];
    assert SkipSpace(k.rest) == ":" + rest;
  }

  lemma {:induction false} HeadJoined(front: string, key: string, back: string, rest: string)
    ensures (front + ("\"" + (key + ("\"" + (back + ":"))))) + rest ==
            front + ("\"" + (key + ("\"" + (back + (":" + rest)))))
  {
  }

  lemma {:induction false} MembersPrepended(first: Member, rest: seq<Member>, level: nat, acc: seq<Entry>, end: string)
    requires WellMember(first, level) && WellMembers(rest, level) && end != ""
    ensures WellMembers([first] + rest, level)
    ensures MembersText([first] + rest) + end == MemberText(first) + BehindMember(rest, end)
    ensures PutAll(acc, [first] + rest, level) ==
            PutAll(Put(acc, ToKey(Chars(first.key)), MemberValue(first, level)), rest, level)
  {
    var members := [first] + rest;
    assert members[0] == first && members[1..] == rest;
    FirstMemberText(members, end);
    hide MemberText, MembersText, MemberValue, WellMember, BehindMember, Put, ToKey, Chars;
  }

  lemma {:induction false} ReadMembersAre(s: string, level: nat, acc: seq<Entry>) returns (members: seq<Member>)
    requires ReadMembers(s, level, acc).Ok?
    ensures members != [] && WellMembers(members, level)
    ensures ReadMembers(s, level, acc).value == PutAll(acc, members, level)
    ensures s == MembersText(members) + ("}" + ReadMembers(s, level, acc).rest)
    decreases |s|, 2
  {
    var key, behind := MembersHaveHead(s, level, acc);
    MembersTurn(s, level, acc, key, behind);
    var first := ReadMemberIs(s, level, key, behind);
    var end := "}" + ReadMembers(s, level, acc).rest;
    var t, more := SkipSpace(Read(behind, level).rest), Put(acc, ToKey(key), Read(behind, level).value);
    hide Read, ReadMembers, SkipSpace, WellMembers, WellMember, MemberText, MembersText, PutAll, MemberValue,
      MemberHead, Put, Chars, ToKey;
    assert t == [t[0]] + t[1..] && |t| < |s|;
    if t[0] == '}' {
      NoElements(level, more);
      NoEntries(level, 0, more);
      MembersPrepended(first, [], level, acc, end);
      members := [first] + [];
    } else {
      var rest := ReadMembersAre(t[1..], level, more);
      MembersPrepended(first, rest, level, acc, end);
      members := [first] + rest;
    }
  }

  lemma {:induction false} ReadObjectParts(s: string, level: nat)
    requires ReadObject(s, level).Ok?
    ensures level < 512
    ensures var t := SkipSpace(s);
      if t != "" && t[0] == '}' then ReadObject(s, level) == Ok(Array([]), t[1..])
      else
        var es := ReadMembers(t, level + 1, []);
        es.Ok? && ReadObject(s, level) == Ok(Array(es.value), es.rest)
  {
    hide SkipSpace, ReadMembers;
  }

  /** The members behind an opening brace and spaces. */
  lemma {:induction false} BracedIs(t: string, level: nat, result: Parsed<Value>) returns (members: seq<Member>)
    requires if t != "" && t[0] == '}' then result == Ok(Array([]), t[1..])
             else
               var es := ReadMembers(t, level, []);
               es.Ok? && result == Ok(Array(es.value), es.rest)
    ensures WellMembers(members, level) && result.Ok?
    ensures result.value == Array(PutAll([], members, level)) && t == MembersText(members) + ("}" + result.rest)
    decreases |t|, 3
  {
    if t != "" && t[0] == '}' {
      members := [];
      NoElements(level, []);
      NoEntries(level, 0, []);
      EmptyClosed(result.rest);
      assert t == "}" + t[1..];
    } else {
      hide ReadMembers, MembersText, WellMembers, PutAll;
      members := ReadMembersAre(t, level, []);
    }
  }

  lemma {:induction false} ReadObjectIs(s: string, level: nat) returns (tree: Tree)
    requires ReadObject(s, level).Ok?
    ensures Well(tree, level) && ValueOf(tree, level) == ReadObject(s, level).value
    ensures "{" + s == Text(tree) + ReadObject(s, level).rest
    decreases |s|, 4
  {
    hide ReadObject, ReadMembers, SkipSpace, WellMembers, MembersText, PutAll, AllSpaces;
    ReadObjectParts(s, level);
    var inner := SkippedSpaces(s);
    var rest := ReadObject(s, level).rest;
    var members := BracedIs(SkipSpace(s), level + 1, ReadObject(s, level));
    tree := Braced(inner, members);
    RegroupTwice(inner, MembersText(members), "}", rest);
    Regroup("{", inner + (MembersText(members) + "}"), rest);
  }

  // ---------------------------------------------------------------- complete texts

  ghost predicate IsTextOf(s: string, v: Value) {
    exists e: Element :: ElementText(e) == s && WellElement(e, 0) && ElementValue(e, 0) == v
  }

  /** A text decodes to a value exactly when it is the text of a tree of that value. */
  lemma {:induction false} DecodeIff(s: string, v: Value)
    ensures Decode(s) == Some(v) <==> IsTextOf(s, v)
  {
    hide Read, ElementValue, Well, Text;
    if Decode(s) == Some(v) {
      var e := ReadElementIs(s, 0);
      hide ElementText, WellElement;
      assert ElementText(e) + "" == ElementText(e);
    }
    if e: Element :| ElementText(e) == s && WellElement(e, 0) && ElementValue(e, 0) == v {
      ElementReads(e, 0, "");
      hide ElementText, WellElement;
      assert ElementText(e) + "" == s && e.back + "" == e.back;
    }
  }

  // ---------------------------------------------------------------- what is written

  /** The escapes: by letter, in upper-case digits for markup, not at all for other ASCII, else in lower-case digits. */
  lemma {:induction false} EscapeIs(c: char)
    ensures c == '/' || c == '\\' ==> Escape(c) == ['\\', c]
    ensures c == '\n' ==> Escape(c) == ['\\', 'n']
    ensures c == '\r' ==> Escape(c) == ['\\', 'r']
    ensures c == '\t' ==> Escape(c) == ['\\', 't']
    ensures c as int == 8 ==> Escape(c) == ['\\', 'b']
    ensures c as int == 12 ==> Escape(c) == ['\\', 'f']
    ensures c == '"' ==> Escape(c) == ['\\', 'u', '0', '0', '2', '2']
    ensures c == '&' ==> Escape(c) == ['\\', 'u', '0', '0', '2', '6']
    ensures c == '\'' ==> Escape(c) == ['\\', 'u', '0', '0', '2', '7']
    ensures c == '<' ==> Escape(c) == ['\\', 'u', '0', '0', '3', 'C']
    ensures c == '>' ==> Escape(c) == ['\\', 'u', '0', '0', '3', 'E']
    ensures 32 <= c as int < 128 && c !in ['/', '\\', '"', '&', '\'', '<', '>'] ==> Escape(c) == [c]
    ensures c as int >= 128 ==> |Escape(c)| == if c as int < 0x10000 then 6 else 12
    ensures c as int >= 128 ==> forall i :: 0 <= i < |Escape(c)| ==> !('A' <= Escape(c)[i] <= 'Z')
  {
    if c as int >= 128 {
      var n := c as int;
      assert Escape(c) == if n < 0x10000 then UnicodeEscape(n, false)
                          else UnicodeEscape(HighSurrogate(n), false) + UnicodeEscape(LowSurrogate(n), false);
      hide Nibbles, HighSurrogate, LowSurrogate;
    }
  }

  /** The texts of the entries of an array: the values in a list, keys and values otherwise. */
  predicate EntryTexts(entries: seq<Entry>, keyed: bool, texts: seq<string>) {
    && |texts| == |entries|
    && forall i :: 0 <= i < |entries| ==>
         texts[i] == if keyed then Write(Str(KeyText(entries[i].key))) + ":" + Write(entries[i].value)
                     else Write(entries[i].value)
  }

  lemma {:induction false} FirstEntryWritten(e: Entry, keyed: bool)
    ensures WriteEntry(e, keyed) ==
            if keyed then Write(Str(KeyText(e.key))) + ":" + Write(e.value) else Write(e.value)
  {
    assert Write(Str(KeyText(e.key))) == Quote(KeyText(e.key));
    hide Write, Quote, KeyText;
    assert "" + Write(e.value) == Write(e.value);
  }

  lemma {:induction false} EntriesWritten(entries: seq<Entry>, keyed: bool, texts: seq<string>)
    requires EntryTexts(entries, keyed, texts)
    ensures WriteEntries(entries, keyed) == Implode(",", texts)
  {
    if entries != [] {
      FirstEntryWritten(entries[0], keyed);
      hide Write, KeyText, WriteEntry;
      EntriesWritten(entries[1..], keyed, texts[1..]);
    }
  }

  /** An array whose keys are 0, 1, ... in this order is written as a list, any other one as an object. */
  lemma {:induction false} ArrayWritten(entries: seq<Entry>, texts: seq<string>)
    ensures (forall i :: 0 <= i < |entries| ==> entries[i].key == IntKey(i)) && EntryTexts(entries, false, texts) ==>
      Write(Array(entries)) == "[" + Implode(",", texts) + "]"
    ensures (exists i :: 0 <= i < |entries| && entries[i].key != IntKey(i)) && EntryTexts(entries, true, texts) ==>
      Write(Array(entries)) == "{" + Implode(",", texts) + "}"
  {
    if EntryTexts(entries, false, texts) {
      EntriesWritten(entries, false, texts);
    }
    if EntryTexts(entries, true, texts) {
      EntriesWritten(entries, true, texts);
    }
    hide WriteEntries, Implode, EntryTexts;
  }
}
