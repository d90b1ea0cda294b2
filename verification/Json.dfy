/**
 JSON text of PHP values, written with the HEX_AMP, HEX_QUOT, HEX_APOS and HEX_TAG options of
 json_encode and read back as json_decode does with associative arrays (RFC 8259).
 */
module Json {
  import opened Wrappers
  import opened Php

  datatype Key = IntKey(i: int) | StrKey(s: string)

  datatype Entry = Entry(key: Key, value: Value)

  /** PHP values. Arrays are ordered maps; a `Float` only arises by reading and keeps its text. */
  datatype Value =
    | Null
    | Bool(b: bool)
    | Int(i: int)
    | Str(s: string)
    | Float(lexeme: string)
    | Array(entries: seq<Entry>)

  const MAX_DEPTH := 512

  predicate IsList(entries: seq<Entry>) {
    forall i :: 0 <= i < |entries| ==> entries[i].key == IntKey(i)
  }

  ghost predicate DistinctKeys(entries: seq<Entry>) {
    forall i, j :: 0 <= i < j < |entries| ==> entries[i].key != entries[j].key
  }

  predicate ValidKey(k: Key) {
    match k
    case IntKey(i) => InRange(i)
    case StrKey(s) => IntegerKey(s) == None
  }

  /** A value that PHP can hold, without floats. */
  ghost predicate Valid(v: Value) {
    match v
    case Int(i) => InRange(i)
    case Float(_) => false
    case Array(entries) =>
      DistinctKeys(entries) && forall e :: e in entries ==> ValidKey(e.key) && Valid(e.value)
    case _ => true
  }

  function Max(a: nat, b: nat): nat {
    if a < b then b else a
  }

  /** Nesting depth of arrays. */
  function Depth(v: Value): nat
    decreases v, 1
  {
    if v.Array? then 1 + DepthOfEntries(v.entries) else 0
  }

  function DepthOfEntries(entries: seq<Entry>): (d: nat)
    decreases entries, 0
  {
    if entries == [] then 0 else Max(DepthOfEntry(entries[0]), DepthOfEntries(entries[1..]))
  }

  function DepthOfEntry(e: Entry): nat
    decreases e, 2
  {
    Depth(e.value)
  }

  // ---------------------------------------------------------------- writer

  function HexDigit(k: nat, upper: bool): char
    requires k < 16
  {
    if k < 10 then ('0' as int + k) as char else ((if upper then 'A' else 'a') as int + k - 10) as char
  }

  /** The four hexadecimal digits of a code unit. */
  function Nibbles(n: nat): (r: (nat, nat, nat, nat))
    requires n < 0x10000
    ensures r.0 < 16 && r.1 < 16 && r.2 < 16 && r.3 < 16
    ensures n == r.0 * 0x1000 + r.1 * 0x100 + r.2 * 0x10 + r.3
  {
    var q := n / 16;
    var p := q / 16;
    (p / 16, p % 16, q % 16, n % 16)
  }

  function UnicodeEscape(n: nat, upper: bool): (s: string)
    requires n < 0x10000
    ensures |s| == 6 && s[0] == '\\' && s[1] == 'u'
  {
    var (a, b, c, d) := Nibbles(n);
    ['\\', 'u', HexDigit(a, upper), HexDigit(b, upper), HexDigit(c, upper), HexDigit(d, upper)]
  }

  /** The letter of a two-character escape. */
  function ShortEscape(c: char): Option<char> {
    if c == '/' || c == '\\' then Some(c)
    else if c as int == 8 then Some('b')
    else if c as int == 12 then Some('f')
    else if c == '\n' then Some('n')
    else if c == '\r' then Some('r')
    else if c == '\t' then Some('t')
    else None
  }

  /** The characters that the HEX options escape, with upper-case digits. */
  predicate IsMarkup(c: char) {
    c == '"' || c == '&' || c == '\'' || c == '<' || c == '>'
  }

  function HighSurrogate(n: nat): (u: nat)
    requires 0x10000 <= n < 0x110000
    ensures 0xD800 <= u < 0xDC00
  {
    0xD800 + (n - 0x10000) / 0x400
  }

  function LowSurrogate(n: nat): (u: nat)
    requires 0x10000 <= n < 0x110000
    ensures 0xDC00 <= u < 0xE000
    ensures n == 0x10000 + (HighSurrogate(n) - 0xD800) * 0x400 + (u - 0xDC00)
  {
    0xDC00 + (n - 0x10000) % 0x400
  }

  function Escape(c: char): (s: string)
    ensures s != ""
  {
    var n, short := c as int, ShortEscape(c);
    if short.Some? then ['\\', short.value]
    else if IsMarkup(c) then UnicodeEscape(n, true)
    else if 0x20 <= n < 0x80 then [c]
    else if n < 0x10000 then UnicodeEscape(n, false)
    else UnicodeEscape(HighSurrogate(n), false) + UnicodeEscape(LowSurrogate(n), false)
  }

  function EscapeAll(s: string): string {
    if s == "" then "" else Escape(s[0]) + EscapeAll(s[1..])
  }

  function Quote(s: string): string {
    "\"" + EscapeAll(s) + "\""
  }

  function KeyText(k: Key): string {
    match k
    case IntKey(i) => Decimal(i)
    case StrKey(s) => s
  }

  function Write(v: Value): string
    decreases v, 1
  {
    match v
    case Null => "null"
    case Bool(b) => if b then "true" else "false"
    case Int(i) => Decimal(i)
    case Float(lexeme) => lexeme
    case Str(s) => Quote(s)
    case Array(entries) =>
      if IsList(entries) then "[" + WriteEntries(entries, false) + "]"
      else "{" + WriteEntries(entries, true) + "}"
  }

  function WriteEntries(entries: seq<Entry>, keyed: bool): string
    decreases entries, 0
  {
    if entries == [] then ""
    else if |entries| == 1 then WriteEntry(entries[0], keyed)
    else WriteEntry(entries[0], keyed) + "," + WriteEntries(entries[1..], keyed)
  }

  function WriteEntry(e: Entry, keyed: bool): string
    decreases e, 2
  {
    (if keyed then Quote(KeyText(e.key)) + ":" else "") + Write(e.value)
  }

  // ---------------------------------------------------------------- reader

  datatype Parsed<+T> = Fail | Ok(value: T, rest: string)

  predicate IsSpace(c: char) {
    c == ' ' || c == '\t' || c == '\n' || c == '\r'
  }

  function SkipSpace(s: string): (r: string)
    ensures |r| <= |s|
    ensures s != "" && !IsSpace(s[0]) ==> r == s
  {
    if s != "" && IsSpace(s[0]) then SkipSpace(s[1..]) else s
  }

  function HexValue(c: char): (r: Option<nat>)
    ensures r.Some? ==> r.value < 16
  {
    if '0' <= c <= '9' then Some(c as int - '0' as int)
    else if 'a' <= c <= 'f' then Some(c as int - 'a' as int + 10)
    else if 'A' <= c <= 'F' then Some(c as int - 'A' as int + 10)
    else None
  }

  /** The code unit of a `\uXXXX` escape at the start of s. */
  function ReadUnit(s: string): (r: Option<nat>)
    ensures r.Some? ==> r.value < 0x10000 && |s| >= 6
  {
    if |s| < 6 || s[0] != '\\' || s[1] != 'u' then None
    else
      var a, b, c, d := HexValue(s[2]), HexValue(s[3]), HexValue(s[4]), HexValue(s[5]);
      if a.None? || b.None? || c.None? || d.None? then None
      else Some(a.value * 0x1000 + b.value * 0x100 + c.value * 0x10 + d.value)
  }

  function ReadUnicode(s: string): (r: Parsed<char>)
    ensures r.Ok? ==> |r.rest| < |s|
  {
    var unit := ReadUnit(s);
    if unit.None? then Fail
    else if unit.value < 0xD800 || 0xE000 <= unit.value then Ok(unit.value as char, s[6..])
    else if 0xDC00 <= unit.value then Fail
    else
      var low := ReadUnit(s[6..]);
      if low.None? || low.value < 0xDC00 || 0xE000 <= low.value then Fail
      else Ok((0x10000 + (unit.value - 0xD800) * 0x400 + (low.value - 0xDC00)) as char, s[12..])
  }

  /** The character that a two-character escape stands for. */
  function Unescape(c: char): Option<char> {
    if c == '"' || c == '\\' || c == '/' then Some(c)
    else if c == 'b' then Some(8 as char)
    else if c == 'f' then Some(12 as char)
    else if c == 'n' then Some('\n')
    else if c == 'r' then Some('\r')
    else if c == 't' then Some('\t')
    else None
  }

  /** One character of a string, escaped or not. */
  function ReadChar(s: string): (r: Parsed<char>)
    requires s != ""
    ensures r.Ok? ==> |r.rest| < |s|
  {
    if s[0] as int < 0x20 then Fail
    else if s[0] != '\\' then Ok(s[0], s[1..])
    else if |s| == 1 then Fail
    else if s[1] == 'u' then ReadUnicode(s)
    else
      var c := Unescape(s[1]);
      if c.None? then Fail else Ok(c.value, s[2..])
  }

  /** The characters up to the closing quote. */
  function ReadChars(s: string): (r: Parsed<string>)
    ensures r.Ok? ==> |r.value| + |r.rest| < |s|
    decreases |s|
  {
    if s == "" then Fail
    else if s[0] == '"' then Ok("", s[1..])
    else
      var c := ReadChar(s);
      if c.Fail? then Fail
      else
        var cs := ReadChars(c.rest);
        if cs.Fail? then Fail else Ok([c.value] + cs.value, cs.rest)
  }

  /** The fraction and exponent that may follow the digits of a number. */
  function FractionEnd(s: string): (r: Option<string>)
    ensures r.Some? ==> |r.value| <= |s|
  {
    if s != "" && s[0] == '.' then
      var (ds, rest) := SpanDigits(s[1..]);
      if ds == "" then None else Some(rest)
    else Some(s)
  }

  function ExponentEnd(s: string): (r: Option<string>)
    ensures r.Some? ==> |r.value| <= |s|
  {
    if s != "" && (s[0] == 'e' || s[0] == 'E') then
      var t := if |s| > 1 && (s[1] == '+' || s[1] == '-') then s[2..] else s[1..];
      var (ds, rest) := SpanDigits(t);
      if ds == "" then None else Some(rest)
    else Some(s)
  }

  function ReadNumber(s: string): (r: Parsed<Value>)
    requires s != ""
    ensures r.Ok? ==> |r.rest| < |s| && !r.value.Str?
  {
    var negative := s[0] == '-';
    var (ds, rest) := SpanDigits(if negative then s[1..] else s);
    if ds == "" || (ds[0] == '0' && |ds| > 1) then Fail
    else
      var fraction := FractionEnd(rest);
      if fraction.None? then Fail
      else
        var end := ExponentEnd(fraction.value);
        if end.None? then Fail
        else
          var n := Signed(negative, DigitsValue(ds));
          if end.value == rest && InRange(n) && !(negative && ds == "0") then Ok(Int(n), rest)
          else Ok(Float(s[..|s| - |end.value|]), end.value)
  }

  function ToKey(s: string): Key {
    match IntegerKey(s)
    case Some(i) => IntKey(i)
    case None => StrKey(s)
  }

  /** `$array[$key] = $value` */
  function Put(entries: seq<Entry>, key: Key, value: Value): seq<Entry> {
    if entries == [] then [Entry(key, value)]
    else if entries[0].key == key then [Entry(key, value)] + entries[1..]
    else [entries[0]] + Put(entries[1..], key, value)
  }

  predicate StartsWithWord(s: string, word: string) {
    |s| >= |word| && Lower(s[..|word|]) == word
  }

  /** The literals `null`, `true` and `false`, which PHP reads in any case. */
  function ReadLiteral(s: string): (r: Parsed<Value>)
    ensures r.Ok? ==> |r.rest| < |s| && !r.value.Str?
  {
    if StartsWithWord(s, "null") then Ok(Null, s[4..])
    else if StartsWithWord(s, "true") then Ok(Bool(true), s[4..])
    else if StartsWithWord(s, "false") then Ok(Bool(false), s[5..])
    else Fail
  }

  function ReadString(s: string): (r: Parsed<Value>)
    ensures r.Ok? ==> |r.rest| < |s| && r.value.Str? && |r.value.s| < |s|
  {
    var cs := ReadChars(s);
    if cs.Fail? then Fail else Ok(Str(cs.value), cs.rest)
  }

  /** A value at nesting level `level`. */
  function Read(s: string, level: nat): (r: Parsed<Value>)
    ensures r.Ok? ==> |r.rest| < |s|
    ensures r.Ok? && r.value.Str? ==> |r.value.s| < |s|
    decreases |s|, 0
  {
    var t := SkipSpace(s);
    if t == "" then Fail
    else if t[0] == '"' then ReadString(t[1..])
    else if t[0] == '[' then ReadList(t[1..], level)
    else if t[0] == '{' then ReadObject(t[1..], level)
    else if t[0] == '-' || IsDigit(t[0]) then ReadNumber(t)
    else ReadLiteral(t)
  }

  /** What follows the opening bracket of a list. */
  function ReadList(s: string, level: nat): (r: Parsed<Value>)
    ensures r.Ok? ==> |r.rest| < |s| && r.value.Array?
    decreases |s|, 2
  {
    var t := SkipSpace(s);
    if level >= MAX_DEPTH then Fail
    else if t != "" && t[0] == ']' then Ok(Array([]), t[1..])
    else
      var es := ReadElements(t, level + 1, []);
      if es.Fail? then Fail else Ok(Array(es.value), es.rest)
  }

  /** What follows the opening brace of an object. */
  function ReadObject(s: string, level: nat): (r: Parsed<Value>)
    ensures r.Ok? ==> |r.rest| < |s| && r.value.Array?
    decreases |s|, 2
  {
    var t := SkipSpace(s);
    if level >= MAX_DEPTH then Fail
    else if t != "" && t[0] == '}' then Ok(Array([]), t[1..])
    else
      var es := ReadMembers(t, level + 1, []);
      if es.Fail? then Fail else Ok(Array(es.value), es.rest)
  }

  function ReadElements(s: string, level: nat, acc: seq<Entry>): (r: Parsed<seq<Entry>>)
    ensures r.Ok? ==> |r.rest| < |s|
    decreases |s|, 1
  {
    var v := Read(s, level);
    if v.Fail? then Fail
    else
      var acc' := acc + [Entry(IntKey(|acc|), v.value)];
      var t := SkipSpace(v.rest);
      if t != "" && t[0] == ']' then Ok(acc', t[1..])
      else if t != "" && t[0] == ',' then ReadElements(t[1..], level, acc')
      else Fail
  }

  function ReadMembers(s: string, level: nat, acc: seq<Entry>): (r: Parsed<seq<Entry>>)
    ensures r.Ok? ==> |r.rest| < |s|
    decreases |s|, 1
  {
    var t := SkipSpace(s);
    if t == "" || t[0] != '"' then Fail
    else
      var k := ReadChars(t[1..]);
      if k.Fail? then Fail
      else
        var u := SkipSpace(k.rest);
        if u == "" || u[0] != ':' then Fail
        else
          var v := Read(u[1..], level);
          if v.Fail? then Fail
          else
            var acc' := Put(acc, ToKey(k.value), v.value);
            var w := SkipSpace(v.rest);
            if w != "" && w[0] == '}' then Ok(acc', w[1..])
            else if w != "" && w[0] == ',' then ReadMembers(w[1..], level, acc')
            else Fail
  }

  /** The value of a complete JSON text. */
  function Decode(s: string): (r: Option<Value>)
    ensures r.Some? && r.value.Str? ==> |r.value.s| < |s|
  {
    var v := Read(s, 0);
    if v.Ok? && SkipSpace(v.rest) == "" then Some(v.value) else None
  }
}
