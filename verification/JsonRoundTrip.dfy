/** Reading what was written gives the value back. */
module JsonRoundTrip {
  import opened Wrappers
  import opened Php
  import opened Json

  // ---------------------------------------------------------------- strings

  lemma {:induction false} HexDigitReads(k: nat, upper: bool)
    requires k < 16
    ensures HexValue(HexDigit(k, upper)) == Some(k)
  {
  }

  lemma {:induction false} UnitReads(n: nat, upper: bool, t: string)
    requires n < 0x10000
    ensures ReadUnit(UnicodeEscape(n, upper) + t) == Some(n)
    ensures (UnicodeEscape(n, upper) + t)[6..] == t
  {
    var (a, b, c, d) := Nibbles(n);
    HexDigitReads(a, upper);
    HexDigitReads(b, upper);
    HexDigitReads(c, upper);
    HexDigitReads(d, upper);
  }

  lemma {:induction false} PlainUnitReads(n: nat, upper: bool, t: string)
    requires n < 0xD800 || 0xE000 <= n < 0x10000
    ensures ReadChar(UnicodeEscape(n, upper) + t) == Ok(n as char, t)
  {
    UnitReads(n, upper, t);
  }

  lemma {:induction false} SurrogatesRead(n: nat, t: string)
    requires 0x10000 <= n < 0x110000
    ensures ReadChar(UnicodeEscape(HighSurrogate(n), false) + (UnicodeEscape(LowSurrogate(n), false) + t)) ==
      Ok(n as char, t)
  {
    var low := UnicodeEscape(LowSurrogate(n), false) + t;
    var s := UnicodeEscape(HighSurrogate(n), false) + low;
    UnitReads(HighSurrogate(n), false, low);
    UnitReads(LowSurrogate(n), false, t);
    assert s[12..] == s[6..][6..];
  }

  lemma {:induction false} ShortEscapeReads(c: char, t: string)
    requires ShortEscape(c).Some?
    ensures ReadChar(['\\', ShortEscape(c).value] + t) == Ok(c, t)
  {
  }

  lemma {:induction false} CharReads(c: char, t: string)
    ensures ReadChar(Escape(c) + t) == Ok(c, t)
  {
    var n := c as int;
    if ShortEscape(c).Some? {
      ShortEscapeReads(c, t);
    } else if IsMarkup(c) {
      PlainUnitReads(n, true, t);
    } else if 0x20 <= n < 0x80 {
      assert ([c] + t)[1..] == t;
    } else if n < 0x10000 {
      PlainUnitReads(n, false, t);
    } else {
      SurrogatesRead(n, t);
      assert Escape(c) + t == UnicodeEscape(HighSurrogate(n), false) + (UnicodeEscape(LowSurrogate(n), false) + t);
    }
  }

  lemma {:induction false} EscapeStarts(c: char)
    ensures Escape(c)[0] != '"'
  {
  }

  lemma {:induction false} CharsStep(s: string, c: char, u: string, cs: string, t: string)
    requires s != "" && s[0] != '"' && ReadChar(s) == Ok(c, u) && ReadChars(u) == Ok(cs, t)
    ensures ReadChars(s) == Ok([c] + cs, t)
  {
  }

  lemma {:induction false} EscapedText(s: string, t: string)
    requires s != ""
    ensures EscapeAll(s) + "\"" + t == Escape(s[0]) + (EscapeAll(s[1..]) + "\"" + t)
  {
  }

  lemma {:induction false} CharsRead(s: string, t: string)
    ensures ReadChars(EscapeAll(s) + "\"" + t) == Ok(s, t)
  {
    if s == "" {
      assert EscapeAll(s) + "\"" + t == "\"" + t;
    } else {
      var c, u := s[0], EscapeAll(s[1..]) + "\"" + t;
      CharReads(c, u);
      EscapeStarts(c);
      CharsRead(s[1..], t);
      EscapedText(s, t);
      assert [c] + s[1..] == s;
      CharsStep(Escape(c) + u, c, u, s[1..], t);
    }
  }

  lemma {:induction false} QuoteText(s: string, t: string)
    ensures Quote(s) + t == ['"'] + (EscapeAll(s) + "\"" + t)
  {
  }

  lemma {:induction false} QuoteReads(s: string, t: string)
    ensures (Quote(s) + t)[0] == '"'
    ensures ReadChars((Quote(s) + t)[1..]) == Ok(s, t)
  {
    var u := EscapeAll(s) + "\"" + t;
    CharsRead(s, t);
    QuoteText(s, t);
    assert (['"'] + u)[1..] == u;
  }

  // ---------------------------------------------------------------- numbers

  /** What may follow a number without changing it. */
  predicate NumberEnds(t: string) {
    t == "" || (!IsDigit(t[0]) && t[0] != '.' && t[0] != 'e' && t[0] != 'E')
  }

  lemma {:induction false} DigitsRead(n: nat, t: string)
    requires NumberEnds(t)
    ensures SpanDigits(DecimalNat(n) + t) == (DecimalNat(n), t)
    ensures DigitsValue(DecimalNat(n)) == n && (DecimalNat(n)[0] == '0' ==> DecimalNat(n) == "0" && n == 0)
  {
    DecimalNatValue(n);
    SpanDigitsExact(DecimalNat(n), t);
  }

  lemma {:induction false} NumberStep(s: string, negative: bool, ds: string, t: string)
    requires s != "" && negative == (s[0] == '-')
    requires SpanDigits(if negative then s[1..] else s) == (ds, t) && NumberEnds(t)
    requires ds != "" && (ds[0] == '0' ==> |ds| == 1) && (ds == "0" ==> !negative)
    requires InRange(Signed(negative, DigitsValue(ds)))
    ensures ReadNumber(s) == Ok(Int(Signed(negative, DigitsValue(ds))), t)
  {
  }

  lemma {:induction false} NonNegativeReads(n: nat, t: string)
    requires InRange(n) && NumberEnds(t)
    ensures ReadNumber(DecimalNat(n) + t) == Ok(Int(n), t)
  {
    DigitsRead(n, t);
    assert IsDigit(DecimalNat(n)[0]);
    NumberStep(DecimalNat(n) + t, false, DecimalNat(n), t);
  }

  lemma {:induction false} NegativeReads(i: int, t: string)
    requires i < 0 && InRange(i) && NumberEnds(t)
    ensures ReadNumber(['-'] + (DecimalNat(-i) + t)) == Ok(Int(i), t)
  {
    var ds := DecimalNat(-i);
    DigitsRead(-i, t);
    assert (['-'] + (ds + t))[1..] == ds + t;
    assert Signed(true, DigitsValue(ds)) == i;
    NumberStep(['-'] + (ds + t), true, ds, t);
  }

  lemma {:induction false} NumberReads(i: int, t: string)
    requires InRange(i) && NumberEnds(t)
    ensures ReadNumber(Decimal(i) + t) == Ok(Int(i), t)
  {
    if i < 0 {
      NegativeReads(i, t);
      assert Decimal(i) + t == ['-'] + (DecimalNat(-i) + t);
    } else {
      NonNegativeReads(i, t);
    }
  }

  // ---------------------------------------------------------------- values

  predicate StartsValue(c: char) {
    c == 'n' || c == 't' || c == 'f' || c == '"' || c == '[' || c == '{' || c == '-' || IsDigit(c)
  }

  lemma {:induction false} EntryStarts(e: Entry, keyed: bool)
    requires Valid(e.value)
    ensures WriteEntry(e, keyed) != "" && StartsValue(WriteEntry(e, keyed)[0])
  {
  }

  ghost predicate ValidEntries(entries: seq<Entry>) {
    forall e :: e in entries ==> ValidKey(e.key) && Valid(e.value)
  }

  lemma {:induction false} EntriesStart(entries: seq<Entry>, keyed: bool)
    requires entries != [] && ValidEntries(entries)
    ensures WriteEntries(entries, keyed) != "" && StartsValue(WriteEntries(entries, keyed)[0])
  {
    EntryStarts(entries[0], keyed);
  }

  lemma {:induction false} TextStarts(entries: seq<Entry>, keyed: bool, close: string, u: string)
    requires entries != [] && ValidEntries(entries) && u == WriteEntries(entries, keyed) + close
    ensures u != "" && StartsValue(u[0])
  {
    EntriesStart(entries, keyed);
    assert u[0] == WriteEntries(entries, keyed)[0];
  }

  lemma {:induction false} KeyReads(k: Key)
    requires ValidKey(k)
    ensures ToKey(KeyText(k)) == k
  {
    if k.IntKey? {
      IntegerKeyDecimal(k.i);
    }
  }

  lemma {:induction false} PutFresh(entries: seq<Entry>, key: Key, value: Value)
    requires forall e :: e in entries ==> e.key != key
    ensures Put(entries, key, value) == entries + [Entry(key, value)]
  {
    if entries != [] {
      PutFresh(entries[1..], key, value);
    }
  }

  lemma {:induction false} LiteralStarts(v: Value, t: string)
    requires v.Null? || v.Bool?
    ensures ReadLiteral(Write(v) + t) == Ok(v, t)
  {
    var w := Write(v);
    assert (w + t)[..|w|] == w && (w + t)[|w|..] == t && Lower(w) == w;
    assert v.Bool? ==> Lower((w + t)[..4])[0] == LowerChar(w[0]) != 'n';
    assert v == Bool(false) ==> Lower((w + t)[..4])[0] == 'f';
  }

  lemma {:induction false} LiteralReads(v: Value, t: string, level: nat)
    requires v.Null? || v.Bool?
    ensures Read(Write(v) + t, level) == Ok(v, t)
  {
    assert (Write(v) + t)[0] == Write(v)[0];
    LiteralStarts(v, t);
  }

  lemma {:induction false} NumberValueStep(s: string, level: nat)
    requires s != "" && (s[0] == '-' || IsDigit(s[0]))
    ensures Read(s, level) == ReadNumber(s)
  {
  }

  lemma {:induction false} IntReads(i: int, t: string, level: nat)
    requires InRange(i) && NumberEnds(t)
    ensures Read(Write(Int(i)) + t, level) == Ok(Int(i), t)
  {
    var s := Decimal(i) + t;
    assert s[0] == Decimal(i)[0] && (i >= 0 ==> IsDigit(DecimalNat(i)[0]));
    NumberReads(i, t);
    NumberValueStep(s, level);
  }

  lemma {:induction false} StrReads(s: string, t: string, level: nat)
    ensures Read(Write(Str(s)) + t, level) == Ok(Str(s), t)
  {
    QuoteReads(s, t);
  }

  lemma {:induction false} ValueReads(v: Value, t: string, level: nat)
    requires Valid(v) && NumberEnds(t) && Depth(v) + level <= MAX_DEPTH
    ensures Read(Write(v) + t, level) == Ok(v, t)
    decreases v, 1
  {
    match v {
      case Null => LiteralReads(v, t, level);
      case Bool(_) => LiteralReads(v, t, level);
      case Int(i) => IntReads(i, t, level);
      case Str(s) => StrReads(s, t, level);
      case Array(entries) =>
        if entries == [] {
          EmptyArrayReads(t, level);
        } else {
          NonEmptyArrayReads(entries, t, level);
        }
    }
  }

  lemma {:induction false} NonEmptyArrayReads(entries: seq<Entry>, t: string, level: nat)
    requires entries != [] && DistinctKeys(entries) && ValidEntries(entries)
    requires 1 + DepthOfEntries(entries) + level <= MAX_DEPTH
    ensures Read(Write(Array(entries)) + t, level) == Ok(Array(entries), t)
    decreases entries, 3
  {
    ArrayText(entries, t);
    if IsList(entries) {
      var u := WriteEntries(entries, false) + ("]" + t);
      ListTextReads(entries, u, t, level);
      BracketReads(u, level);
    } else {
      var u := WriteEntries(entries, true) + ("}" + t);
      ObjectTextReads(entries, u, t, level);
      BracketReads(u, level);
    }
  }

  lemma {:induction false} ListStep(level: nat, u: string, es: seq<Entry>, t: string)
    requires u != "" && StartsValue(u[0])
    requires level < MAX_DEPTH && ReadElements(u, level + 1, []) == Ok(es, t)
    ensures ReadList(u, level) == Ok(Array(es), t)
  {
  }

  lemma {:induction false} ObjectStep(level: nat, u: string, es: seq<Entry>, t: string)
    requires u != "" && StartsValue(u[0])
    requires level < MAX_DEPTH && ReadMembers(u, level + 1, []) == Ok(es, t)
    ensures ReadObject(u, level) == Ok(Array(es), t)
  {
  }

  lemma {:induction false} BracketReads(u: string, level: nat)
    ensures Read(['['] + u, level) == ReadList(u, level)
    ensures Read(['{'] + u, level) == ReadObject(u, level)
  {
    assert (['['] + u)[1..] == u && (['{'] + u)[1..] == u;
  }

  lemma {:induction false} ArrayText(entries: seq<Entry>, t: string)
    ensures IsList(entries) ==> Write(Array(entries)) + t == ['['] + (WriteEntries(entries, false) + ("]" + t))
    ensures !IsList(entries) ==> Write(Array(entries)) + t == ['{'] + (WriteEntries(entries, true) + ("}" + t))
  {
  }

  lemma {:induction false} EmptyArrayReads(t: string, level: nat)
    requires level < MAX_DEPTH
    ensures Read(Write(Array([])) + t, level) == Ok(Array([]), t)
  {
    var s := Write(Array([])) + t;
    assert s == "[]" + t;
    assert s[1..] == "]" + t;
  }

  lemma {:induction false} AllElementsRead(entries: seq<Entry>, u: string, t: string, level: nat)
    requires entries != [] && IsList(entries) && ValidEntries(entries) && DepthOfEntries(entries) + level <= MAX_DEPTH
    requires u == WriteEntries(entries, false) + ("]" + t)
    ensures ReadElements(u, level, []) == Ok(entries, t)
    decreases entries, 1
  {
    assert [] + entries == entries && ("]" + t)[1..] == t;
    ElementsRead(entries, "]" + t, level, []);
  }

  lemma {:induction false} AllMembersRead(entries: seq<Entry>, u: string, t: string, level: nat)
    requires entries != [] && DistinctKeys(entries) && ValidEntries(entries) &&
      DepthOfEntries(entries) + level <= MAX_DEPTH
    requires u == WriteEntries(entries, true) + ("}" + t)
    ensures ReadMembers(u, level, []) == Ok(entries, t)
    decreases entries, 1
  {
    assert [] + entries == entries && ("}" + t)[1..] == t;
    MembersRead(entries, "}" + t, level, []);
  }

  lemma {:induction false} ListTextReads(entries: seq<Entry>, u: string, t: string, level: nat)
    requires entries != [] && IsList(entries) && ValidEntries(entries)
    requires 1 + DepthOfEntries(entries) + level <= MAX_DEPTH
    requires u == WriteEntries(entries, false) + ("]" + t)
    ensures ReadList(u, level) == Ok(Array(entries), t)
    decreases entries, 2
  {
    hide *;
    TextStarts(entries, false, "]" + t, u);
    AllElementsRead(entries, u, t, level + 1);
    ListStep(level, u, entries, t);
  }

  lemma {:induction false} ObjectTextReads(entries: seq<Entry>, u: string, t: string, level: nat)
    requires entries != [] && DistinctKeys(entries) && ValidEntries(entries)
    requires 1 + DepthOfEntries(entries) + level <= MAX_DEPTH
    requires u == WriteEntries(entries, true) + ("}" + t)
    ensures ReadObject(u, level) == Ok(Array(entries), t)
    decreases entries, 2
  {
    hide *;
    TextStarts(entries, true, "}" + t, u);
    AllMembersRead(entries, u, t, level + 1);
    ObjectStep(level, u, entries, t);
  }

  lemma {:induction false} EntryValueReads(e: Entry, t: string, level: nat)
    requires Valid(e.value) && NumberEnds(t) && DepthOfEntry(e) + level <= MAX_DEPTH
    ensures Read(Write(e.value) + t, level) == Ok(e.value, t)
    decreases e, 2
  {
    ValueReads(e.value, t, level);
  }

  lemma {:induction false} Shift<T>(acc: seq<T>, s: seq<T>)
    requires s != []
    ensures acc + [s[0]] + s[1..] == acc + s
  {
  }

  lemma {:induction false} ElementsStep(s: string, level: nat, acc: seq<Entry>, v: Value, tail: string)
    requires Read(s, level) == Ok(v, tail)
    requires tail != "" && (tail[0] == ']' || tail[0] == ',')
    ensures ReadElements(s, level, acc) ==
            if tail[0] == ']' then Ok(acc + [Entry(IntKey(|acc|), v)], tail[1..])
            else ReadElements(tail[1..], level, acc + [Entry(IntKey(|acc|), v)])
  {
  }

  /** What follows the first entry in the text of a non-empty sequence of entries. */
  function Tail(entries: seq<Entry>, keyed: bool, close: string): string
    requires entries != []
  {
    if |entries| == 1 then close else "," + (WriteEntries(entries[1..], keyed) + close)
  }

  lemma {:induction false} EntriesText(entries: seq<Entry>, keyed: bool, close: string)
    requires entries != []
    ensures WriteEntries(entries, keyed) + close == WriteEntry(entries[0], keyed) + Tail(entries, keyed, close)
    ensures |entries| > 1 ==> Tail(entries, keyed, close)[1..] == WriteEntries(entries[1..], keyed) + close
  {
    if |entries| > 1 {
      var first, rest := WriteEntry(entries[0], keyed), WriteEntries(entries[1..], keyed);
      assert (first + "," + rest) + close == first + ("," + (rest + close));
    }
  }

  lemma {:induction false} ElementsRead(entries: seq<Entry>, close: string, level: nat, acc: seq<Entry>)
    requires entries != [] && ValidEntries(entries) && DepthOfEntries(entries) + level <= MAX_DEPTH
    requires forall i :: 0 <= i < |entries| ==> entries[i].key == IntKey(|acc| + i)
    requires close != "" && close[0] == ']'
    ensures ReadElements(WriteEntries(entries, false) + close, level, acc) == Ok(acc + entries, close[1..])
    decreases entries, 0
  {
    var first, rest, tail := entries[0], entries[1..], Tail(entries, false, close);
    assert first in entries && first == Entry(IntKey(|acc|), first.value);
    EntriesText(entries, false, close);
    EntryValueReads(first, tail, level);
    assert WriteEntry(first, false) == Write(first.value);
    ElementsStep(Write(first.value) + tail, level, acc, first.value, tail);
    Shift(acc, entries);
    if rest == [] {
      assert acc + [first] + rest == acc + [first];
    } else {
      RestEntries(entries);
      ElementsRead(rest, close, level, acc + [first]);
    }
  }

  lemma {:induction false} RestEntries(entries: seq<Entry>)
    requires entries != [] && ValidEntries(entries)
    ensures ValidEntries(entries[1..])
  {
  }

  lemma {:induction false} MembersStep(s: string, level: nat, acc: seq<Entry>, k: string, afterKey: string, v: Value,
                                       tail: string)
    requires s != "" && s[0] == '"' && ReadChars(s[1..]) == Ok(k, afterKey)
    requires afterKey != "" && afterKey[0] == ':' && Read(afterKey[1..], level) == Ok(v, tail)
    requires tail != "" && (tail[0] == '}' || tail[0] == ',')
    ensures ReadMembers(s, level, acc) ==
            if tail[0] == '}' then Ok(Put(acc, ToKey(k), v), tail[1..])
            else ReadMembers(tail[1..], level, Put(acc, ToKey(k), v))
  {
  }

  lemma {:induction false} MemberText(e: Entry, tail: string)
    ensures WriteEntry(e, true) + tail == Quote(KeyText(e.key)) + (":" + (Write(e.value) + tail))
    ensures (":" + (Write(e.value) + tail))[1..] == Write(e.value) + tail
  {
  }

  lemma {:induction false} MemberReads(e: Entry, tail: string, level: nat, acc: seq<Entry>)
    requires ValidKey(e.key) && Valid(e.value) && forall d :: d in acc ==> d.key != e.key
    requires tail != "" && (tail[0] == '}' || tail[0] == ',')
    requires Read(Write(e.value) + tail, level) == Ok(e.value, tail)
    ensures ReadMembers(WriteEntry(e, true) + tail, level, acc) ==
            if tail[0] == '}' then Ok(acc + [e], tail[1..]) else ReadMembers(tail[1..], level, acc + [e])
  {
    var afterKey := ":" + (Write(e.value) + tail);
    MemberText(e, tail);
    QuoteReads(KeyText(e.key), afterKey);
    KeyReads(e.key);
    PutFresh(acc, e.key, e.value);
    MembersStep(WriteEntry(e, true) + tail, level, acc, KeyText(e.key), afterKey, e.value, tail);
  }

  lemma {:induction false} FreshFirstKey(acc: seq<Entry>, entries: seq<Entry>)
    requires entries != [] && DistinctKeys(acc + entries)
    ensures forall e :: e in acc ==> e.key != entries[0].key
  {
    assert (acc + entries)[|acc|] == entries[0];
    assert forall i :: 0 <= i < |acc| ==> (acc + entries)[i] == acc[i];
  }

  lemma {:induction false} MembersRead(entries: seq<Entry>, close: string, level: nat, acc: seq<Entry>)
    requires entries != [] && ValidEntries(entries) && DepthOfEntries(entries) + level <= MAX_DEPTH
    requires DistinctKeys(acc + entries)
    requires close != "" && close[0] == '}'
    ensures ReadMembers(WriteEntries(entries, true) + close, level, acc) == Ok(acc + entries, close[1..])
    decreases entries, 0
  {
    var first, rest, tail := entries[0], entries[1..], Tail(entries, true, close);
    assert first in entries;
    EntriesText(entries, true, close);
    EntryValueReads(first, tail, level);
    FreshFirstKey(acc, entries);
    MemberReads(first, tail, level, acc);
    Shift(acc, entries);
    if rest == [] {
      assert acc + [first] + rest == acc + [first];
    } else {
      RestEntries(entries);
      MembersRead(rest, close, level, acc + [first]);
    }
  }

  /** json_decode inverts json_encode on every PHP array without floats whose nesting both accept. */
  lemma {:induction false} DecodeWrite(v: Value)
    requires Valid(v) && Depth(v) <= MAX_DEPTH
    ensures Decode(Write(v)) == Some(v)
  {
    ValueReads(v, "", 0);
    assert Write(v) + "" == Write(v);
  }
}
