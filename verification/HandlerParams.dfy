/**
 Parameters of serializer handlers. Each parameter becomes a text, arrays as escaped JSON; the
 texts are quoted, joined with commas and put between the angle brackets of a type name.
 */
module HandlerParams {
  import opened Wrappers
  import opened Php
  import opened Json
  import opened JsonRoundTrip
  import opened JsonGrammar

  function EncodeSingle(v: Value): Result<string> {
    match v
    case Str(s) => Success(s)
    case Int(i) => Success(Decimal(i))
    case Float(lexeme) => Success(lexeme)
    case Null => Success("")
    case Array(_) =>
      if Depth(v) <= MAX_DEPTH then Success(Write(v)) else Failure("Could not encode array parameter to json")
    case Bool(_) => Failure("Unsupported handler parameter type")
  }

  function DecodeSingle(s: string): Value {
    match Decode(s)
    case Some(v) => v
    case None => Str(s)
  }

  predicate IsJson(s: string) {
    Decode(s).Some?
  }

  function EncodeAll(params: seq<Value>): (r: Result<seq<string>>)
    ensures r.Success? ==> |r.value| == |params|
    ensures r.Success? ==> forall i :: 0 <= i < |params| ==> EncodeSingle(params[i]) == Success(r.value[i])
  {
    if params == [] then Success([])
    else
      var first :- EncodeSingle(params[0]);
      var rest :- EncodeAll(params[1..]);
      Success([first] + rest)
  }

  function EncodeList(params: seq<Value>): Result<string> {
    if params == [] then Success("")
    else
      var encoded :- EncodeAll(params);
      Success("'" + Implode("','", encoded) + "'")
  }

  /** Reads a comma-separated list of quoted texts, as the parameters of a type name are read. */
  function SplitQuoted(text: string): (r: Option<seq<string>>)
    ensures r.Some? ==> forall part :: part in r.value ==> '\'' !in part
  {
    if text == "" then Some([]) else if text[0] != '\'' then None else SplitAfterQuote(text[1..], "")
  }

  /** `part` is what has been read of the current text. */
  function SplitAfterQuote(text: string, part: string): (r: Option<seq<string>>)
    requires '\'' !in part
    ensures r.Some? ==> forall p :: p in r.value ==> '\'' !in p
    decreases |text|
  {
    if text == "" then None
    else if text[0] != '\'' then SplitAfterQuote(text[1..], part + [text[0]])
    else if |text| == 1 then Some([part])
    else if |text| >= 3 && text[1] == ',' && text[2] == '\'' then
      var rest := SplitAfterQuote(text[3..], "");
      if rest.None? then None else Some([part] + rest.value)
    else None
  }

  // ---------------------------------------------------------------- one parameter

  /**
   Decoding inverts encoding exactly for integers, for arrays, and for the strings that are not
   themselves JSON; only booleans and arrays that are too deep are rejected.
   */
  lemma {:induction false} SingleRoundTrip(v: Value)
    requires Valid(v)
    ensures EncodeSingle(v).Failure? <==> v.Bool? || Depth(v) > MAX_DEPTH
    ensures EncodeSingle(v).Success? ==>
      (DecodeSingle(EncodeSingle(v).value) == v <==> v.Int? || v.Array? || (v.Str? && !IsJson(v.s)))
  {
    match v {
      case Int(i) => DecodeWrite(v);
      case Array(_) =>
        if Depth(v) <= MAX_DEPTH {
          DecodeWrite(v);
        }
      case _ =>
    }
  }

  /** A literal in any case is JSON, and comes back as the literal's value. */
  lemma {:induction false} LiteralDecodes(s: string)
    ensures Lower(s) == "null" ==> DecodeSingle(s) == Null
    ensures Lower(s) == "true" ==> DecodeSingle(s) == Bool(true)
    ensures Lower(s) == "false" ==> DecodeSingle(s) == Bool(false)
  {
    if Lower(s) == "null" || Lower(s) == "true" || Lower(s) == "false" {
      assert s[..|s|] == s && s[|s|..] == "";
      assert Lower(s)[0] == LowerChar(s[0]) && Lower(s[..4])[0] == Lower(s)[0];
    }
  }

  lemma {:induction false} LowerTrue()
    ensures Lower("TRUE") == "true"
  {
  }

  lemma {:induction false} LowerNull()
    ensures Lower("Null") == "null"
  {
  }

  /** A string of digits comes back as an integer, a literal in any case as its value, null as the empty string. */
  lemma {:induction false} RoundTripFailures()
    ensures DecodeSingle("12") == Int(12) && EncodeSingle(Str("12")) == Success("12")
    ensures DecodeSingle("TRUE") == Bool(true) && EncodeSingle(Str("TRUE")) == Success("TRUE")
    ensures DecodeSingle("Null") == Null && EncodeSingle(Str("Null")) == Success("Null")
    ensures DecodeSingle("") == Str("") && EncodeSingle(Null) == Success("")
    ensures EncodeSingle(Bool(true)).Failure?
  {
    assert DecimalNat(12) == DecimalNat(1) + [Digit(2)];
    assert "12" == Decimal(12);
    DecodeWrite(Int(12));
    hide *;
    assert Lower("TRUE") == "true" by {
      LowerTrue();
    }
    assert Lower("Null") == "null" by {
      LowerNull();
    }
    LiteralDecodes("TRUE");
    LiteralDecodes("Null");
  }

  /** The text of a number with a fraction, an exponent, too many digits, or of the negative zero. */
  predicate SpellsFloat(n: NumberText, s: string) {
    && IsNumber(n) && NumberSpelled(n) == s
    && (n.fraction.Some? || n.exponent.Some? || !InRange(Signed(n.negative, DigitsValue(n.digits))) ||
        (n.negative && n.digits == "0"))
  }

  ghost predicate IsFloatText(s: string) {
    exists n: NumberText :: SpellsFloat(n, s)
  }

  /** The text of any number comes back as the number it is the text of. */
  lemma {:induction false} NumberTextDecodes(n: NumberText)
    requires IsNumber(n)
    ensures DecodeSingle(NumberSpelled(n)) == NumberValue(n)
  {
    NumberTreeReads(n, "", 0);
    hide NumberSpelled, NumberValue, Read;
    assert NumberSpelled(n) + "" == NumberSpelled(n);
  }

  lemma {:induction false} FloatNumber(text: string) returns (n: NumberText)
    requires DecodeSingle(text) == Float(text)
    ensures SpellsFloat(n, text)
  {
    hide Read, ElementText, ElementValue, NumberSpelled, Spelled, Chars, WellElement, WordValue, DigitsValue;
    DecodeIff(text, Float(text));
    var e: Element :| ElementText(e) == text && WellElement(e, 0) && ElementValue(e, 0) == Float(text);
    n := FloatTree(e);
  }

  lemma {:induction false} FloatTree(e: Element) returns (n: NumberText)
    requires WellElement(e, 0) && ElementValue(e, 0).Float?
    ensures SpellsFloat(n, ElementValue(e, 0).lexeme)
  {
    hide NumberSpelled, Spelled, Chars, DigitsValue, EntriesOf, PutAll;
    n := e.tree.number;
  }

  /** A float parameter is its own text, and comes back exactly when no integer and no string has that text. */
  lemma {:induction false} FloatRoundTrip(text: string)
    ensures EncodeSingle(Float(text)) == Success(text)
    ensures DecodeSingle(text) == Float(text) <==> IsFloatText(text)
  {
    hide DecodeSingle, NumberSpelled, DigitsValue;
    if DecodeSingle(text) == Float(text) {
      var n := FloatNumber(text);
    }
    if n: NumberText :| SpellsFloat(n, text) {
      NumberTextDecodes(n);
    }
  }

  // ---------------------------------------------------------------- no markup in encoded arrays

  /** ASCII, free of the quotes that end a parameter and of the brackets and ampersands that the HEX options remove. */
  predicate Plain(s: string) {
    forall i :: 0 <= i < |s| ==>
      32 <= s[i] as int < 128 && s[i] != '\'' && s[i] != '<' && s[i] != '>' && s[i] != '&'
  }

  lemma {:induction false} PlainConcat(s: string, t: string)
    requires Plain(s) && Plain(t)
    ensures Plain(s + t)
  {
  }

  lemma {:induction false} UnicodeEscapeIsPlain(n: nat, upper: bool)
    requires n < 0x10000
    ensures Plain(UnicodeEscape(n, upper))
  {
  }

  lemma {:induction false} EscapeIsPlain(c: char)
    ensures Plain(Escape(c))
  {
    hide UnicodeEscape, Nibbles, HighSurrogate, LowSurrogate;
    var n := c as int;
    if n < 0x10000 {
      UnicodeEscapeIsPlain(n, false);
      UnicodeEscapeIsPlain(n, true);
    } else {
      UnicodeEscapeIsPlain(HighSurrogate(n), false);
      UnicodeEscapeIsPlain(LowSurrogate(n), false);
      PlainConcat(UnicodeEscape(HighSurrogate(n), false), UnicodeEscape(LowSurrogate(n), false));
    }
  }

  lemma {:induction false} QuoteIsPlain(s: string)
    ensures Plain(EscapeAll(s)) && Plain(Quote(s))
  {
    if s != "" {
      EscapeIsPlain(s[0]);
      QuoteIsPlain(s[1..]);
    }
  }

  lemma {:induction false} DecimalIsPlain(i: int)
    ensures Plain(Decimal(i))
  {
  }

  lemma {:induction false} WriteIsPlain(v: Value)
    requires Valid(v)
    ensures Plain(Write(v))
    decreases v, 1
  {
    match v {
      case Int(i) => DecimalIsPlain(i);
      case Str(s) => QuoteIsPlain(s);
      case Array(entries) => EntriesArePlain(entries, !IsList(entries));
      case _ =>
    }
  }

  lemma {:induction false} EntryIsPlain(e: Entry, keyed: bool)
    requires Valid(e.value)
    ensures Plain(WriteEntry(e, keyed))
    decreases e, 2
  {
    WriteIsPlain(e.value);
    QuoteIsPlain(KeyText(e.key));
  }

  lemma {:induction false} EntriesArePlain(entries: seq<Entry>, keyed: bool)
    requires ValidEntries(entries)
    ensures Plain(WriteEntries(entries, keyed))
    decreases entries, 0
  {
    if entries != [] {
      EntryIsPlain(entries[0], keyed);
      EntriesArePlain(entries[1..], keyed);
    }
  }

  // ---------------------------------------------------------------- parameter lists

  lemma {:induction false} SplitPart(part: string, read: string, tail: string)
    requires '\'' !in part && '\'' !in read
    ensures SplitAfterQuote(part + ['\''] + tail, read) == SplitAfterQuote(['\''] + tail, read + part)
    decreases |part|
  {
    if part == "" {
      assert part + ['\''] + tail == ['\''] + tail && read + part == read;
    } else {
      var text := part + ['\''] + tail;
      assert text[1..] == part[1..] + ['\''] + tail;
      assert read + part == read + [part[0]] + part[1..];
      SplitPart(part[1..], read + [part[0]], tail);
    }
  }

  lemma {:induction false} SplitImploded(parts: seq<string>)
    requires parts != [] && forall p :: p in parts ==> '\'' !in p
    ensures SplitAfterQuote(Implode("','", parts) + "'", "") == Some(parts)
  {
    var first := parts[0];
    assert "" + first == first;
    if |parts| == 1 {
      SplitPart(first, "", "");
      assert Implode("','", parts) + "'" == first + ['\''] + "";
      assert parts == [first];
    } else {
      var rest := Implode("','", parts[1..]) + "'";
      SplitImploded(parts[1..]);
      SplitPart(first, "", ",'" + rest);
      assert Implode("','", parts) + "'" == first + ['\''] + (",'" + rest);
      var text := ['\''] + (",'" + rest);
      assert text[0] == '\'' && text[1] == ',' && text[2] == '\'' && text[3..] == rest;
      assert [first] + parts[1..] == parts;
    }
  }

  lemma {:induction false} SplitJoined(parts: seq<string>)
    requires parts != []
    ensures SplitQuoted("'" + Implode("','", parts) + "'") == Some(parts) <==> forall p :: p in parts ==> '\'' !in p
  {
    var body := Implode("','", parts) + "'";
    assert "'" + Implode("','", parts) + "'" == ['\''] + body;
    assert (['\''] + body)[1..] == body;
    if forall p :: p in parts ==> '\'' !in p {
      SplitImploded(parts);
    }
  }

  predicate QuoteFree(v: Value) {
    v.Str? ==> '\'' !in v.s
  }

  lemma {:induction false} EncodedIsQuoteFree(v: Value)
    requires Valid(v) && EncodeSingle(v).Success?
    ensures '\'' !in EncodeSingle(v).value <==> QuoteFree(v)
    ensures v.Array? ==> Plain(EncodeSingle(v).value)
  {
    match v {
      case Int(i) => DecimalIsPlain(i);
      case Array(_) => WriteIsPlain(v);
      case _ =>
    }
  }

  function DecodeAll(parts: seq<string>): (r: seq<Value>)
    ensures |r| == |parts|
    ensures forall i :: 0 <= i < |parts| ==> r[i] == DecodeSingle(parts[i])
  {
    if parts == [] then [] else [DecodeSingle(parts[0])] + DecodeAll(parts[1..])
  }

  predicate RoundTrips(v: Value) {
    v.Int? || v.Array? || (v.Str? && !IsJson(v.s))
  }

  /** The joined text splits back into the encoded parameters exactly when no string holds an apostrophe. */
  lemma {:induction false} ListSplits(params: seq<Value>)
    requires forall v :: v in params ==> Valid(v)
    requires EncodeList(params).Success?
    ensures EncodeAll(params).Success?
    ensures SplitQuoted(EncodeList(params).value) == Some(EncodeAll(params).value) <==>
            forall v :: v in params ==> QuoteFree(v)
  {
    if params != [] {
      var parts := EncodeAll(params).value;
      SplitJoined(parts);
      forall i | 0 <= i < |params|
        ensures '\'' !in parts[i] <==> QuoteFree(params[i])
      {
        EncodedIsQuoteFree(params[i]);
      }
      if forall v :: v in params ==> QuoteFree(v) {
        assert forall p :: p in parts ==> '\'' !in p;
      } else {
        var v :| v in params && !QuoteFree(v);
        var i :| 0 <= i < |params| && params[i] == v;
        assert parts[i] in parts;
      }
    }
  }

  /** Splitting and decoding recovers a whole list of quote-free parameters exactly when each one decodes back. */
  lemma {:induction false} ListRoundTrip(params: seq<Value>)
    requires forall v :: v in params ==> Valid(v) && QuoteFree(v)
    requires EncodeList(params).Success?
    ensures SplitQuoted(EncodeList(params).value).Some?
    ensures DecodeAll(SplitQuoted(EncodeList(params).value).value) == params <==>
      forall v :: v in params ==> RoundTrips(v)
  {
    ListSplits(params);
    var parts := EncodeAll(params).value;
    forall i | 0 <= i < |params|
      ensures DecodeAll(parts)[i] == params[i] <==> RoundTrips(params[i])
    {
      SingleRoundTrip(params[i]);
    }
    if DecodeAll(parts) == params {
      forall v | v in params
        ensures RoundTrips(v)
      {
        var i :| 0 <= i < |params| && params[i] == v;
        assert DecodeAll(parts)[i] == params[i];
      }
    }
  }
}
