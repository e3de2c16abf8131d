/** A JSON parser for what section 4 of RFC 8259 calls objects, and the proof that it
    reads a formatted record back. */
module JsonParser {
  import opened Bytes
  import opened Wrappers
  import opened Escaping
  import opened Joining
  import opened JsonText
  import opened Records
  import opened JsonFormatter
  import Base64

  const PLUS: Byte := 43

  datatype Json =
    | JString(text: Text)
    | JNumber(literal: Text)
    | JBool(truth: bool)
    | JNull
    | JObject(members: seq<Member>)

  datatype Member = Member(name: Text, value: Json)

  // ---- numbers: section 6 of RFC 8259 ---------------------------------------

  function DigitRun(t: Text): (n: nat)
    ensures n <= |t| && forall i | 0 <= i < n :: IsDigit(t[i])
  {
    if t == [] || !IsDigit(t[0]) then 0 else 1 + DigitRun(t[1..])
  }

  predicate IsExponent(t: Text)
  {
    t == []
    || ((t[0] == 69 || t[0] == 101)
        && var digits := if |t| > 1 && (t[1] == PLUS || t[1] == MINUS) then t[2..] else t[1..];
           digits != [] && DigitRun(digits) == |digits|)
  }

  predicate IsFraction(t: Text)
  {
    if t != [] && t[0] == DOT then
      var n := DigitRun(t[1..]);
      n > 0 && IsExponent(t[1 + n..])
    else IsExponent(t)
  }

  predicate IsUnsigned(t: Text)
  {
    var n := DigitRun(t);
    n > 0 && (t[0] == ZERO ==> n == 1) && IsFraction(t[n..])
  }

  predicate IsNumber(t: Text)
  {
    IsUnsigned(if t != [] && t[0] == MINUS then t[1..] else t)
  }

  predicate NumberByte(c: Byte)
  {
    IsDigit(c) || c == MINUS || c == PLUS || c == DOT || c == 69 || c == 101
  }

  function NumberLength(t: Text): (n: nat)
    ensures n <= |t|
  {
    if t == [] || !NumberByte(t[0]) then 0 else 1 + NumberLength(t[1..])
  }

  // ---- values ---------------------------------------------------------------

  /** The text of a string, from behind its opening quote. */
  function ParseString(t: Text): (r: Option<Parsed<Text>>)
    ensures r.Some? ==> |r.value.rest| < |t|
  {
    var k := FirstUnescaped(t, QUOTE);
    if k == |t| || Unescape(t[..k]).None? then None else Some(Parsed(Unescape(t[..k]).value, t[k + 1..]))
  }

  function ParseLiteral(t: Text, word: Text, value: Json): Option<Parsed<Json>>
  {
    if |t| >= |word| && t[..|word|] == word then Some(Parsed(value, t[|word|..])) else None
  }

  function ParseNumber(t: Text): Option<Parsed<Json>>
  {
    var n := NumberLength(t);
    if IsNumber(t[..n]) then Some(Parsed(JNumber(t[..n]), t[n..])) else None
  }

  function ParseText(t: Text): Option<Parsed<Json>>
  {
    var s := ParseString(t);
    if s.None? then None else Some(Parsed(JString(s.value.value), s.value.rest))
  }

  function ParseValue(t: Text): (r: Option<Parsed<Json>>)
    ensures r.Some? ==> |r.value.rest| < |t|
    decreases |t|, 0
  {
    if t == [] then None
    else if t[0] == QUOTE then ParseText(t[1..])
    else if t[0] == LBRACE then
      var o := ParseObject(t[1..]);
      if o.None? then None else Some(Parsed(JObject(o.value.value), o.value.rest))
    else if t[0] == TRUE[0] then ParseLiteral(t, TRUE, JBool(true))
    else if t[0] == FALSE[0] then ParseLiteral(t, FALSE, JBool(false))
    else if t[0] == NULL[0] then ParseLiteral(t, NULL, JNull)
    else if t[0] == MINUS || IsDigit(t[0]) then ParseNumber(t)
    else None
  }

  /** The members of an object, from behind its opening brace. */
  function ParseObject(t: Text): (r: Option<Parsed<seq<Member>>>)
    ensures r.Some? ==> |r.value.rest| < |t|
    decreases |t|, 3
  {
    if t != [] && t[0] == RBRACE then Some(Parsed([], t[1..])) else ParseMembers(t)
  }

  function ParseMembers(t: Text): (r: Option<Parsed<seq<Member>>>)
    ensures r.Some? ==> |r.value.rest| < |t|
    decreases |t|, 2
  {
    var m := ParseMember(t);
    if m.None? || m.value.rest == [] then None
    else if m.value.rest[0] == RBRACE then Some(Parsed([m.value.value], m.value.rest[1..]))
    else if m.value.rest[0] != COMMA then None
    else
      var more := ParseMembers(m.value.rest[1..]);
      if more.None? then None else Some(Parsed([m.value.value] + more.value.value, more.value.rest))
  }

  function ParseMember(t: Text): (r: Option<Parsed<Member>>)
    ensures r.Some? ==> |r.value.rest| < |t|
    decreases |t|, 1
  {
    if t == [] || t[0] != QUOTE then None
    else
      var name := ParseString(t[1..]);
      if name.None? || name.value.rest == [] || name.value.rest[0] != COLON then None
      else
        var v := ParseValue(name.value.rest[1..]);
        if v.None? then None else Some(Parsed(Member(name.value.value, v.value.value), v.value.rest))
  }

  /** One object and perhaps a line end. */
  function Parse(record: Text): Option<seq<Member>>
  {
    var line := if record != [] && record[|record| - 1] == NEWLINE then record[..|record| - 1] else record;
    var v := ParseValue(line);
    if v.Some? && v.value.rest == [] && v.value.value.JObject? then Some(v.value.value.members) else None
  }

  // ---- what the formatter means ---------------------------------------------

  /** A member a record should have, and whether its texts and numbers are such that
      JSON, as written here, can carry them. */
  datatype Meaning = Meaning(member: Member, clean: bool)

  /** Whether a text written between quotes as it is makes a JSON string. */
  predicate Legible(raw: Text)
  {
    Unescape(raw).Some?
  }

  /** The string it makes. */
  function Meant(raw: Text): Text
  {
    if Legible(raw) then Unescape(raw).value else raw
  }

  function Rendered(t: Option<Text>): Json
  {
    if t.None? then JNull else JString(Meant(t.value))
  }

  predicate RenderedLegibly(t: Option<Text>)
  {
    t.Some? ==> Legible(t.value)
  }

  function FieldValue(o: Options, field: Field): Json
  {
    if field.sensitive then JString(Meant(o.redacted))
    else match field.value
      case Bool(truth) => JBool(truth)
      case Int(i) => JNumber(IntText(i))
      case Uint(n) => JNumber(Decimal(n))
      case Real(x) => JNumber(FloatText(x))
      case Str(s) => JString(Truncated(o, s))
      case Time(t) => Rendered(t)
      case Duration(t) => Rendered(t)
      case Error(s) => JString(s)
      case Object(shown) => JString(shown)
      case Array(shown) => JString(shown)
      case Binary(data, _) => if data.None? then JNull else JString(Base64.Encode(data.value))
      case Unknown => JNull
  }

  /** No raw control byte would be left, and no float that JSON cannot write. */
  predicate CleanValue(o: Options, field: Field)
  {
    if field.sensitive then Legible(o.redacted)
    else match field.value
    case Real(x) => x.Finite?
    case Time(t) => RenderedLegibly(t)
    case Duration(t) => RenderedLegibly(t)
    case Str(s) => OnlyNamedControls(Truncated(o, s))
    case Error(s) => OnlyNamedControls(s)
    case Object(shown) => OnlyNamedControls(shown)
    case Array(shown) => OnlyNamedControls(shown)
    case _ => true
  }

  function FieldMeaning(o: Options, field: Field): Meaning
  {
    Meaning(Member(o.convert(field.key), FieldValue(o, field)),
            OnlyNamedControls(o.convert(field.key)) && CleanValue(o, field))
  }

  function FieldMeanings(o: Options, fields: seq<Field>): seq<Meaning>
  {
    if fields == [] then []
    else FieldMeanings(o, fields[..|fields| - 1]) + [FieldMeaning(o, fields[|fields| - 1])]
  }

  function CallerMeanings(caller: Caller): seq<Meaning>
  {
    [Meaning(Member(FILE_KEY, JString(caller.file)), OnlyNamedControls(caller.file)),
     Meaning(Member(LINE_KEY, JNumber(IntText(caller.line))), true),
     Meaning(Member(FUNCTION_KEY, JString(caller.name)), OnlyNamedControls(caller.name))]
  }

  function CallerMeaning(o: Options, caller: Caller): Meaning
  {
    Meaning(Member(Meant(o.callerKey), JObject(Members(CallerMeanings(caller)))),
            Legible(o.callerKey) && AllClean(CallerMeanings(caller)))
  }

  function StampMeanings(o: Options, level: nat, time: Text): seq<Meaning>
  {
    Optional(!o.noTimestamp,
             Meaning(Member(Meant(o.timeKey), JString(Meant(time))), Legible(o.timeKey) && Legible(time)))
    + Optional(!o.noLevel && level < DISABLED,
               Meaning(Member(Meant(o.levelKey), JString(LevelText(level))), Legible(o.levelKey)))
  }

  function MessageMeanings(o: Options, message: Text, caller: Option<Caller>): seq<Meaning>
  {
    Optional(message != [],
             Meaning(Member(Meant(o.messageKey), JString(message)),
                     Legible(o.messageKey) && OnlyNamedControls(message)))
    + (if caller.None? then [] else [CallerMeaning(o, caller.value)])
  }

  function Meanings(o: Options, level: nat, time: Text, message: Text, caller: Option<Caller>, fields: seq<Field>)
    : seq<Meaning>
  {
    StampMeanings(o, level, time) + MessageMeanings(o, message, caller) + FieldMeanings(o, fields)
  }

  predicate AllClean(ms: seq<Meaning>)
  {
    forall i | 0 <= i < |ms| :: ms[i].clean
  }

  function Members(ms: seq<Meaning>): seq<Member>
  {
    if ms == [] then [] else [ms[0].member] + Members(ms[1..])
  }

  /** Text without a bare quotation mark or an open backslash, so that between quotes it
      ends where it should. Option strings and rendered times are written without
      escaping and must be such. */
  predicate Closed(raw: Text)
  {
    Sealed(raw, QUOTE)
  }

  predicate ClosedOptions(o: Options)
  {
    Closed(o.timeKey) && Closed(o.levelKey) && Closed(o.messageKey) && Closed(o.callerKey) && Closed(o.redacted)
  }

  /** The text a field value writes as it is, if any. */
  function AsItIs(o: Options, field: Field): Option<Text>
  {
    if field.sensitive then Some(o.redacted)
    else match field.value
      case Time(t) => t
      case Duration(t) => t
      case _ => None
  }

  predicate ClosedField(o: Options, field: Field)
  {
    AsItIs(o, field).Some? ==> Closed(AsItIs(o, field).value)
  }

  /** Text that needs no escaping is closed and legible and means itself. */
  lemma PlainMeansItself(s: Text)
    requires Plain(s)
    ensures Closed(s) && Legible(s) && Meant(s) == s
  {
    PlainEscape(s);
    EscapeIsSealed(s);
    UnescapeEscape(s);
  }

  predicate PlainOptions(o: Options)
  {
    Plain(o.timeKey) && Plain(o.levelKey) && Plain(o.messageKey) && Plain(o.callerKey) && Plain(o.redacted)
  }

  lemma DefaultOptionsArePlain()
    ensures PlainOptions(DefaultOptions())
  {
  }

  lemma PlainOptionsMeanThemselves(o: Options)
    requires PlainOptions(o)
    ensures ClosedOptions(o)
    ensures forall k | k in [o.timeKey, o.levelKey, o.messageKey, o.callerKey, o.redacted] ::
              Legible(k) && Meant(k) == k
  {
    PlainMeansItself(o.timeKey);
    PlainMeansItself(o.levelKey);
    PlainMeansItself(o.messageKey);
    PlainMeansItself(o.callerKey);
    PlainMeansItself(o.redacted);
  }

  // ---- single values --------------------------------------------------------

  /** What may follow a value here. */
  predicate Ended(rest: Text)
  {
    rest == [] || rest[0] == COMMA || rest[0] == RBRACE
  }

  /** Whatever follows, the parser reads `raw` as v if clean, and refuses it if not. */
  ghost predicate Encodes(raw: Text, v: Json, clean: bool)
  {
    forall rest: Text {:trigger raw + rest} | Ended(rest) ::
      ParseValue(raw + rest) == if clean then Some(Parsed(v, rest)) else None
  }

  lemma StringParses(raw: Text, rest: Text)
    requires Sealed(raw, QUOTE)
    ensures ParseString(raw + ([QUOTE] + rest))
            == if Unescape(raw).None? then None else Some(Parsed(Unescape(raw).value, rest))
  {
    var t := raw + ([QUOTE] + rest);
    SealedEnds(raw, QUOTE, [QUOTE] + rest);
    assert t[..|raw|] == raw && t[|raw| + 1..] == rest;
  }

  lemma QuotedTail(raw: Text, rest: Text)
    ensures (Quoted(raw) + rest)[0] == QUOTE && (Quoted(raw) + rest)[1..] == raw + ([QUOTE] + rest)
  {
  }

  lemma QuotedEncodes(raw: Text, s: Text)
    requires Sealed(raw, QUOTE)
    requires Unescape(raw).Some? ==> Unescape(raw) == Some(s)
    ensures Encodes(Quoted(raw), JString(s), Unescape(raw).Some?)
  {
    forall rest: Text | Ended(rest)
      ensures ParseValue(Quoted(raw) + rest) == if Unescape(raw).Some? then Some(Parsed(JString(s), rest)) else None
    {
      QuotedTail(raw, rest);
      StringParses(raw, rest);
    }
  }

  lemma TextEncodes(s: Text)
    ensures Encodes(RawText(s), JString(s), OnlyNamedControls(s))
  {
    EscapeIsSealed(s);
    UnescapeEscape(s);
    QuotedEncodes(Escape(s), s);
  }

  /** A text of printable bytes, backspaces, tabs, newlines, form feeds and returns. */
  lemma OrdinaryTextEncodes(s: Text)
    requires forall i | 0 <= i < |s| :: s[i] >= 32 || s[i] == 8 || s[i] == 9 || s[i] == 10 || s[i] == 12 || s[i] == 13
    ensures Encodes(RawText(s), JString(s), true)
  {
    TextEncodes(s);
    assert forall i | 0 <= i < |s| :: NamedByte(s[i]);
  }

  lemma RawEncodes(raw: Text)
    requires Closed(raw)
    ensures Encodes(Quoted(raw), JString(Meant(raw)), Legible(raw))
  {
    QuotedEncodes(raw, Meant(raw));
  }

  lemma PlainEncodes(s: Text)
    requires Plain(s)
    ensures Encodes(Quoted(s), JString(s), true)
  {
    PlainMeansItself(s);
    RawEncodes(s);
  }

  lemma LiteralEncodes(word: Text, v: Json)
    requires (word == TRUE && v == JBool(true)) || (word == FALSE && v == JBool(false)) || (word == NULL && v == JNull)
    ensures Encodes(word, v, true)
  {
    forall rest: Text | Ended(rest) ensures ParseValue(word + rest) == Some(Parsed(v, rest)) {
      assert (word + rest)[..|word|] == word && (word + rest)[|word|..] == rest;
      assert (word + rest)[0] == word[0];
    }
  }

  lemma {:induction false} NumberEnds(raw: Text, rest: Text)
    requires forall i | 0 <= i < |raw| :: NumberByte(raw[i])
    requires rest == [] || !NumberByte(rest[0])
    ensures NumberLength(raw + rest) == |raw|
  {
    if raw == [] {
      assert raw + rest == rest;
    } else {
      assert (raw + rest)[1..] == raw[1..] + rest;
      NumberEnds(raw[1..], rest);
    }
  }

  lemma NumberEncodes(raw: Text)
    requires forall i | 0 <= i < |raw| :: NumberByte(raw[i])
    requires IsNumber(raw)
    ensures Encodes(raw, JNumber(raw), true)
  {
    NumberStarts(raw);
    forall rest: Text | Ended(rest) ensures ParseValue(raw + rest) == Some(Parsed(JNumber(raw), rest)) {
      NumberParses(raw, rest);
      assert (raw + rest)[0] == raw[0];
    }
  }

  lemma NumberStarts(raw: Text)
    requires IsNumber(raw)
    ensures raw != [] && (raw[0] == MINUS || IsDigit(raw[0]))
  {
  }

  lemma NumberParses(raw: Text, rest: Text)
    requires forall i | 0 <= i < |raw| :: NumberByte(raw[i])
    requires IsNumber(raw) && Ended(rest)
    ensures ParseNumber(raw + rest) == Some(Parsed(JNumber(raw), rest))
  {
    NumberEnds(raw, rest);
    assert (raw + rest)[..|raw|] == raw && (raw + rest)[|raw|..] == rest;
  }

  lemma {:induction false} DigitRunOf(digits: Text, rest: Text)
    requires forall i | 0 <= i < |digits| :: IsDigit(digits[i])
    requires rest == [] || !IsDigit(rest[0])
    ensures DigitRun(digits + rest) == |digits|
  {
    if digits == [] {
      assert digits + rest == rest;
    } else {
      assert (digits + rest)[1..] == digits[1..] + rest;
      DigitRunOf(digits[1..], rest);
    }
  }

  /** The fraction part of a float text, with its dot. */
  function FractionText(ds: seq<Digit>): Text
  {
    if ds == [] then [] else [DOT] + Digits(ds)
  }

  lemma FractionIsOne(ds: seq<Digit>)
    ensures IsFraction(FractionText(ds))
  {
    if ds != [] {
      var t := FractionText(ds);
      assert t[1..] == Digits(ds) + [];
      DigitRunOf(Digits(ds), []);
      assert t[1 + |Digits(ds)|..] == [];
    }
  }

  lemma DecimalIsUnsigned(n: nat, fraction: Text)
    requires IsFraction(fraction) && (fraction == [] || fraction[0] == DOT)
    ensures IsUnsigned(Decimal(n) + fraction)
  {
    DigitRunOf(Decimal(n), fraction);
    assert (Decimal(n) + fraction)[|Decimal(n)|..] == fraction;
  }

  lemma SignedDecimal(negative: bool, n: nat, fraction: Text)
    requires IsFraction(fraction) && (fraction == [] || fraction[0] == DOT)
    ensures IsNumber((if negative then [MINUS] else []) + Decimal(n) + fraction)
  {
    var body := Decimal(n) + fraction;
    DecimalIsUnsigned(n, fraction);
    if negative {
      assert [MINUS] + Decimal(n) + fraction == [MINUS] + body;
      SignAllowed(body);
    } else {
      assert [] + Decimal(n) + fraction == body;
      assert IsDigit(Decimal(n)[0]);
      assert body[0] == Decimal(n)[0];
      SignOptional(body);
    }
  }

  lemma SignOptional(body: Text)
    requires IsUnsigned(body) && body != [] && IsDigit(body[0])
    ensures IsNumber(body)
  {
  }

  lemma SignAllowed(body: Text)
    requires IsUnsigned(body)
    ensures IsNumber([MINUS] + body)
  {
    assert ([MINUS] + body)[1..] == body;
  }

  lemma DecimalEncodes(n: nat)
    ensures Encodes(Decimal(n), JNumber(Decimal(n)), true)
  {
    FractionIsOne([]);
    SignedDecimal(false, n, []);
    assert [] + Decimal(n) + [] == Decimal(n);
    NumberEncodes(Decimal(n));
  }

  lemma IntEncodes(i: int)
    ensures Encodes(IntText(i), JNumber(IntText(i)), true)
  {
    if i < 0 {
      FractionIsOne([]);
      SignedDecimal(true, -i, []);
      assert [MINUS] + Decimal(-i) + [] == IntText(i);
      NumberEncodes(IntText(i));
    } else {
      DecimalEncodes(i);
    }
  }

  lemma FiniteEncodes(x: Float)
    requires x.Finite?
    ensures Encodes(FloatText(x), JNumber(FloatText(x)), true)
  {
    FractionIsOne(x.fraction);
    SignedDecimal(x.negative, x.whole, FractionText(x.fraction));
    NumberEncodes(FloatText(x));
  }

  /** NaN and the infinities are no JSON values. */
  lemma OtherFloatsRefused(x: Float)
    requires !x.Finite?
    ensures Encodes(FloatText(x), JNumber(FloatText(x)), false)
  {
    var raw := FloatText(x);
    forall rest: Text | Ended(rest) ensures ParseValue(raw + rest) == None {
      assert (raw + rest)[0] == raw[0];
      if raw == MINUS_INF {
        var t := raw + rest;
        assert t[1] == 73 && !NumberByte(t[1]);
        assert t[1..][0] == t[1];
        assert NumberLength(t) == 1 + NumberLength(t[1..]) == 1;
        assert t[..1][1..] == [];
        assert DigitRun([]) == 0;
      }
    }
  }

  lemma FloatEncodes(x: Float)
    ensures Encodes(FloatText(x), JNumber(FloatText(x)), x.Finite?)
  {
    if x.Finite? {
      FiniteEncodes(x);
    } else {
      OtherFloatsRefused(x);
    }
  }

  lemma RenderedEncodes(t: Option<Text>)
    requires t.Some? ==> Closed(t.value)
    ensures Encodes(RawRendered(t), Rendered(t), RenderedLegibly(t))
  {
    if t.None? {
      LiteralEncodes(NULL, JNull);
    } else {
      RawEncodes(t.value);
    }
  }

  lemma {:induction false} Base64IsPlain(data: Text)
    ensures Plain(Base64.Encode(data))
    decreases |data|
  {
    if |data| >= 3 {
      Base64IsPlain(data[3..]);
      assert Plain(Base64.Quantum(data[0], data[1], data[2]));
    } else if |data| == 2 {
      assert Plain(Base64.LastTwo(data[0], data[1]));
    } else if |data| == 1 {
      assert Plain(Base64.LastOne(data[0]));
    }
  }

  lemma BinaryEncodes(data: Option<Text>)
    ensures data.None? ==> Encodes(NULL, JNull, true)
    ensures data.Some? ==> Encodes(Quoted(Base64.Encode(data.value)), JString(Base64.Encode(data.value)), true)
  {
    if data.None? {
      LiteralEncodes(NULL, JNull);
    } else {
      Base64IsPlain(data.value);
      PlainEncodes(Base64.Encode(data.value));
    }
  }

  lemma ValueEncodes(o: Options, field: Field)
    requires ClosedField(o, field)
    ensures Encodes(RawValue(o, field), FieldValue(o, field), CleanValue(o, field))
  {
    if field.sensitive {
      RawEncodes(o.redacted);
    } else {
      match field.value
      case Bool(truth) => LiteralEncodes(if truth then TRUE else FALSE, JBool(truth));
      case Int(i) => IntEncodes(i);
      case Uint(n) => DecimalEncodes(n);
      case Real(x) => FloatEncodes(x);
      case Str(s) => TextEncodes(Truncated(o, s));
      case Time(t) => RenderedEncodes(t);
      case Duration(t) => RenderedEncodes(t);
      case Error(s) => TextEncodes(s);
      case Object(shown) => TextEncodes(shown);
      case Array(shown) => TextEncodes(shown);
      case Binary(data, _) => BinaryEncodes(data);
      case Unknown => LiteralEncodes(NULL, JNull);
    }
  }

  // ---- members --------------------------------------------------------------

  /** Whatever follows, the parser reads the token as its member or refuses it. */
  ghost predicate Denotes(token: Text, m: Meaning)
  {
    && token != [] && token[0] == QUOTE
    && forall rest: Text {:trigger token + rest} | Ended(rest) ::
         ParseMember(token + rest) == if m.clean then Some(Parsed(m.member, rest)) else None
  }

  lemma TokenDenotes(rawKey: Text, key: Text, rawValue: Text, v: Json, clean: bool)
    requires Sealed(rawKey, QUOTE)
    requires Unescape(rawKey).Some? ==> Unescape(rawKey) == Some(key)
    requires Encodes(rawValue, v, clean)
    ensures Denotes(Token(rawKey, rawValue), Meaning(Member(key, v), Unescape(rawKey).Some? && clean))
  {
    var token, m := Token(rawKey, rawValue), Meaning(Member(key, v), Unescape(rawKey).Some? && clean);
    forall rest: Text | Ended(rest)
      ensures ParseMember(token + rest) == if m.clean then Some(Parsed(m.member, rest)) else None
    {
      var value := rawValue + rest;
      assert (token + rest)[1..] == rawKey + ([QUOTE] + ([COLON] + value));
      StringParses(rawKey, [COLON] + value);
      assert ([COLON] + value)[1..] == value;
    }
  }

  lemma RawKeyDenotes(key: Text, rawValue: Text, v: Json, clean: bool)
    requires Closed(key) && Encodes(rawValue, v, clean)
    ensures Denotes(Token(key, rawValue), Meaning(Member(Meant(key), v), Legible(key) && clean))
  {
    TokenDenotes(key, Meant(key), rawValue, v, clean);
  }

  lemma PlainKeyDenotes(key: Text, rawValue: Text, v: Json, clean: bool)
    requires Plain(key) && Encodes(rawValue, v, clean)
    ensures Denotes(Token(key, rawValue), Meaning(Member(key, v), clean))
  {
    PlainMeansItself(key);
    RawKeyDenotes(key, rawValue, v, clean);
  }

  lemma FieldDenotes(o: Options, field: Field)
    requires ClosedField(o, field)
    ensures Denotes(FieldToken(o, field), FieldMeaning(o, field))
  {
    var key := o.convert(field.key);
    ValueEncodes(o, field);
    EscapeIsSealed(key);
    UnescapeEscape(key);
    TokenDenotes(Escape(key), key, RawValue(o, field), FieldValue(o, field), CleanValue(o, field));
  }

  ghost predicate Denote(tokens: seq<Text>, ms: seq<Meaning>)
  {
    |tokens| == |ms| && forall i | 0 <= i < |tokens| :: Denotes(tokens[i], ms[i])
  }

  lemma DenoteAppend(t1: seq<Text>, m1: seq<Meaning>, t2: seq<Text>, m2: seq<Meaning>)
    requires Denote(t1, m1) && Denote(t2, m2)
    ensures Denote(t1 + t2, m1 + m2)
  {
  }

  /** What the parser makes of a list of members. */
  function Read(ms: seq<Meaning>, rest: Text): Option<Parsed<seq<Member>>>
  {
    if AllClean(ms) then Some(Parsed(Members(ms), rest)) else None
  }

  lemma AllCleanCons(ms: seq<Meaning>)
    requires ms != []
    ensures AllClean(ms) <==> ms[0].clean && AllClean(ms[1..])
  {
    assert forall i | 0 < i < |ms| :: ms[i] == ms[1..][i - 1];
  }

  lemma LastMemberParses(token: Text, m: Meaning, rest: Text)
    requires Denotes(token, m)
    ensures ParseMembers(token + ([RBRACE] + rest)) == Read([m], rest)
  {
    var end := [RBRACE] + rest;
    assert end[1..] == rest;
    assert ParseMember(token + end) == if m.clean then Some(Parsed(m.member, end)) else None;
    assert [m][0] == m && [m][1..] == [];
    assert Members([m]) == [m.member] + Members([]) == [m.member];
    assert AllClean([m]) <==> m.clean;
  }

  lemma NextMemberParses(token: Text, m: Meaning, more: Text)
    requires Denotes(token, m)
    ensures ParseMembers(token + ([COMMA] + more))
            == if !m.clean || ParseMembers(more).None? then None
               else Some(Parsed([m.member] + ParseMembers(more).value.value, ParseMembers(more).value.rest))
  {
    assert ([COMMA] + more)[1..] == more;
  }

  lemma Regroup(a: Text, sep: Byte, b: Text, c: Text)
    ensures a + [sep] + b + c == a + ([sep] + (b + c))
  {
  }

  lemma {:induction false} MembersParse(tokens: seq<Text>, ms: seq<Meaning>, rest: Text)
    requires tokens != [] && Denote(tokens, ms)
    ensures ParseMembers(Joined(tokens, COMMA) + ([RBRACE] + rest)) == Read(ms, rest)
    decreases |tokens|
  {
    assert Denotes(tokens[0], ms[0]);
    if |tokens| == 1 {
      JoinOne(tokens[0], COMMA);
      assert tokens == [tokens[0]] && ms == [ms[0]];
      LastMemberParses(tokens[0], ms[0], rest);
    } else {
      MembersParse(tokens[1..], ms[1..], rest);
      assert forall i | 0 <= i < |tokens| :: Denotes(tokens[i], ms[i]);
      JoinCons(tokens, COMMA);
      AllCleanCons(ms);
      var more := Joined(tokens[1..], COMMA) + ([RBRACE] + rest);
      NextMemberParses(tokens[0], ms[0], more);
      Regroup(tokens[0], COMMA, Joined(tokens[1..], COMMA), [RBRACE] + rest);
    }
  }

  lemma JoinedStarts(tokens: seq<Text>, ms: seq<Meaning>)
    requires tokens != [] && Denote(tokens, ms)
    ensures Joined(tokens, COMMA) != [] && Joined(tokens, COMMA)[0] == QUOTE
  {
    assert Denotes(tokens[0], ms[0]);
    if |tokens| == 1 {
      assert tokens == [tokens[0]];
      JoinOne(tokens[0], COMMA);
    } else {
      assert forall i | 0 <= i < |tokens| :: Denotes(tokens[i], ms[i]);
      JoinCons(tokens, COMMA);
    }
  }

  lemma ObjectParses(tokens: seq<Text>, ms: seq<Meaning>, rest: Text)
    requires Denote(tokens, ms)
    ensures ParseObject(Joined(tokens, COMMA) + ([RBRACE] + rest)) == Read(ms, rest)
  {
    if tokens == [] {
      assert Joined(tokens, COMMA) + ([RBRACE] + rest) == [RBRACE] + rest;
      assert ([RBRACE] + rest)[1..] == rest;
    } else {
      JoinedStarts(tokens, ms);
      MembersParse(tokens, ms, rest);
    }
  }

  lemma BracedEncodes(tokens: seq<Text>, ms: seq<Meaning>)
    requires Denote(tokens, ms)
    ensures Encodes(Braced(tokens), JObject(Members(ms)), AllClean(ms))
  {
    forall rest: Text | Ended(rest)
      ensures ParseValue(Braced(tokens) + rest)
              == if AllClean(ms) then Some(Parsed(JObject(Members(ms)), rest)) else None
    {
      ObjectParses(tokens, ms, rest);
      assert (Braced(tokens) + rest)[1..] == Joined(tokens, COMMA) + ([RBRACE] + rest);
    }
  }

  // ---- records --------------------------------------------------------------

  lemma CallerEncodes(caller: Caller)
    ensures Encodes(Braced(CallerTokens(caller)), JObject(Members(CallerMeanings(caller))),
                    AllClean(CallerMeanings(caller)))
  {
    TextEncodes(caller.file);
    PlainKeyDenotes(FILE_KEY, RawText(caller.file), JString(caller.file), OnlyNamedControls(caller.file));
    IntEncodes(caller.line);
    PlainKeyDenotes(LINE_KEY, IntText(caller.line), JNumber(IntText(caller.line)), true);
    TextEncodes(caller.name);
    PlainKeyDenotes(FUNCTION_KEY, RawText(caller.name), JString(caller.name), OnlyNamedControls(caller.name));
    BracedEncodes(CallerTokens(caller), CallerMeanings(caller));
  }

  lemma CallerDenotes(o: Options, caller: Caller)
    requires Closed(o.callerKey)
    ensures Denotes(CallerToken(o, caller), CallerMeaning(o, caller))
  {
    CallerEncodes(caller);
    RawKeyDenotes(o.callerKey, Braced(CallerTokens(caller)), JObject(Members(CallerMeanings(caller))),
                  AllClean(CallerMeanings(caller)));
  }

  lemma LevelTextPlain(level: nat)
    requires level < DISABLED
    ensures Plain(LevelText(level))
  {
  }

  lemma StampsDenote(o: Options, level: nat, time: Text)
    requires ClosedOptions(o) && Closed(time)
    ensures Denote(StampTokens(o, level, time), StampMeanings(o, level, time))
  {
    RawEncodes(time);
    RawKeyDenotes(o.timeKey, Quoted(time), JString(Meant(time)), Legible(time));
    if level < DISABLED {
      LevelTextPlain(level);
      PlainEncodes(LevelText(level));
      RawKeyDenotes(o.levelKey, Quoted(LevelText(level)), JString(LevelText(level)), true);
    }
  }

  lemma MessageDenotes(o: Options, message: Text, caller: Option<Caller>)
    requires ClosedOptions(o)
    ensures Denote(MessageTokens(o, message, caller), MessageMeanings(o, message, caller))
  {
    TextEncodes(message);
    RawKeyDenotes(o.messageKey, RawText(message), JString(message), OnlyNamedControls(message));
    if caller.Some? {
      CallerDenotes(o, caller.value);
    }
  }

  lemma {:induction false} FieldsDenote(o: Options, fields: seq<Field>)
    requires ClosedOptions(o) && forall i | 0 <= i < |fields| :: ClosedField(o, fields[i])
    ensures Denote(FieldTokens(o, fields), FieldMeanings(o, fields))
    decreases |fields|
  {
    if fields != [] {
      FieldsDenote(o, fields[..|fields| - 1]);
      FieldDenotes(o, fields[|fields| - 1]);
    }
  }

  lemma RecordDenotes(o: Options, level: nat, time: Text, message: Text, caller: Option<Caller>, fields: seq<Field>)
    requires ClosedOptions(o) && Closed(time)
    requires forall i | 0 <= i < |fields| :: ClosedField(o, fields[i])
    ensures Denote(Tokens(o, level, time, message, caller, fields), Meanings(o, level, time, message, caller, fields))
  {
    StampsDenote(o, level, time);
    MessageDenotes(o, message, caller);
    FieldsDenote(o, fields);
    DenoteAppend(StampTokens(o, level, time), StampMeanings(o, level, time),
                 MessageTokens(o, message, caller), MessageMeanings(o, message, caller));
    DenoteAppend(HeaderTokens(o, level, time, message, caller),
                 StampMeanings(o, level, time) + MessageMeanings(o, message, caller),
                 FieldTokens(o, fields), FieldMeanings(o, fields));
  }

  lemma LineParses(tokens: seq<Text>, ms: seq<Meaning>, end: Text)
    requires Denote(tokens, ms) && (end == [] || end == [NEWLINE])
    ensures Parse(Braced(tokens) + end) == if AllClean(ms) then Some(Members(ms)) else None
  {
    var line := Braced(tokens);
    BracedEncodes(tokens, ms);
    assert line + [] == line;
    assert line[|line| - 1] == RBRACE;
    assert (line + [NEWLINE])[..|line|] == line;
  }

  /** A formatted record parses to its members, in the order they were given, exactly
      when every member is clean: no text holds a control byte other than the five
      with an escape of their own, every float is finite, and the option strings and
      rendered times written as they are make JSON strings. Otherwise it is not JSON. */
  lemma RoundTrip(o: Options, level: nat, time: Text, message: Text, caller: Option<Caller>, fields: seq<Field>)
    requires ClosedOptions(o) && Closed(time)
    requires forall i | 0 <= i < |fields| :: ClosedField(o, fields[i])
    ensures var ms := Meanings(o, level, time, message, caller, fields);
            Parse(Record(o, level, time, message, caller, fields)) == if AllClean(ms) then Some(Members(ms)) else None
  {
    RecordDenotes(o, level, time, message, caller, fields);
    LineParses(Tokens(o, level, time, message, caller, fields), Meanings(o, level, time, message, caller, fields),
               if o.disableNewline then [] else [NEWLINE]);
  }

  /** A binary field's text decodes to the bytes that were logged. */
  lemma BinaryReadsBack(o: Options, field: Field)
    requires !field.sensitive && field.value.Binary? && field.value.data.Some?
    ensures FieldValue(o, field).JString?
    ensures Base64.Decode(FieldValue(o, field).text) == field.value.data
  {
    Base64.RoundTrip(field.value.data.value);
  }

  // ---- the numbers a record carries -----------------------------------------

  /** The value of the digits after a decimal point. */
  function FractionOf(t: Text): real
    requires forall i | 0 <= i < |t| :: IsDigit(t[i])
  {
    if t == [] then 0.0
    else
      assert IsDigit(t[0]);
      var c: int := t[0];
      ((c - 48) as real + FractionOf(t[1..])) / 10.0
  }

  function UnsignedValue(t: Text): real
  {
    var n := DigitRun(t);
    DecimalValue(t[..n]) as real
    + if n < |t| && t[n] == DOT then FractionOf(t[n + 1..][..DigitRun(t[n + 1..])]) else 0.0
  }

  /** The number that a literal without exponent denotes. */
  function NumberValue(t: Text): real
  {
    if t != [] && t[0] == MINUS then -UnsignedValue(t[1..]) else UnsignedValue(t)
  }

  function DigitsValue(ds: seq<Digit>): real
  {
    if ds == [] then 0.0 else var d: int := ds[0]; (d as real + DigitsValue(ds[1..])) / 10.0
  }

  function FloatValue(x: Float): real
    requires x.Finite?
  {
    var size := x.whole as real + DigitsValue(x.fraction);
    if x.negative then -size else size
  }

  lemma {:induction false} FractionReadsBack(ds: seq<Digit>)
    ensures FractionOf(Digits(ds)) == DigitsValue(ds)
  {
    if ds != [] {
      FractionReadsBack(ds[1..]);
      assert Digits(ds)[1..] == Digits(ds[1..]);
    }
  }

  predicate AllDigits(t: Text)
  {
    forall i | 0 <= i < |t| :: IsDigit(t[i])
  }

  lemma WholeValue(whole: Text)
    requires AllDigits(whole)
    ensures UnsignedValue(whole) == DecimalValue(whole) as real
  {
    assert whole + [] == whole;
    DigitRunOf(whole, []);
    assert whole[..|whole|] == whole;
  }

  lemma PointValue(whole: Text, digits: Text)
    requires AllDigits(whole) && AllDigits(digits)
    ensures UnsignedValue(whole + ([DOT] + digits)) == DecimalValue(whole) as real + FractionOf(digits)
  {
    var t := whole + ([DOT] + digits);
    DigitRunOf(whole, [DOT] + digits);
    assert t[..|whole|] == whole && t[|whole| + 1..] == digits;
    assert digits + [] == digits;
    DigitRunOf(digits, []);
    assert digits[..|digits|] == digits;
  }

  lemma UnsignedReadsBack(n: nat, ds: seq<Digit>)
    ensures UnsignedValue(Decimal(n) + FractionText(ds)) == n as real + DigitsValue(ds)
  {
    DecimalRoundTrip(n);
    if ds == [] {
      assert Decimal(n) + [] == Decimal(n);
      WholeValue(Decimal(n));
    } else {
      PointValue(Decimal(n), Digits(ds));
      FractionReadsBack(ds);
    }
  }

  lemma FloatReadsBack(x: Float)
    requires x.Finite?
    ensures NumberValue(FloatText(x)) == FloatValue(x)
  {
    var body := Decimal(x.whole) + FractionText(x.fraction);
    UnsignedReadsBack(x.whole, x.fraction);
    FloatTextIs(x);
    SignedValue(x.negative, body);
  }

  lemma FloatTextIs(x: Float)
    requires x.Finite?
    ensures var body := Decimal(x.whole) + FractionText(x.fraction);
            && FloatText(x) == (if x.negative then [MINUS] + body else body)
            && body != [] && IsDigit(body[0])
  {
    DigitsFirst(Decimal(x.whole), FractionText(x.fraction));
    SignFirst([MINUS], Decimal(x.whole), FractionText(x.fraction));
    SignFirst([], Decimal(x.whole), FractionText(x.fraction));
  }

  lemma DigitsFirst(whole: Text, fraction: Text)
    requires whole != [] && AllDigits(whole)
    ensures whole + fraction != [] && IsDigit((whole + fraction)[0])
  {
    assert (whole + fraction)[0] == whole[0];
  }

  lemma SignFirst(sign: Text, whole: Text, fraction: Text)
    ensures sign + whole + fraction == sign + (whole + fraction)
    ensures sign == [] ==> sign + whole + fraction == whole + fraction
  {
  }

  lemma SignedValue(negative: bool, body: Text)
    requires body != [] && IsDigit(body[0])
    ensures NumberValue(if negative then [MINUS] + body else body)
            == if negative then -UnsignedValue(body) else UnsignedValue(body)
  {
    assert ([MINUS] + body)[1..] == body;
  }

  lemma IntReadsBack(i: int)
    ensures NumberValue(IntText(i)) == i as real
  {
    var x := Finite(i < 0, if i < 0 then -i else i, []);
    FloatReadsBack(x);
    assert FloatText(x) == IntText(i);
  }

  predicate IsNumberOf(v: Json, x: real)
  {
    v.JNumber? && NumberValue(v.literal) == x
  }

  /** A number field reads back as the number that was logged. */
  lemma NumbersReadBack(o: Options, field: Field)
    requires !field.sensitive
    ensures field.value.Int? ==> IsNumberOf(FieldValue(o, field), field.value.i as real)
    ensures field.value.Uint? ==> IsNumberOf(FieldValue(o, field), field.value.n as real)
    ensures field.value.Real? && field.value.f.Finite? ==> IsNumberOf(FieldValue(o, field), FloatValue(field.value.f))
  {
    match field.value
    case Int(i) => IntReadsBack(i);
    case Uint(n) => IntReadsBack(n);
    case Real(x) => if x.Finite? { FloatReadsBack(x); }
    case _ =>
  }

  // ---- a record that is not JSON --------------------------------------------

  lemma UncleanMessageBreaksRecord(o: Options, level: nat, time: Text, message: Text)
    requires ClosedOptions(o) && Closed(time) && !OnlyNamedControls(message)
    ensures Parse(Record(o, level, time, message, None, [])) == None
  {
    var stamps, ms := StampMeanings(o, level, time), Meanings(o, level, time, message, None, []);
    RoundTrip(o, level, time, message, None, []);
    assert message != [];
    assert ms[|stamps|] == MessageMeanings(o, message, None)[0];
    assert !ms[|stamps|].clean;
  }

  /** A message of the one control byte 1, under the default options or any other that
      need no escaping. */
  lemma ControlByteBreaksRecord(o: Options)
    requires PlainOptions(o)
    ensures Parse(Record(o, 2, [], [1], None, [])) == None
  {
    PlainOptionsMeanThemselves(o);
    assert Closed([]);
    assert !NamedByte([1][0]);
    UncleanMessageBreaksRecord(o, 2, [], [1]);
  }

  /** An option string with bare quotation marks: `","a":"` for the redacted value. */
  const FORGED: Text := [QUOTE, COMMA, QUOTE, 97, QUOTE, COLON, QUOTE]

  lemma ForgedToken(key: Text)
    ensures Token(key, Quoted(FORGED)) == Token(key, Quoted([])) + [COMMA] + Token([97], Quoted([]))
  {
    var q, forged := Quoted([]), Quoted(FORGED);
    assert q == [QUOTE, QUOTE] && Quoted([97]) == [QUOTE, 97, QUOTE];
    assert Token([97], q) == [QUOTE, 97, QUOTE, COLON, QUOTE, QUOTE];
    assert forged == [QUOTE, QUOTE, COMMA, QUOTE, 97, QUOTE, COLON, QUOTE, QUOTE];
    assert forged == q + [COMMA] + Token([97], q);
  }

  /** A token that is two of them with a comma between makes two members. */
  lemma SplitToken(tokens: seq<Text>, a: Text, b: Text)
    requires a != []
    ensures Joined(tokens + [a + [COMMA] + b], COMMA) == Joined(tokens + [a, b], COMMA)
  {
    JoinAdd(tokens, COMMA, a + [COMMA] + b);
    JoinAdd(tokens, COMMA, a);
    JoinAdd(tokens + [a], COMMA, b);
    assert tokens + [a, b] == tokens + [a] + [b];
  }

  lemma {:induction false} MembersAppend(a: seq<Meaning>, b: seq<Meaning>)
    ensures Members(a + b) == Members(a) + Members(b)
  {
    if a == [] {
      assert a + b == b;
    } else {
      assert (a + b)[1..] == a[1..] + b;
      MembersAppend(a[1..], b);
    }
  }

  function ForgedTokens(key: Text): seq<Text>
  {
    [Token(key, Quoted([])), Token([97], Quoted([]))]
  }

  function ForgedMeanings(key: Text): (ms: seq<Meaning>)
    ensures AllClean(ms)
  {
    [Meaning(Member(key, JString([])), true), Meaning(Member([97], JString([])), true)]
  }

  lemma ForgedDenote(key: Text)
    requires Plain(key)
    ensures Denote(ForgedTokens(key), ForgedMeanings(key))
    ensures Members(ForgedMeanings(key)) == [Member(key, JString([])), Member([97], JString([]))]
  {
    PlainEncodes([]);
    PlainKeyDenotes(key, Quoted([]), JString([]), true);
    PlainKeyDenotes([97], Quoted([]), JString([]), true);
    var ms := ForgedMeanings(key);
    assert ms[1..] == [ms[1]] && ms[1..][1..] == [];
    assert Members(ms[1..]) == [ms[1].member];
  }

  lemma PlainStampsDenote(o: Options, level: nat, time: Text)
    requires PlainOptions(o) && Plain(time)
    ensures Denote(StampTokens(o, level, time), StampMeanings(o, level, time))
    ensures AllClean(StampMeanings(o, level, time))
  {
    PlainOptionsMeanThemselves(o);
    PlainMeansItself(time);
    assert Legible(o.timeKey) && Legible(o.levelKey);
    StampsDenote(o, level, time);
  }

  lemma ForgedRecord(o: Options, level: nat, time: Text, key: Text, value: Value)
    requires Plain(o.convert(key))
    ensures Record(o.(redacted := FORGED), level, time, [], None, [Field(key, value, true)])
            == Braced(StampTokens(o, level, time) + ForgedTokens(o.convert(key)))
               + (if o.disableNewline then [] else [NEWLINE])
  {
    var q, forged, field := Quoted([]), o.(redacted := FORGED), Field(key, value, true);
    PlainEscape(o.convert(key));
    ForgedToken(o.convert(key));
    assert [field][..0] == [];
    assert FieldTokens(forged, [field]) == [FieldToken(forged, field)];
    var stamps := StampTokens(o, level, time);
    assert Tokens(forged, level, time, [], None, [field]) == stamps + [FieldToken(forged, field)];
    SplitToken(stamps, Token(o.convert(key), q), Token([97], q));
  }

  /** Why option strings should be closed: with this one a sensitive field becomes two
      members, the second of them of the option's making. */
  lemma OpenOptionAddsMember(o: Options, level: nat, time: Text, key: Text, value: Value)
    requires PlainOptions(o) && Plain(time) && Plain(o.convert(key))
    ensures Parse(Record(o.(redacted := FORGED), level, time, [], None, [Field(key, value, true)]))
            == Some(Members(StampMeanings(o, level, time))
                    + [Member(o.convert(key), JString([])), Member([97], JString([]))])
  {
    var stamps, forged := StampMeanings(o, level, time), ForgedMeanings(o.convert(key));
    PlainStampsDenote(o, level, time);
    ForgedDenote(o.convert(key));
    ForgedRecord(o, level, time, key, value);
    DenoteAppend(StampTokens(o, level, time), stamps, ForgedTokens(o.convert(key)), forged);
    LineParses(StampTokens(o, level, time) + ForgedTokens(o.convert(key)), stamps + forged,
               if o.disableNewline then [] else [NEWLINE]);
    MembersAppend(stamps, forged);
  }
}
