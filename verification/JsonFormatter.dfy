/** The JSON record formatter. */
module JsonFormatter {
  import opened Bytes
  import opened Wrappers
  import opened Escaping
  import opened Joining
  import opened JsonText
  import opened Records
  import Base64

  const FILE_KEY: Text := [102, 105, 108, 101]  // file
  const LINE_KEY: Text := [108, 105, 110, 101]  // line
  const FUNCTION_KEY: Text := [102, 117, 110, 99, 116, 105, 111, 110]  // function

  // ---- the record -----------------------------------------------------------

  function Quoted(raw: Text): Text
  {
    [QUOTE] + raw + [QUOTE]
  }

  function RawText(s: Text): Text
  {
    Quoted(Escape(s))
  }

  function RawRendered(t: Option<Text>): Text
  {
    if t.None? then NULL else Quoted(t.value)
  }

  /** A field value as formatJSONFieldValue writes it. A string is cut, with dots after
      it, before it is escaped. */
  function RawValue(o: Options, field: Field): Text
  {
    if field.sensitive then Quoted(o.redacted)
    else match field.value
      case Bool(truth) => if truth then TRUE else FALSE
      case Int(i) => IntText(i)
      case Uint(n) => Decimal(n)
      case Real(x) => FloatText(x)
      case Str(s) => RawText(Truncated(o, s))
      case Time(t) => RawRendered(t)
      case Duration(t) => RawRendered(t)
      case Error(s) => RawText(s)
      case Object(shown) => RawText(shown)
      case Array(shown) => RawText(shown)
      case Binary(data, _) => if data.None? then NULL else Quoted(Base64.Encode(data.value))
      case Unknown => NULL
  }

  function Token(rawKey: Text, rawValue: Text): (t: Text)
    ensures t != []
  {
    Quoted(rawKey) + [COLON] + rawValue
  }

  function CallerTokens(caller: Caller): seq<Text>
  {
    [Token(FILE_KEY, RawText(caller.file)), Token(LINE_KEY, IntText(caller.line)),
     Token(FUNCTION_KEY, RawText(caller.name))]
  }

  function Braced(tokens: seq<Text>): Text
  {
    [LBRACE] + Joined(tokens, COMMA) + [RBRACE]
  }

  function TimeToken(o: Options, time: Text): Text
  {
    Token(o.timeKey, Quoted(time))
  }

  function LevelToken(o: Options, level: nat): Text
  {
    Token(o.levelKey, Quoted(LevelText(level)))
  }

  function MessageToken(o: Options, message: Text): Text
  {
    Token(o.messageKey, RawText(message))
  }

  function CallerToken(o: Options, caller: Caller): Text
  {
    Token(o.callerKey, Braced(CallerTokens(caller)))
  }

  function FieldToken(o: Options, field: Field): Text
  {
    Token(Escape(o.convert(field.key)), RawValue(o, field))
  }

  function StampTokens(o: Options, level: nat, time: Text): seq<Text>
  {
    Optional(!o.noTimestamp, TimeToken(o, time)) + Optional(!o.noLevel && level < DISABLED, LevelToken(o, level))
  }

  function MessageTokens(o: Options, message: Text, caller: Option<Caller>): seq<Text>
  {
    Optional(message != [], MessageToken(o, message)) + (if caller.None? then [] else [CallerToken(o, caller.value)])
  }

  function FieldTokens(o: Options, fields: seq<Field>): seq<Text>
  {
    if fields == [] then []
    else FieldTokens(o, fields[..|fields| - 1]) + [FieldToken(o, fields[|fields| - 1])]
  }

  function HeaderTokens(o: Options, level: nat, time: Text, message: Text, caller: Option<Caller>): seq<Text>
  {
    StampTokens(o, level, time) + MessageTokens(o, message, caller)
  }

  function Tokens(o: Options, level: nat, time: Text, message: Text, caller: Option<Caller>, fields: seq<Field>)
    : seq<Text>
  {
    HeaderTokens(o, level, time, message, caller) + FieldTokens(o, fields)
  }

  /** The bytes Format writes. */
  function Record(o: Options, level: nat, time: Text, message: Text, caller: Option<Caller>, fields: seq<Field>): Text
  {
    Braced(Tokens(o, level, time, message, caller, fields)) + (if o.disableNewline then [] else [NEWLINE])
  }

  lemma DefaultTime(time: Text)
    ensures [LBRACE] + TimeToken(DefaultOptions(), time) == Ascii("{\"time\":\"") + time + [QUOTE]
  {
  }

  lemma DefaultLevel(level: nat)
    ensures [COMMA] + LevelToken(DefaultOptions(), level) == Ascii(",\"level\":\"") + LevelText(level) + [QUOTE]
  {
  }

  lemma DefaultMessage(message: Text)
    ensures [COMMA] + MessageToken(DefaultOptions(), message)
            == Ascii(",\"message\":\"") + Escape(message) + [QUOTE]
  {
  }

  lemma ThreeTokens(a: Text, b: Text, c: Text, x: Text, y: Text, z: Text, t: Text, l: Text, m: Text)
    requires [LBRACE] + a == x + t + [QUOTE] && [COMMA] + b == y + l + [QUOTE] && [COMMA] + c == z + m + [QUOTE]
    ensures [LBRACE] + (a + [COMMA] + b + [COMMA] + c) + [RBRACE] + [NEWLINE]
            == x + t + ([QUOTE] + y) + l + ([QUOTE] + z) + m + [QUOTE, RBRACE, NEWLINE]
  {
    calc {
      [LBRACE] + (a + [COMMA] + b + [COMMA] + c) + [RBRACE] + [NEWLINE];
      ([LBRACE] + a) + ([COMMA] + b) + ([COMMA] + c) + [RBRACE] + [NEWLINE];
      (x + t + [QUOTE]) + (y + l + [QUOTE]) + (z + m + [QUOTE]) + [RBRACE] + [NEWLINE];
    }
  }

  lemma DefaultPieces()
    ensures Ascii("\",\"level\":\"") == [QUOTE] + Ascii(",\"level\":\"")
    ensures Ascii("\",\"message\":\"") == [QUOTE] + Ascii(",\"message\":\"")
    ensures Ascii("\"}\n") == [QUOTE, RBRACE, NEWLINE]
  {
  }

  lemma DefaultBraced(level: nat, time: Text, message: Text)
    requires level < 6 && message != []
    ensures var o := DefaultOptions();
            Record(o, level, time, message, None, [])
            == [LBRACE] + (TimeToken(o, time) + [COMMA] + LevelToken(o, level) + [COMMA] + MessageToken(o, message))
               + [RBRACE] + [NEWLINE]
  {
    var o := DefaultOptions();
    var a, b, c := TimeToken(o, time), LevelToken(o, level), MessageToken(o, message);
    assert Tokens(o, level, time, message, None, []) == [a, b, c];
    JoinThree(a, b, c, COMMA);
  }

  /** What a record looks like under the default options. */
  lemma DefaultRecord(level: nat, time: Text, message: Text)
    requires level < 6 && message != []
    ensures Record(DefaultOptions(), level, time, message, None, [])
            == Ascii("{\"time\":\"") + time + Ascii("\",\"level\":\"") + LevelText(level)
               + Ascii("\",\"message\":\"") + Escape(message) + Ascii("\"}\n")
  {
    var o := DefaultOptions();
    DefaultTime(time);
    DefaultLevel(level);
    DefaultMessage(message);
    DefaultPieces();
    DefaultBraced(level, time, message);
    ThreeTokens(TimeToken(o, time), LevelToken(o, level), MessageToken(o, message),
                Ascii("{\"time\":\""), Ascii(",\"level\":\""), Ascii(",\"message\":\""),
                time, LevelText(level), Escape(message));
  }

  // ---- writing values -------------------------------------------------------

  method WriteQuoted(buf: Buffer, raw: Text)
    modifies buf
    ensures buf.data == old(buf.data) + Quoted(raw)
  {
    buf.WriteByte(QUOTE);
    buf.WriteString(raw);
    buf.WriteByte(QUOTE);
  }

  lemma QuotedAfter(base: Text, raw: Text)
    ensures base + [QUOTE] + raw + [QUOTE] == base + Quoted(raw)
  {
  }

  method WriteText(buf: Buffer, s: Text)
    modifies buf
    ensures buf.data == old(buf.data) + RawText(s)
  {
    buf.WriteByte(QUOTE);
    WriteEscaped(buf, s);
    buf.WriteByte(QUOTE);
    QuotedAfter(old(buf.data), Escape(s));
  }

  lemma EscapeDots(s: Text)
    ensures Escape(s + DOTS) == Escape(s) + DOTS
  {
    EscapedAppend(Esc, s, DOTS);
    EscapedUntouched(Esc, DOTS);
  }

  method WriteString(o: Options, buf: Buffer, s: Text)
    modifies buf
    ensures buf.data == old(buf.data) + RawText(Truncated(o, s))
  {
    buf.WriteByte(QUOTE);
    if o.truncate > 0 && |s| > o.truncate {
      WriteEscaped(buf, s[..o.truncate]);
      buf.WriteString(DOTS);
      EscapeDots(s[..o.truncate]);
    } else {
      WriteEscaped(buf, s);
    }
    assert buf.data == old(buf.data) + [QUOTE] + Escape(Truncated(o, s));
    buf.WriteByte(QUOTE);
    QuotedAfter(old(buf.data), Escape(Truncated(o, s)));
  }

  method WriteRendered(buf: Buffer, t: Option<Text>)
    modifies buf
    ensures buf.data == old(buf.data) + RawRendered(t)
  {
    if t.None? {
      buf.WriteString(NULL);
    } else {
      WriteQuoted(buf, t.value);
    }
  }

  method WriteBinary(buf: Buffer, data: Option<Text>)
    modifies buf
    ensures buf.data == old(buf.data) + if data.None? then NULL else Quoted(Base64.Encode(data.value))
  {
    if data.None? {
      buf.WriteString(NULL);
    } else {
      buf.WriteByte(QUOTE);
      Base64.EncodeInto(buf, data.value);
      buf.WriteByte(QUOTE);
      QuotedAfter(old(buf.data), Base64.Encode(data.value));
    }
  }

  /** formatJSONFieldValue */
  method WriteValue(o: Options, buf: Buffer, field: Field)
    modifies buf
    ensures buf.data == old(buf.data) + RawValue(o, field)
  {
    if field.sensitive {
      WriteQuoted(buf, o.redacted);
      return;
    }
    match field.value {
      case Bool(truth) => buf.WriteString(if truth then TRUE else FALSE);
      case Int(i) => buf.WriteString(IntText(i));
      case Uint(n) => buf.WriteString(Decimal(n));
      case Real(x) => buf.WriteString(FloatText(x));
      case Str(s) => WriteString(o, buf, s);
      case Time(t) => WriteRendered(buf, t);
      case Duration(t) => WriteRendered(buf, t);
      case Error(s) => WriteText(buf, s);
      case Object(shown) => WriteText(buf, shown);
      case Array(shown) => WriteText(buf, shown);
      case Binary(data, _) => WriteBinary(buf, data);
      case Unknown => buf.WriteString(NULL);
    }
  }

  // ---- writing members ------------------------------------------------------

  /** What stands in the buffer while the object is open: the members so far, and a
      flag that says whether there are any. */
  ghost predicate Open(data: Text, needComma: bool, tokens: seq<Text>)
  {
    && data == [LBRACE] + Joined(tokens, COMMA)
    && needComma == (tokens != [])
    && (tokens != [] ==> tokens[|tokens| - 1] != [])
  }

  /** A comma if needed, so that the next member can follow. */
  method WriteComma(buf: Buffer, needComma: bool, ghost tokens: seq<Text>)
    requires Open(buf.data, needComma, tokens)
    modifies buf
    ensures forall token: Text {:trigger buf.data + token} | token != [] ::
              Open(buf.data + token, true, tokens + [token])
  {
    if needComma {
      buf.WriteByte(COMMA);
    }
    forall token: Text | token != [] ensures Open(buf.data + token, true, tokens + [token]) {
      JoinAdd(tokens, COMMA, token);
    }
  }

  lemma TokenAfter(base: Text, rawKey: Text, rawValue: Text)
    ensures base + Quoted(rawKey) + [COLON] + rawValue == base + Token(rawKey, rawValue)
  {
  }

  method WriteRawPair(buf: Buffer, rawKey: Text, raw: Text)
    modifies buf
    ensures buf.data == old(buf.data) + Token(rawKey, Quoted(raw))
  {
    WriteQuoted(buf, rawKey);
    buf.WriteByte(COLON);
    WriteQuoted(buf, raw);
    TokenAfter(old(buf.data), rawKey, Quoted(raw));
  }

  method WriteTextPair(buf: Buffer, rawKey: Text, s: Text)
    modifies buf
    ensures buf.data == old(buf.data) + Token(rawKey, RawText(s))
  {
    WriteQuoted(buf, rawKey);
    buf.WriteByte(COLON);
    WriteText(buf, s);
    TokenAfter(old(buf.data), rawKey, RawText(s));
  }

  method WriteNumberPair(buf: Buffer, rawKey: Text, i: int)
    modifies buf
    ensures buf.data == old(buf.data) + Token(rawKey, IntText(i))
  {
    WriteQuoted(buf, rawKey);
    buf.WriteByte(COLON);
    buf.WriteString(IntText(i));
    TokenAfter(old(buf.data), rawKey, IntText(i));
  }

  lemma BracedAfter(base: Text, a: Text, b: Text, c: Text)
    requires a != []
    ensures base + [LBRACE] + a + [COMMA] + b + [COMMA] + c + [RBRACE] == base + Braced([a, b, c])
  {
    JoinThree(a, b, c, COMMA);
  }

  /** The caller object. */
  method WriteCaller(buf: Buffer, caller: Caller)
    modifies buf
    ensures buf.data == old(buf.data) + Braced(CallerTokens(caller))
  {
    buf.WriteByte(LBRACE);
    WriteTextPair(buf, FILE_KEY, caller.file);
    buf.WriteByte(COMMA);
    WriteNumberPair(buf, LINE_KEY, caller.line);
    buf.WriteByte(COMMA);
    WriteTextPair(buf, FUNCTION_KEY, caller.name);
    buf.WriteByte(RBRACE);
    BracedAfter(old(buf.data), Token(FILE_KEY, RawText(caller.file)), Token(LINE_KEY, IntText(caller.line)),
                Token(FUNCTION_KEY, RawText(caller.name)));
  }

  method WriteCallerPair(o: Options, buf: Buffer, caller: Caller)
    modifies buf
    ensures buf.data == old(buf.data) + CallerToken(o, caller)
  {
    WriteQuoted(buf, o.callerKey);
    buf.WriteByte(COLON);
    WriteCaller(buf, caller);
    TokenAfter(old(buf.data), o.callerKey, Braced(CallerTokens(caller)));
  }

  method WriteStamps(o: Options, buf: Buffer, e: Entry) returns (needComma: bool)
    requires buf.data == [LBRACE]
    modifies buf
    ensures Open(buf.data, needComma, StampTokens(o, e.level, e.time))
  {
    needComma := false;
    ghost var tokens: seq<Text> := [];
    if !o.noTimestamp {
      WriteComma(buf, needComma, tokens);
      WriteRawPair(buf, o.timeKey, e.time);
      tokens := tokens + [TimeToken(o, e.time)];
      needComma := true;
    }
    if !o.noLevel && e.level < DISABLED {
      WriteComma(buf, needComma, tokens);
      WriteRawPair(buf, o.levelKey, LevelText(e.level));
      tokens := tokens + [LevelToken(o, e.level)];
      needComma := true;
    }
    assert tokens == StampTokens(o, e.level, e.time);
  }

  method WriteMessage(o: Options, buf: Buffer, e: Entry, started: bool, ghost before: seq<Text>)
    returns (needComma: bool)
    requires Open(buf.data, started, before)
    modifies buf
    ensures Open(buf.data, needComma, before + MessageTokens(o, e.message, e.callerInfo))
  {
    needComma := started;
    ghost var tokens := before;
    if e.message != [] {
      WriteComma(buf, needComma, tokens);
      WriteTextPair(buf, o.messageKey, e.message);
      tokens := tokens + [MessageToken(o, e.message)];
      needComma := true;
    }
    if e.callerInfo.Some? {
      WriteComma(buf, needComma, tokens);
      WriteCallerPair(o, buf, e.callerInfo.value);
      tokens := tokens + [CallerToken(o, e.callerInfo.value)];
      needComma := true;
    }
    assert tokens == before + MessageTokens(o, e.message, e.callerInfo);
  }

  method WriteField(o: Options, buf: Buffer, field: Field)
    modifies buf
    ensures buf.data == old(buf.data) + FieldToken(o, field)
  {
    WriteText(buf, o.convert(field.key));
    buf.WriteByte(COLON);
    WriteValue(o, buf, field);
    TokenAfter(old(buf.data), Escape(o.convert(field.key)), RawValue(o, field));
  }

  lemma FieldTokensSnoc(o: Options, fields: seq<Field>, i: nat, before: seq<Text>)
    requires i < |fields|
    ensures before + FieldTokens(o, fields[..i + 1])
            == before + FieldTokens(o, fields[..i]) + [FieldToken(o, fields[i])]
  {
    assert fields[..i + 1][..i] == fields[..i];
  }

  method WriteFields(o: Options, buf: Buffer, fields: seq<Field>, started: bool, ghost before: seq<Text>)
    requires Open(buf.data, started, before)
    modifies buf
    ensures buf.data == [LBRACE] + Joined(before + FieldTokens(o, fields), COMMA)
  {
    var needComma := started;
    assert before + FieldTokens(o, fields[..0]) == before;
    for i := 0 to |fields|
      invariant Open(buf.data, needComma, before + FieldTokens(o, fields[..i]))
    {
      WriteComma(buf, needComma, before + FieldTokens(o, fields[..i]));
      WriteField(o, buf, fields[i]);
      FieldTokensSnoc(o, fields, i, before);
      needComma := true;
    }
    assert fields[..|fields|] == fields;
  }

  /** Format */
  method Format(o: Options, e: Entry) returns (out: Text)
    ensures out == Record(o, e.level, e.time, e.message, e.callerInfo, e.fields)
  {
    var buf := new Buffer();
    buf.WriteByte(LBRACE);
    var needComma := WriteStamps(o, buf, e);
    needComma := WriteMessage(o, buf, e, needComma, StampTokens(o, e.level, e.time));
    WriteFields(o, buf, e.fields, needComma, HeaderTokens(o, e.level, e.time, e.message, e.callerInfo));
    buf.WriteByte(RBRACE);
    if !o.disableNewline {
      buf.WriteByte(NEWLINE);
    }
    out := buf.data;
  }
}
