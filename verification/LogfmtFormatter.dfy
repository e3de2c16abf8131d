/** The logfmt record formatter. */
module LogfmtFormatter {
  import opened Bytes
  import opened Wrappers
  import opened Joining
  import opened LogfmtText
  import opened Records

  datatype Formatter = Formatter(options: Options, disableQuoting: bool, disableSorting: bool)

  // ---- the line -------------------------------------------------------------

  /** A text value as written: quoted unless quoting is off. */
  function Wrap(f: Formatter, raw: Text): Text
  {
    if f.disableQuoting then raw else [QUOTE] + raw + [QUOTE]
  }

  /** A field value exactly as formatFieldValue writes it. */
  function RawValue(f: Formatter, field: Field): Text
  {
    if field.sensitive then Wrap(f, f.options.redacted)
    else match field.value
      case Bool(truth) => if truth then TRUE else FALSE
      case Int(i) => IntText(i)
      case Uint(n) => Decimal(n)
      case Real(x) => FloatText(x)
      case Str(s) => Wrap(f, Escape(Cut(f.options, s)) + Dots(f.options, s))
      case Time(t) => if t.None? then NULL else Wrap(f, t.value)
      case Duration(t) => if t.None? then NULL else Wrap(f, t.value)
      case Error(s) => Wrap(f, Escape(s))
      case Object(shown) => Wrap(f, Escape(shown))
      case Array(shown) => Wrap(f, Escape(shown))
      case Binary(_, shown) => Wrap(f, Escape(shown))
      case Unknown => NULL
  }

  predicate Cuts(o: Options, s: Text)
  {
    o.truncate > 0 && |s| > o.truncate
  }

  function Cut(o: Options, s: Text): Text
  {
    if Cuts(o, s) then s[..o.truncate] else s
  }

  function Dots(o: Options, s: Text): Text
  {
    if Cuts(o, s) then DOTS else []
  }

  function Token(rawKey: Text, rawValue: Text): Text
  {
    rawKey + [EQUALS] + rawValue
  }

  function TimeToken(f: Formatter, time: Text): Text
  {
    Token(f.options.timeKey, Wrap(f, time))
  }

  function LevelToken(f: Formatter, level: nat): Text
  {
    Token(f.options.levelKey, Wrap(f, LevelText(level)))
  }

  function MessageToken(f: Formatter, message: Text): Text
  {
    Token(f.options.messageKey, Wrap(f, Escape(message)))
  }

  function CallerToken(f: Formatter, caller: Caller): Text
  {
    Token(f.options.callerKey, Wrap(f, Escape(caller.file) + ([COLON] + IntText(caller.line))))
  }

  function StampTokens(f: Formatter, level: nat, time: Text): seq<Text>
  {
    Optional(!f.options.noTimestamp, TimeToken(f, time)) + Optional(!f.options.noLevel, LevelToken(f, level))
  }

  function MessageTokens(f: Formatter, message: Text, caller: Option<Caller>): seq<Text>
  {
    Optional(message != [], MessageToken(f, message)) + (if caller.None? then [] else [CallerToken(f, caller.value)])
  }

  function HeaderTokens(f: Formatter, level: nat, time: Text, message: Text, caller: Option<Caller>): seq<Text>
  {
    StampTokens(f, level, time) + MessageTokens(f, message, caller)
  }

  function FieldToken(f: Formatter, field: Field): Text
  {
    Token(Escape(f.options.convert(field.key)), RawValue(f, field))
  }

  function FieldTokens(f: Formatter, fields: seq<Field>): seq<Text>
  {
    if fields == [] then []
    else FieldTokens(f, fields[..|fields| - 1]) + [FieldToken(f, fields[|fields| - 1])]
  }

  function Line(tokens: seq<Text>): Text
  {
    Joined(tokens, SPACE)
  }

  function Tokens(f: Formatter, level: nat, time: Text, message: Text, caller: Option<Caller>, fields: seq<Field>)
    : seq<Text>
  {
    HeaderTokens(f, level, time, message, caller) + FieldTokens(f, fields)
  }

  // ---- writing it -----------------------------------------------------------

  method WriteQuote(f: Formatter, buf: Buffer)
    modifies buf
    ensures buf.data == old(buf.data) + if f.disableQuoting then [] else [QUOTE]
  {
    if !f.disableQuoting {
      buf.WriteByte(QUOTE);
    }
  }

  method WriteSeparator(buf: Buffer)
    modifies buf
    ensures forall token :: buf.data + token == Add(old(buf.data), SPACE, token)
  {
    if |buf.data| > 0 {
      buf.WriteByte(SPACE);
    }
    assert forall token :: buf.data + token == Add(old(buf.data), SPACE, token);
  }

  method WriteQuotedRaw(f: Formatter, buf: Buffer, raw: Text)
    modifies buf
    ensures buf.data == old(buf.data) + Wrap(f, raw)
  {
    WriteQuote(f, buf);
    buf.WriteString(raw);
    WriteQuote(f, buf);
  }

  method WriteQuotedEscaped(f: Formatter, buf: Buffer, s: Text, tail: Text)
    modifies buf
    ensures buf.data == old(buf.data) + Wrap(f, Escape(s) + tail)
  {
    WriteQuote(f, buf);
    WriteEscaped(buf, s);
    buf.WriteString(tail);
    WriteQuote(f, buf);
    assert buf.data == old(buf.data) + Wrap(f, Escape(s) + tail);
  }

  method WriteQuotedText(f: Formatter, buf: Buffer, s: Text)
    modifies buf
    ensures buf.data == old(buf.data) + Wrap(f, Escape(s))
  {
    WriteQuotedEscaped(f, buf, s, []);
    assert Escape(s) + [] == Escape(s);
  }

  method WriteRendered(f: Formatter, buf: Buffer, t: Option<Text>)
    modifies buf
    ensures buf.data == old(buf.data) + if t.None? then NULL else Wrap(f, t.value)
  {
    if t.None? {
      buf.WriteString(NULL);
    } else {
      WriteQuotedRaw(f, buf, t.value);
    }
  }

  /** formatFieldValue */
  method WriteValue(f: Formatter, buf: Buffer, field: Field)
    modifies buf
    ensures buf.data == old(buf.data) + RawValue(f, field)
  {
    if field.sensitive {
      WriteQuotedRaw(f, buf, f.options.redacted);
      return;
    }
    match field.value {
      case Bool(truth) => buf.WriteString(if truth then TRUE else FALSE);
      case Int(i) => buf.WriteString(IntText(i));
      case Uint(n) => buf.WriteString(Decimal(n));
      case Real(x) => buf.WriteString(FloatText(x));
      case Str(s) =>
        if f.options.truncate > 0 && |s| > f.options.truncate {
          WriteQuotedEscaped(f, buf, s[..f.options.truncate], DOTS);
        } else {
          WriteQuotedEscaped(f, buf, s, []);
        }
      case Time(t) => WriteRendered(f, buf, t);
      case Duration(t) => WriteRendered(f, buf, t);
      case Error(s) => WriteQuotedText(f, buf, s);
      case Object(shown) => WriteQuotedText(f, buf, shown);
      case Array(shown) => WriteQuotedText(f, buf, shown);
      case Binary(_, shown) => WriteQuotedText(f, buf, shown);
      case Unknown => buf.WriteString(NULL);
    }
  }

  method WriteRawPair(f: Formatter, buf: Buffer, key: Text, raw: Text)
    modifies buf
    ensures buf.data == Add(old(buf.data), SPACE, Token(key, Wrap(f, raw)))
  {
    WriteSeparator(buf);
    ghost var start := buf.data;
    buf.WriteString(key);
    buf.WriteByte(EQUALS);
    WriteQuotedRaw(f, buf, raw);
    assert buf.data == start + Token(key, Wrap(f, raw));
  }

  method WriteEscapedPair(f: Formatter, buf: Buffer, key: Text, s: Text, tail: Text)
    modifies buf
    ensures buf.data == Add(old(buf.data), SPACE, Token(key, Wrap(f, Escape(s) + tail)))
  {
    WriteSeparator(buf);
    ghost var start := buf.data;
    buf.WriteString(key);
    buf.WriteByte(EQUALS);
    WriteQuotedEscaped(f, buf, s, tail);
    assert buf.data == start + Token(key, Wrap(f, Escape(s) + tail));
  }

  method WriteField(f: Formatter, buf: Buffer, field: Field)
    modifies buf
    ensures buf.data == Add(old(buf.data), SPACE, FieldToken(f, field))
  {
    WriteSeparator(buf);
    ghost var start := buf.data;
    WriteEscaped(buf, f.options.convert(field.key));
    buf.WriteByte(EQUALS);
    WriteValue(f, buf, field);
    ghost var key, raw := Escape(f.options.convert(field.key)), RawValue(f, field);
    assert start + key + [EQUALS] + raw == start + (key + [EQUALS] + raw);
  }

  method WriteStamps(f: Formatter, buf: Buffer, e: Entry)
    requires buf.data == []
    modifies buf
    ensures buf.data == Line(StampTokens(f, e.level, e.time))
  {
    if !f.options.noTimestamp {
      WriteRawPair(f, buf, f.options.timeKey, e.time);
      JoinAdd([], SPACE, TimeToken(f, e.time));
    }
    if !f.options.noLevel {
      WriteRawPair(f, buf, f.options.levelKey, LevelText(e.level));
      JoinAdd(Optional(!f.options.noTimestamp, TimeToken(f, e.time)), SPACE, LevelToken(f, e.level));
    }
  }

  method WriteMessage(f: Formatter, buf: Buffer, e: Entry, ghost before: seq<Text>)
    requires buf.data == Line(before)
    modifies buf
    ensures buf.data == Line(before + MessageTokens(f, e.message, e.callerInfo))
  {
    ghost var tokens := before;
    if e.message != [] {
      WriteEscapedPair(f, buf, f.options.messageKey, e.message, []);
      assert Escape(e.message) + [] == Escape(e.message);
      JoinAdd(tokens, SPACE, MessageToken(f, e.message));
      tokens := tokens + [MessageToken(f, e.message)];
    }
    if e.callerInfo.Some? {
      var caller := e.callerInfo.value;
      WriteEscapedPair(f, buf, f.options.callerKey, caller.file, [COLON] + IntText(caller.line));
      JoinAdd(tokens, SPACE, CallerToken(f, caller));
      tokens := tokens + [CallerToken(f, caller)];
    }
    assert tokens == before + MessageTokens(f, e.message, e.callerInfo);
  }

  method WriteFields(f: Formatter, buf: Buffer, fields: seq<Field>, ghost before: seq<Text>)
    requires buf.data == Line(before)
    modifies buf
    ensures buf.data == Line(before + FieldTokens(f, fields))
  {
    assert before + FieldTokens(f, fields[..0]) == before;
    for i := 0 to |fields|
      invariant buf.data == Line(before + FieldTokens(f, fields[..i]))
    {
      WriteField(f, buf, fields[i]);
      FieldAdd(f, before, fields, i);
    }
    assert fields[..|fields|] == fields;
  }

  lemma FieldTokensSnoc(f: Formatter, fields: seq<Field>, i: nat)
    requires i < |fields|
    ensures FieldTokens(f, fields[..i + 1]) == FieldTokens(f, fields[..i]) + [FieldToken(f, fields[i])]
  {
    assert fields[..i + 1][..i] == fields[..i];
  }

  lemma FieldAdd(f: Formatter, before: seq<Text>, fields: seq<Field>, i: nat)
    requires i < |fields|
    ensures Line(before + FieldTokens(f, fields[..i + 1]))
            == Add(Line(before + FieldTokens(f, fields[..i])), SPACE, FieldToken(f, fields[i]))
  {
    var tokens, token := FieldTokens(f, fields[..i]), FieldToken(f, fields[i]);
    FieldTokensSnoc(f, fields, i);
    assert before + (tokens + [token]) == (before + tokens) + [token];
    JoinAdd(before + tokens, SPACE, token);
  }

  /** `sorted` is an order Format may leave the fields in. */
  ghost predicate FieldOrder(f: Formatter, fields: seq<Field>, sorted: seq<Field>)
  {
    if f.disableSorting || |fields| <= 1 then sorted == fields else IsSortOf(sorted, fields)
  }

  /** The bytes Format writes for an entry whose fields are in their final order. */
  function Record(f: Formatter, level: nat, time: Text, message: Text, caller: Option<Caller>, fields: seq<Field>): Text
  {
    Line(Tokens(f, level, time, message, caller, fields)) + (if f.options.disableNewline then [] else [NEWLINE])
  }

  lemma DefaultTime(time: Text)
    ensures TimeToken(Formatter(DefaultOptions(), false, false), time) == Ascii("time=\"") + time + [QUOTE]
  {
  }

  lemma DefaultLevel(level: nat)
    ensures [SPACE] + LevelToken(Formatter(DefaultOptions(), false, false), level)
            == Ascii(" level=\"") + LevelText(level) + [QUOTE]
  {
  }

  lemma DefaultMessage(message: Text)
    ensures [SPACE] + MessageToken(Formatter(DefaultOptions(), false, false), message)
            == Ascii(" message=\"") + Escape(message) + [QUOTE]
  {
  }

  lemma DefaultPieces()
    ensures Ascii("\" level=\"") == [QUOTE] + Ascii(" level=\"")
    ensures Ascii("\" message=\"") == [QUOTE] + Ascii(" message=\"")
    ensures Ascii("\"\n") == [QUOTE, NEWLINE]
  {
  }

  lemma DefaultTokens(level: nat, time: Text, message: Text)
    requires message != []
    ensures var f := Formatter(DefaultOptions(), false, false);
            Tokens(f, level, time, message, None, [])
            == [TimeToken(f, time), LevelToken(f, level), MessageToken(f, message)]
  {
  }

  lemma ThreeOnLine(a: Text, b: Text, c: Text)
    requires a != []
    ensures Line([a, b, c]) + [NEWLINE] == a + ([SPACE] + b) + ([SPACE] + c) + [NEWLINE]
  {
    JoinThree(a, b, c, SPACE);
  }

  lemma DefaultLine(level: nat, time: Text, message: Text)
    requires message != []
    ensures var f := Formatter(DefaultOptions(), false, false);
            Record(f, level, time, message, None, [])
            == TimeToken(f, time) + ([SPACE] + LevelToken(f, level)) + ([SPACE] + MessageToken(f, message)) + [NEWLINE]
  {
    var f := Formatter(DefaultOptions(), false, false);
    DefaultTokens(level, time, message);
    DefaultTime(time);
    ThreeOnLine(TimeToken(f, time), LevelToken(f, level), MessageToken(f, message));
  }

  lemma ThreeTexts(a: Text, b: Text, c: Text, x: Text, y: Text, z: Text, t: Text, l: Text, m: Text)
    requires a == x + t + [QUOTE] && b == y + l + [QUOTE] && c == z + m + [QUOTE]
    ensures a + b + c + [NEWLINE] == x + t + ([QUOTE] + y) + l + ([QUOTE] + z) + m + [QUOTE, NEWLINE]
  {
  }

  /** What a record looks like under the default options. */
  lemma DefaultRecord(level: nat, time: Text, message: Text)
    requires message != []
    ensures Record(Formatter(DefaultOptions(), false, false), level, time, message, None, [])
            == Ascii("time=\"") + time + Ascii("\" level=\"") + LevelText(level)
               + Ascii("\" message=\"") + Escape(message) + Ascii("\"\n")
  {
    var f := Formatter(DefaultOptions(), false, false);
    DefaultTime(time);
    DefaultLevel(level);
    DefaultMessage(message);
    DefaultPieces();
    DefaultLine(level, time, message);
    ThreeTexts(TimeToken(f, time), [SPACE] + LevelToken(f, level), [SPACE] + MessageToken(f, message),
               Ascii("time=\""), Ascii(" level=\""), Ascii(" message=\""), time, LevelText(level), Escape(message));
  }

  method WriteHeader(f: Formatter, buf: Buffer, e: Entry)
    requires buf.data == []
    modifies buf
    ensures buf.data == Line(HeaderTokens(f, e.level, e.time, e.message, e.callerInfo))
  {
    WriteStamps(f, buf, e);
    WriteMessage(f, buf, e, StampTokens(f, e.level, e.time));
  }

  method WriteRest(f: Formatter, buf: Buffer, fields: seq<Field>, ghost header: seq<Text>)
    requires buf.data == Line(header)
    modifies buf
    ensures buf.data == Line(header + FieldTokens(f, fields)) + (if f.options.disableNewline then [] else [NEWLINE])
  {
    WriteFields(f, buf, fields, header);
    if !f.options.disableNewline {
      buf.WriteByte(NEWLINE);
    }
  }

  /** Format. `sorted` is what sort.Slice makes of the entry's fields. */
  method Format(f: Formatter, e: Entry, sorted: seq<Field>) returns (out: Text)
    requires FieldOrder(f, e.fields, sorted)
    modifies e`fields
    ensures e.fields == sorted
    ensures out == Record(f, e.level, e.time, e.message, e.callerInfo, sorted)
  {
    var buf := new Buffer();
    WriteHeader(f, buf, e);
    if !f.disableSorting && |e.fields| > 1 {
      e.fields := sorted;
    }
    WriteRest(f, buf, e.fields, HeaderTokens(f, e.level, e.time, e.message, e.callerInfo));
    out := buf.data;
  }
}
