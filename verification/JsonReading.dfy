/** Exactly which records read back. Option strings and rendered times are written
    between quotes as they are; whatever they hold, the record, or the line it starts
    with, parses to its members if and only if all of them are clean. */
module JsonReading {
  import opened Bytes
  import opened Wrappers
  import opened Escaping
  import opened Joining
  import opened LineBreaks
  import opened Records
  import opened JsonText
  import opened JsonFormatter
  import opened JsonParser
  import Base64

  // ---- legible texts ----------------------------------------------------------

  lemma {:induction false} UnescapeShortens(t: Text)
    requires Unescape(t).Some?
    ensures |Unescape(t).value| <= |t|
    decreases |t|
  {
    if t != [] {
      UnescapeShortens(t[FirstUnit(t).value.length..]);
    }
  }

  predicate Ordinary(t: Text)
  {
    forall i | 0 <= i < |t| :: t[i] != QUOTE && t[i] != BACKSLASH && t[i] != NEWLINE
  }

  /** The n bytes of one unit. */
  predicate UnitAt(t: Text, n: nat)
  {
    && 1 <= n <= |t|
    && if t[0] == BACKSLASH then n >= 2 && t[1] != NEWLINE && Ordinary(t[2..n]) else n == 1 && Ordinary(t[..1])
  }

  lemma FirstUnitAt(t: Text)
    requires t != [] && FirstUnit(t).Some?
    ensures UnitAt(t, FirstUnit(t).value.length)
  {
  }

  lemma {:induction false} SealedOrdinary(t: Text, n: nat)
    requires n <= |t| && Ordinary(t[..n])
    ensures Sealed(t, QUOTE) <==> Sealed(t[n..], QUOTE)
    decreases n
  {
    if n > 0 {
      assert t[..n][0] == t[0] && t[1..][..n - 1] == t[..n][1..];
      assert t[1..][n - 1..] == t[n..];
      SealedOrdinary(t[1..], n - 1);
    } else {
      assert t[0..] == t;
    }
  }

  lemma SealedUnit(t: Text, n: nat)
    requires UnitAt(t, n)
    ensures Sealed(t, QUOTE) <==> Sealed(t[n..], QUOTE)
  {
    if t[0] == BACKSLASH {
      assert t[2..][n - 2..] == t[n..] && t[2..][..n - 2] == t[2..n];
      SealedOrdinary(t[2..], n - 2);
    } else {
      SealedOrdinary(t, 1);
    }
  }

  lemma UnitOneLine(t: Text, n: nat)
    requires UnitAt(t, n) && OneLine(t[n..])
    ensures OneLine(t)
  {
    if t[0] == BACKSLASH {
      assert t == t[..2] + t[2..n] + t[n..];
    } else {
      assert t == t[..1] + t[1..];
    }
  }

  /** A legible text ends where it should and holds no newline. */
  lemma {:induction false} LegibleIsClosed(raw: Text)
    requires Legible(raw)
    ensures Closed(raw) && OneLine(raw)
    decreases |raw|
  {
    if raw != [] {
      var n := FirstUnit(raw).value.length;
      LegibleIsClosed(raw[n..]);
      FirstUnitAt(raw);
      SealedUnit(raw, n);
      UnitOneLine(raw, n);
    }
  }

  // ---- illegible texts --------------------------------------------------------

  /** A byte that is a character of its own wherever it stands. */
  predicate Alone(c: Byte)
  {
    c >= SPACE && c != QUOTE && c != BACKSLASH && HexValue(c).None? && Named(c).None? && c != LOWER_U
  }

  /** No unit reaches over such a byte. */
  lemma UnitBefore(t: Text, c: Byte)
    requires Alone(c) && t != [] && Sealed(t, QUOTE) && FirstUnit(t + [c]).Some?
    ensures UnitAt(t, FirstUnit(t + [c]).value.length)
  {
  }

  /** Such a byte at the end is read as the last one. */
  lemma {:induction false} LastAlone(t: Text, c: Byte)
    requires Alone(c) && Sealed(t, QUOTE) && Unescape(t + [c]).Some?
    ensures var v := Unescape(t + [c]).value; v != [] && v[|v| - 1] == c
    decreases |t|
  {
    var u := t + [c];
    if t == [] {
      assert u == [c] && u[1..] == [];
    } else {
      var n := FirstUnit(u).value.length;
      UnitBefore(t, c);
      SealedUnit(t, n);
      assert u[n..] == t[n..] + [c];
      LastAlone(t[n..], c);
    }
  }

  /** Behind a text: its quotation mark, then up to n no other one, the last byte before
      n on its own, and at n the end or the next quotation mark. */
  predicate Tail(after: Text, n: nat)
  {
    && 2 <= n <= |after| && after[0] == QUOTE
    && Sealed(after[1..n - 1], QUOTE) && Alone(after[n - 1])
    && (n == |after| || after[n] == QUOTE)
  }

  lemma SealedOne(c: Byte)
    requires Alone(c)
    ensures Sealed([c], QUOTE)
  {
    assert [c][1..] == [];
  }

  lemma OpenSealed(raw: Text, between: Text, c: Byte)
    requires !Closed(raw) && FirstUnescaped(raw, QUOTE) == |raw| && Sealed(between, QUOTE) && Alone(c)
    ensures raw != [] && raw[|raw| - 1] == BACKSLASH
    ensures Sealed(raw + [QUOTE] + between, QUOTE) && Sealed(raw + [QUOTE] + between + [c], QUOTE)
  {
    OpenAtEnd(raw, QUOTE);
    OpenAndOne(raw, QUOTE);
    SealedAppend(raw + [QUOTE], between, QUOTE);
    SealedOne(c);
    SealedAppend(raw + [QUOTE] + between, [c], QUOTE);
  }

  lemma TailSplits(raw: Text, after: Text, n: nat)
    requires Tail(after, n)
    ensures raw + after[..n] == raw + [QUOTE] + after[1..n - 1] + [after[n - 1]]
    ensures raw + after == raw + after[..n] + after[n..]
  {
  }

  /** Behind an open backslash the string runs on to n. */
  lemma OpenRuns(raw: Text, after: Text, n: nat)
    requires !Closed(raw) && FirstUnescaped(raw, QUOTE) == |raw| && Tail(after, n)
    ensures FirstUnescaped(raw + after, QUOTE) == |raw| + n
    ensures Unescape(raw + after[..n]).Some? ==> Unescape(raw + after[..n]).value != raw
  {
    OpenSealed(raw, after[1..n - 1], after[n - 1]);
    TailSplits(raw, after, n);
    SealedEnds(raw + after[..n], QUOTE, after[n..]);
    if Unescape(raw + after[..n]).Some? {
      LastAlone(raw + [QUOTE] + after[1..n - 1], after[n - 1]);
    }
  }

  lemma EndsInside(raw: Text, after: Text)
    requires Closed(raw) || FirstUnescaped(raw, QUOTE) < |raw|
    requires after != [] && after[0] == QUOTE
    ensures FirstUnescaped(raw + after, QUOTE) <= |raw|
  {
    if FirstUnescaped(raw, QUOTE) < |raw| {
      FoundInPrefix(raw, after, QUOTE);
    } else {
      SealedEnds(raw, QUOTE, after);
    }
  }

  lemma SamePlace(p: Text, t: Text)
    requires p <= t && FirstUnescaped(p, QUOTE) < |p|
    ensures FirstUnescaped(t, QUOTE) == FirstUnescaped(p, QUOTE)
  {
    FoundInPrefix(p, t[|p|..], QUOTE);
    assert p + t[|p|..] == t;
  }

  /** An illegible text, or what is left of it, is never read as itself. */
  lemma IllegibleMisread(raw: Text, after: Text, n: nat, p: Text)
    requires !Legible(raw) && Tail(after, n) && p <= raw + after
    ensures ParseString(p).Some? ==> ParseString(p).value.value != raw
  {
    var k := FirstUnescaped(p, QUOTE);
    if k < |p| && k < |raw| && Unescape(p[..k]).Some? {
      UnescapeShortens(p[..k]);
    }
    if |raw| <= k < |p| {
      SamePlace(p, raw + after);
      if Closed(raw) || FirstUnescaped(raw, QUOTE) < |raw| {
        EndsInside(raw, after);
        assert p[..k] == raw;
      } else {
        OpenRuns(raw, after, n);
        assert p[..k] == raw + after[..n];
      }
    }
  }

  // ---- tokens -----------------------------------------------------------------

  /** What follows a member of the record. */
  predicate Follows(rest: Text)
  {
    rest == [RBRACE] || (|rest| >= 2 && rest[0] == COMMA && rest[1] == QUOTE)
  }

  /** A text or the line it starts with. */
  function Cut(t: Text, whole: bool): (line: Text)
    ensures line <= t
  {
    if whole then t else Start(t)
  }

  lemma CutBehind(body: Text, rest: Text, whole: bool)
    requires OneLine(body)
    ensures Cut(body + rest, whole) == body + Cut(rest, whole)
  {
    StartBehind(body, rest);
  }

  predicate Gives(r: Option<Parsed<Member>>, m: Member)
  {
    r.Some? && r.value.value == m
  }

  /** A clean token keeps to its line and is read as its member; any other is not,
      whatever follows and wherever its line ends. */
  ghost predicate Tells(token: Text, m: Meaning)
  {
    && token != [] && token[0] == QUOTE
    && (m.clean ==> OneLine(token) && Denotes(token, m))
    && (!m.clean ==> forall rest, whole {:trigger Cut(token + rest, whole)} | Follows(rest) ::
                       !Gives(ParseMember(Cut(token + rest, whole)), m.member))
  }

  lemma DenotedTells(token: Text, m: Meaning)
    requires OneLine(token) && Denotes(token, m)
    ensures Tells(token, m)
  {
    if !m.clean {
      forall rest, whole | Follows(rest) ensures !Gives(ParseMember(Cut(token + rest, whole)), m.member) {
        CutBehind(token, rest, whole);
        var end := Cut(rest, whole);
        assert Ended(end);
        assert ParseMember(token + end) == None;
      }
    }
  }

  /** How the values of option keys begin. */
  predicate Opens(between: Text, value: Text)
  {
    (between == [] || between == [LBRACE]) && between + [QUOTE] <= value
  }

  lemma KeyTail(between: Text, value: Text, rest: Text)
    requires Opens(between, value)
    ensures Tail([QUOTE, COLON] + value + rest, 2 + |between|)
  {
    var after := [QUOTE, COLON] + value + rest;
    assert Sealed([], QUOTE);
    if between == [] {
      assert after[1..1] == [];
    } else {
      assert after[1..2] == [COLON] && [COLON][1..] == [];
    }
  }

  lemma IllegibleKeyTells(key: Text, value: Text, between: Text, v: Json)
    requires !Legible(key) && Opens(between, value)
    ensures Tells(Token(key, value), Meaning(Member(key, v), false))
  {
    var token := Token(key, value);
    forall rest, whole | Follows(rest) ensures !Gives(ParseMember(Cut(token + rest, whole)), Member(key, v)) {
      var line := Cut(token + rest, whole);
      if line != [] {
        KeyTail(between, value, rest);
        assert (token + rest)[1..] == key + ([QUOTE, COLON] + value + rest);
        IllegibleMisread(key, [QUOTE, COLON] + value + rest, 2 + |between|, line[1..]);
      }
    }
  }

  /** The part of a token before a text value. */
  function Lead(rawKey: Text): Text
  {
    [QUOTE] + rawKey + [QUOTE, COLON, QUOTE]
  }

  lemma KeyedParses(rawKey: Text, more: Text)
    requires Sealed(rawKey, QUOTE)
    ensures var m := ParseMember([QUOTE] + (rawKey + ([QUOTE] + ([COLON] + more))));
            m.Some? ==> ParseValue(more).Some? && m.value.value.value == ParseValue(more).value.value
  {
    var tail := [COLON] + more;
    StringParses(rawKey, tail);
    assert ([QUOTE] + (rawKey + ([QUOTE] + tail)))[1..] == rawKey + ([QUOTE] + tail);
    assert tail[1..] == more;
  }

  lemma TextValueParses(p: Text)
    ensures ParseValue([QUOTE] + p) == ParseText(p)
  {
    assert ([QUOTE] + p)[1..] == p;
  }

  lemma LeadIs(rawKey: Text, p: Text)
    ensures Lead(rawKey) + p == [QUOTE] + (rawKey + ([QUOTE] + ([COLON] + ([QUOTE] + p))))
  {
  }

  /** A member whose key ends where it should and whose value is a text. */
  lemma TextMemberParses(rawKey: Text, p: Text)
    requires Sealed(rawKey, QUOTE)
    ensures var m := ParseMember(Lead(rawKey) + p);
            m.Some? ==> ParseString(p).Some? && m.value.value.value == JString(ParseString(p).value.value)
  {
    LeadIs(rawKey, p);
    KeyedParses(rawKey, [QUOTE] + p);
    TextValueParses(p);
  }

  lemma ValueTail(rest: Text)
    requires Follows(rest)
    ensures Tail([QUOTE] + rest, 2)
  {
    assert ([QUOTE] + rest)[1..1] == [];
    assert Sealed([], QUOTE);
  }

  /** A value written as it is behind a key that ends where it should. */
  lemma IllegibleValueTells(rawKey: Text, key: Text, raw: Text)
    requires Sealed(rawKey, QUOTE) && OneLine(rawKey) && !Legible(raw)
    ensures Tells(Token(rawKey, Quoted(raw)), Meaning(Member(key, JString(raw)), false))
  {
    var token, m := Token(rawKey, Quoted(raw)), Member(key, JString(raw));
    forall rest, whole | Follows(rest) ensures !Gives(ParseMember(Cut(token + rest, whole)), m) {
      var t := raw + ([QUOTE] + rest);
      assert token + rest == Lead(rawKey) + t;
      CutBehind(Lead(rawKey), t, whole);
      TextMemberParses(rawKey, Cut(t, whole));
      ValueTail(rest);
      IllegibleMisread(raw, [QUOTE] + rest, 2, Cut(t, whole));
    }
  }

  // ---- tokens that keep to one line -------------------------------------------

  lemma TokenOneLine(rawKey: Text, rawValue: Text)
    requires OneLine(rawKey) && OneLine(rawValue)
    ensures OneLine(Token(rawKey, rawValue))
  {
  }

  lemma TextOneLine(s: Text)
    ensures OneLine(Escape(s)) && OneLine(RawText(s))
  {
    EscapeIsSealed(s);
  }

  lemma Base64OneLine(data: Text)
    ensures OneLine(Base64.Encode(data))
  {
    Base64IsPlain(data);
    assert forall i | 0 <= i < |Base64.Encode(data)| :: PlainByte(Base64.Encode(data)[i]);
  }

  lemma ValueOneLine(o: Options, field: Field)
    requires AsItIs(o, field).Some? ==> OneLine(AsItIs(o, field).value)
    ensures OneLine(RawValue(o, field))
  {
    if !field.sensitive {
      match field.value
      case Bool(truth) => assert OneLine(TRUE) && OneLine(FALSE);
      case Int(i) => IntOneLine(i);
      case Uint(n) => DigitsOneLine(Decimal(n));
      case Real(x) => FloatOneLine(x);
      case Str(s) => TextOneLine(Truncated(o, s));
      case Error(s) => TextOneLine(s);
      case Object(shown) => TextOneLine(shown);
      case Array(shown) => TextOneLine(shown);
      case Binary(data, _) => if data.Some? { Base64OneLine(data.value); }
      case _ =>
    }
  }

  lemma FieldOneLine(o: Options, field: Field)
    requires AsItIs(o, field).Some? ==> OneLine(AsItIs(o, field).value)
    ensures OneLine(FieldToken(o, field))
  {
    TextOneLine(o.convert(field.key));
    ValueOneLine(o, field);
    TokenOneLine(Escape(o.convert(field.key)), RawValue(o, field));
  }

  lemma CallerOneLine(caller: Caller)
    ensures OneLine(Braced(CallerTokens(caller)))
  {
    TextOneLine(caller.file);
    TokenOneLine(FILE_KEY, RawText(caller.file));
    IntOneLine(caller.line);
    TokenOneLine(LINE_KEY, IntText(caller.line));
    TextOneLine(caller.name);
    TokenOneLine(FUNCTION_KEY, RawText(caller.name));
    var tokens := CallerTokens(caller);
    assert forall i | 0 <= i < |tokens| :: OneLine(tokens[i]);
    JoinAvoids(tokens, COMMA, NEWLINE);
  }

  // ---- the members of a record ------------------------------------------------

  lemma OptionTells(key: Text, value: Text, between: Text, v: Json, clean: bool)
    requires Encodes(value, v, clean) && OneLine(value) && Opens(between, value)
    ensures Tells(Token(key, value), Meaning(Member(Meant(key), v), Legible(key) && clean))
  {
    if Legible(key) {
      LegibleIsClosed(key);
      RawKeyDenotes(key, value, v, clean);
      TokenOneLine(key, value);
      DenotedTells(Token(key, value), Meaning(Member(Meant(key), v), clean));
    } else {
      IllegibleKeyTells(key, value, between, v);
    }
  }

  lemma TimeTells(o: Options, time: Text)
    ensures Tells(TimeToken(o, time),
                  Meaning(Member(Meant(o.timeKey), JString(Meant(time))), Legible(o.timeKey) && Legible(time)))
  {
    if Legible(time) {
      LegibleIsClosed(time);
      RawEncodes(time);
      OptionTells(o.timeKey, Quoted(time), [], JString(Meant(time)), true);
    } else if Legible(o.timeKey) {
      LegibleIsClosed(o.timeKey);
      IllegibleValueTells(o.timeKey, Meant(o.timeKey), time);
    } else {
      IllegibleKeyTells(o.timeKey, Quoted(time), [], JString(time));
    }
  }

  lemma LevelTells(o: Options, level: nat)
    requires level < DISABLED
    ensures Tells(LevelToken(o, level),
                  Meaning(Member(Meant(o.levelKey), JString(LevelText(level))), Legible(o.levelKey)))
  {
    LevelTextPlain(level);
    PlainEncodes(LevelText(level));
    LevelOneLine(level);
    OptionTells(o.levelKey, Quoted(LevelText(level)), [], JString(LevelText(level)), true);
  }

  lemma MessageTells(o: Options, message: Text)
    ensures Tells(MessageToken(o, message),
                  Meaning(Member(Meant(o.messageKey), JString(message)),
                          Legible(o.messageKey) && OnlyNamedControls(message)))
  {
    TextEncodes(message);
    TextOneLine(message);
    OptionTells(o.messageKey, RawText(message), [], JString(message), OnlyNamedControls(message));
  }

  lemma CallerOpens(caller: Caller)
    ensures Opens([LBRACE], Braced(CallerTokens(caller)))
  {
    JoinThree(Token(FILE_KEY, RawText(caller.file)), Token(LINE_KEY, IntText(caller.line)),
              Token(FUNCTION_KEY, RawText(caller.name)), COMMA);
  }

  lemma CallerTells(o: Options, caller: Caller)
    ensures Tells(CallerToken(o, caller), CallerMeaning(o, caller))
  {
    CallerEncodes(caller);
    CallerOneLine(caller);
    CallerOpens(caller);
    OptionTells(o.callerKey, Braced(CallerTokens(caller)), [LBRACE], JObject(Members(CallerMeanings(caller))),
                AllClean(CallerMeanings(caller)));
  }

  lemma FieldTells(o: Options, field: Field)
    ensures Tells(FieldToken(o, field), FieldMeaning(o, field))
  {
    var key, raw := o.convert(field.key), AsItIs(o, field);
    EscapeIsSealed(key);
    if raw.Some? && !Legible(raw.value) {
      IllegibleValueTells(Escape(key), key, raw.value);
    } else {
      if raw.Some? {
        LegibleIsClosed(raw.value);
      }
      FieldDenotes(o, field);
      FieldOneLine(o, field);
      DenotedTells(FieldToken(o, field), FieldMeaning(o, field));
    }
  }

  ghost predicate TellAll(tokens: seq<Text>, ms: seq<Meaning>)
  {
    |tokens| == |ms| && forall i | 0 <= i < |tokens| :: Tells(tokens[i], ms[i])
  }

  lemma TellAppend(t1: seq<Text>, m1: seq<Meaning>, t2: seq<Text>, m2: seq<Meaning>)
    requires TellAll(t1, m1) && TellAll(t2, m2)
    ensures TellAll(t1 + t2, m1 + m2)
  {
  }

  lemma StampsTell(o: Options, level: nat, time: Text)
    ensures TellAll(StampTokens(o, level, time), StampMeanings(o, level, time))
  {
    TimeTells(o, time);
    if level < DISABLED {
      LevelTells(o, level);
    }
  }

  lemma MessagesTell(o: Options, message: Text, caller: Option<Caller>)
    ensures TellAll(MessageTokens(o, message, caller), MessageMeanings(o, message, caller))
  {
    MessageTells(o, message);
    if caller.Some? {
      CallerTells(o, caller.value);
    }
  }

  lemma {:induction false} FieldsTell(o: Options, fields: seq<Field>)
    ensures TellAll(FieldTokens(o, fields), FieldMeanings(o, fields))
    decreases |fields|
  {
    if fields != [] {
      FieldsTell(o, fields[..|fields| - 1]);
      FieldTells(o, fields[|fields| - 1]);
    }
  }

  lemma RecordTells(o: Options, level: nat, time: Text, message: Text, caller: Option<Caller>, fields: seq<Field>)
    ensures TellAll(Tokens(o, level, time, message, caller, fields), Meanings(o, level, time, message, caller, fields))
  {
    StampsTell(o, level, time);
    MessagesTell(o, message, caller);
    FieldsTell(o, fields);
    TellAppend(StampTokens(o, level, time), StampMeanings(o, level, time),
               MessageTokens(o, message, caller), MessageMeanings(o, message, caller));
    TellAppend(HeaderTokens(o, level, time, message, caller),
               StampMeanings(o, level, time) + MessageMeanings(o, message, caller),
               FieldTokens(o, fields), FieldMeanings(o, fields));
  }

  // ---- reading the members ----------------------------------------------------

  /** The parser's answer is the members, all read, exactly when they are clean. */
  predicate Answers(r: Option<Parsed<seq<Member>>>, ms: seq<Meaning>)
  {
    if AllClean(ms) then r == Some(Parsed(Members(ms), [])) else r.Some? ==> r.value.value != Members(ms)
  }

  /** From behind an opening brace. */
  function Body(tokens: seq<Text>): Text
  {
    Joined(tokens, COMMA) + [RBRACE]
  }

  lemma FirstMisread(line: Text, ms: seq<Meaning>)
    requires ms != [] && !ms[0].clean && !Gives(ParseMember(line), ms[0].member)
    ensures Answers(ParseMembers(line), ms)
  {
    var r := ParseMembers(line);
    assert !AllClean(ms);
    assert Members(ms)[0] == ms[0].member;
    assert r.Some? ==> r.value.value[0] == ParseMember(line).value.value;
  }

  lemma LastAnswers(token: Text, m: Meaning, whole: bool)
    requires Tells(token, m)
    ensures Answers(ParseMembers(Cut(token + [RBRACE], whole)), [m])
  {
    if m.clean {
      CutBehind(token, [RBRACE], whole);
      StartOfLine([RBRACE]);
      LastMemberParses(token, m, []);
      assert [RBRACE] + [] == [RBRACE];
    } else {
      assert Follows([RBRACE]);
      FirstMisread(Cut(token + [RBRACE], whole), [m]);
    }
  }

  lemma MembersCons(m: Meaning, ms: seq<Meaning>)
    ensures Members([m] + ms) == [m.member] + Members(ms)
    ensures AllClean([m] + ms) <==> m.clean && AllClean(ms)
  {
    assert ([m] + ms)[1..] == ms;
    AllCleanCons([m] + ms);
  }

  lemma ConsDiffers(m: Member, a: seq<Member>, b: seq<Member>)
    requires a != b
    ensures [m] + a != [m] + b
  {
    assert ([m] + a)[1..] == a && ([m] + b)[1..] == b;
  }

  lemma CleanNextAnswers(token: Text, m: Meaning, line: Text, ms: seq<Meaning>)
    requires m.clean && Denotes(token, m) && Answers(ParseMembers(line), ms)
    ensures Answers(ParseMembers(token + ([COMMA] + line)), [m] + ms)
  {
    NextMemberParses(token, m, line);
    MembersCons(m, ms);
    var r := ParseMembers(line);
    if r.Some? && r.value.value != Members(ms) {
      ConsDiffers(m.member, r.value.value, Members(ms));
    }
  }

  lemma NextAnswers(token: Text, m: Meaning, more: Text, ms: seq<Meaning>, whole: bool)
    requires Tells(token, m) && more != [] && more[0] == QUOTE
    requires Answers(ParseMembers(Cut(more, whole)), ms)
    ensures Answers(ParseMembers(Cut(token + ([COMMA] + more), whole)), [m] + ms)
  {
    if m.clean {
      CutBehind(token, [COMMA] + more, whole);
      CutBehind([COMMA], more, whole);
      CleanNextAnswers(token, m, Cut(more, whole), ms);
    } else {
      assert Follows([COMMA] + more);
      FirstMisread(Cut(token + ([COMMA] + more), whole), [m] + ms);
    }
  }

  lemma BodyCons(tokens: seq<Text>, ms: seq<Meaning>)
    requires |tokens| > 1 && TellAll(tokens, ms)
    ensures Body(tokens) == tokens[0] + ([COMMA] + Body(tokens[1..]))
  {
    assert forall i | 0 <= i < |tokens| :: Tells(tokens[i], ms[i]);
    JoinCons(tokens, COMMA);
  }

  lemma {:induction false} MembersAnswer(tokens: seq<Text>, ms: seq<Meaning>, whole: bool)
    requires tokens != [] && TellAll(tokens, ms)
    ensures Answers(ParseMembers(Cut(Body(tokens), whole)), ms)
    ensures Body(tokens)[0] == QUOTE
    decreases |tokens|
  {
    assert Tells(tokens[0], ms[0]);
    if |tokens| == 1 {
      JoinOne(tokens[0], COMMA);
      assert tokens == [tokens[0]] && ms == [ms[0]];
      LastAnswers(tokens[0], ms[0], whole);
    } else {
      MembersAnswer(tokens[1..], ms[1..], whole);
      BodyCons(tokens, ms);
      NextAnswers(tokens[0], ms[0], Body(tokens[1..]), ms[1..], whole);
      assert [ms[0]] + ms[1..] == ms;
    }
  }

  lemma ObjectAnswers(tokens: seq<Text>, ms: seq<Meaning>, whole: bool)
    requires TellAll(tokens, ms)
    ensures Answers(ParseObject(Cut(Body(tokens), whole)), ms)
  {
    if tokens == [] {
      assert Body(tokens) == [RBRACE];
      StartOfLine([RBRACE]);
      assert [RBRACE][1..] == [];
    } else {
      MembersAnswer(tokens, ms, whole);
    }
  }

  lemma LineAnswers(tokens: seq<Text>, ms: seq<Meaning>, whole: bool, end: Text)
    requires TellAll(tokens, ms) && (end == [] || end == [NEWLINE])
    ensures Parse(Cut(Braced(tokens), whole) + end) == Some(Members(ms)) <==> AllClean(ms)
  {
    var line := Cut(Braced(tokens), whole);
    var body := Cut(Body(tokens), whole);
    assert Braced(tokens) == [LBRACE] + Body(tokens);
    CutBehind([LBRACE], Body(tokens), whole);
    ObjectAnswers(tokens, ms, whole);
    assert ([LBRACE] + body)[1..] == body;
    assert line[|line| - 1] != NEWLINE by {
      StartIsLine(Braced(tokens));
    }
    assert (line + [NEWLINE])[..|line|] == line && line + [] == line;
  }

  lemma CleanLine(tokens: seq<Text>, ms: seq<Meaning>)
    requires TellAll(tokens, ms) && AllClean(ms)
    ensures OneLine(Braced(tokens))
  {
    forall i | 0 <= i < |tokens| ensures OneLine(tokens[i]) {
      assert Tells(tokens[i], ms[i]);
    }
    JoinAvoids(tokens, COMMA, NEWLINE);
  }

  /** Whatever the option strings, the rendered times and the texts hold: the record
      parses to its members, in the order they were given, if and only if each of them
      is clean. */
  lemma ReadsBackExactly(o: Options, level: nat, time: Text, message: Text, caller: Option<Caller>, fields: seq<Field>)
    ensures var ms := Meanings(o, level, time, message, caller, fields);
            Parse(Record(o, level, time, message, caller, fields)) == Some(Members(ms)) <==> AllClean(ms)
  {
    RecordTells(o, level, time, message, caller, fields);
    LineAnswers(Tokens(o, level, time, message, caller, fields), Meanings(o, level, time, message, caller, fields),
                true, if o.disableNewline then [] else [NEWLINE]);
  }
}
