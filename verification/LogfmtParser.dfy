/** A logfmt parser, and exactly which records it reads back. */
module LogfmtParser {
  import opened Bytes
  import opened Wrappers
  import opened Escaping
  import opened Joining
  import opened LineBreaks
  import opened LogfmtText
  import opened Records
  import opened LogfmtFormatter

  datatype Pair = Pair(key: Text, value: Text)

  // ---- the parser -----------------------------------------------------------

  /** A key, up to its '='. A bare space or quotation mark in it is an error. */
  function ParseKey(t: Text): (r: Option<Parsed<Text>>)
    ensures r.Some? ==> |r.value.rest| < |t|
  {
    var k := FirstUnescaped(t, EQUALS);
    var raw := t[..k];
    if k == |t| || !Sealed(raw, SPACE) || !Sealed(raw, QUOTE) || Unescape(raw).None? then None
    else Some(Parsed(Unescape(raw).value, t[k + 1..]))
  }

  /** A value from behind its opening quotation mark. */
  function ParseQuoted(t: Text): (r: Option<Parsed<Text>>)
    ensures r.Some? ==> |r.value.rest| < |t|
  {
    var k := FirstUnescaped(t, QUOTE);
    if k == |t| || Unescape(t[..k]).None? then None else Some(Parsed(Unescape(t[..k]).value, t[k + 1..]))
  }

  /** A value up to the next space; a bare quotation mark in it is an error. */
  function ParseBare(t: Text): (r: Option<Parsed<Text>>)
    ensures r.Some? ==> |r.value.rest| <= |t|
  {
    var k := FirstUnescaped(t, SPACE);
    if !Sealed(t[..k], QUOTE) || Unescape(t[..k]).None? then None
    else Some(Parsed(Unescape(t[..k]).value, t[k..]))
  }

  function ParseValue(t: Text): (r: Option<Parsed<Text>>)
    ensures r.Some? ==> |r.value.rest| <= |t|
  {
    if t != [] && t[0] == QUOTE then ParseQuoted(t[1..]) else ParseBare(t)
  }

  function ParsePair(t: Text): (r: Option<Parsed<Pair>>)
    ensures r.Some? ==> |r.value.rest| < |t|
  {
    var key := ParseKey(t);
    if key.None? then None
    else
      var v := ParseValue(key.value.rest);
      if v.None? then None else Some(Parsed(Pair(key.value.value, v.value.value), v.value.rest))
  }

  function ParsePairs(t: Text): Option<seq<Pair>>
    decreases |t|
  {
    var p := ParsePair(t);
    if p.None? then None
    else if p.value.rest == [] then Some([p.value.value])
    else if p.value.rest[0] != SPACE then None
    else
      var more := ParsePairs(p.value.rest[1..]);
      if more.None? then None else Some([p.value.value] + more.value)
  }

  /** A record: one possibly empty line of pairs, and perhaps a line end. */
  function Parse(record: Text): Option<seq<Pair>>
  {
    var line := if record != [] && record[|record| - 1] == NEWLINE then record[..|record| - 1] else record;
    if NEWLINE in line then None else if line == [] then Some([]) else ParsePairs(line)
  }

  // ---- what the formatter means ---------------------------------------------

  /** A pair a record should have, and whether what is written of it without escaping
      fits where it is written. */
  datatype Meaning = Meaning(pair: Pair, fits: bool)

  /** What a text written without escaping stands for. */
  function Meant(raw: Text): Text
  {
    if Unescape(raw).Some? then Unescape(raw).value else raw
  }

  /** A text that, written without escaping, is a key: option strings are written so. */
  predicate FitsKey(raw: Text)
  {
    Sealed(raw, SPACE) && Sealed(raw, EQUALS) && Sealed(raw, QUOTE) && OneLine(raw) && Unescape(raw).Some?
  }

  /** A text that, written without escaping, stays in its value: option strings and
      rendered times are written so. Spaces matter only where values are not quoted. */
  predicate FitsValue(f: Formatter, raw: Text)
  {
    (f.disableQuoting ==> Sealed(raw, SPACE)) && Sealed(raw, QUOTE) && OneLine(raw) && Unescape(raw).Some?
  }

  /** The text a field value writes as it is, if any. */
  function AsItIs(o: Options, field: Field): Option<Text>
  {
    if field.sensitive then Some(o.redacted)
    else match field.value
      case Time(t) => t
      case Duration(t) => t
      case _ => None
  }

  /** The text a field value stands for. */
  function ValueText(o: Options, field: Field): Text
  {
    if AsItIs(o, field).Some? then Meant(AsItIs(o, field).value)
    else match field.value
      case Bool(truth) => if truth then TRUE else FALSE
      case Int(i) => IntText(i)
      case Uint(n) => Decimal(n)
      case Real(x) => FloatText(x)
      case Str(s) => Truncated(o, s)
      case Error(s) => s
      case Object(shown) => shown
      case Array(shown) => shown
      case Binary(_, shown) => shown
      case _ => NULL
  }

  function FieldMeaning(f: Formatter, field: Field): Meaning
  {
    var raw := AsItIs(f.options, field);
    Meaning(Pair(f.options.convert(field.key), ValueText(f.options, field)), raw.Some? ==> FitsValue(f, raw.value))
  }

  function FieldMeanings(f: Formatter, fields: seq<Field>): seq<Meaning>
  {
    if fields == [] then []
    else FieldMeanings(f, fields[..|fields| - 1]) + [FieldMeaning(f, fields[|fields| - 1])]
  }

  function StampMeanings(f: Formatter, level: nat, time: Text): seq<Meaning>
  {
    var o := f.options;
    Optional(!o.noTimestamp, Meaning(Pair(Meant(o.timeKey), Meant(time)), FitsKey(o.timeKey) && FitsValue(f, time)))
    + Optional(!o.noLevel, Meaning(Pair(Meant(o.levelKey), LevelText(level)), FitsKey(o.levelKey)))
  }

  function CallerMeaning(f: Formatter, caller: Caller): Meaning
  {
    var key := f.options.callerKey;
    Meaning(Pair(Meant(key), caller.file + ([COLON] + IntText(caller.line))), FitsKey(key))
  }

  function MessageMeanings(f: Formatter, message: Text, caller: Option<Caller>): seq<Meaning>
  {
    var key := f.options.messageKey;
    Optional(message != [], Meaning(Pair(Meant(key), message), FitsKey(key)))
    + (if caller.None? then [] else [CallerMeaning(f, caller.value)])
  }

  function Meanings(f: Formatter, level: nat, time: Text, message: Text, caller: Option<Caller>, fields: seq<Field>)
    : seq<Meaning>
  {
    StampMeanings(f, level, time) + MessageMeanings(f, message, caller) + FieldMeanings(f, fields)
  }

  predicate AllFit(ms: seq<Meaning>)
  {
    forall i | 0 <= i < |ms| :: ms[i].fits
  }

  function Pairs(ms: seq<Meaning>): (pairs: seq<Pair>)
    ensures |pairs| == |ms|
  {
    if ms == [] then [] else [ms[0].pair] + Pairs(ms[1..])
  }

  predicate PlainOptions(o: Options)
  {
    Plain(o.timeKey) && Plain(o.levelKey) && Plain(o.messageKey) && Plain(o.callerKey) && Plain(o.redacted)
  }

  lemma DefaultOptionsArePlain()
    ensures PlainOptions(DefaultOptions())
  {
  }

  /** Text that needs no escaping fits everywhere and means itself. */
  lemma PlainMeansItself(f: Formatter, s: Text)
    requires Plain(s)
    ensures FitsKey(s) && FitsValue(f, s) && Meant(s) == s
  {
    PlainWritten(s);
  }

  lemma PlainOptionsMeanThemselves(f: Formatter)
    requires PlainOptions(f.options)
    ensures var o := f.options;
            forall k | k in [o.timeKey, o.levelKey, o.messageKey, o.callerKey, o.redacted] ::
              FitsKey(k) && FitsValue(f, k) && Meant(k) == k
  {
    PlainMeansItself(f, f.options.timeKey);
    PlainMeansItself(f, f.options.levelKey);
    PlainMeansItself(f, f.options.messageKey);
    PlainMeansItself(f, f.options.callerKey);
    PlainMeansItself(f, f.options.redacted);
  }

  // ---- written texts --------------------------------------------------------

  /** `raw` is an escaped form of `text`. */
  predicate Written(raw: Text, text: Text)
  {
    && Unescape(raw) == Some(text) && OneLine(raw)
    && Sealed(raw, SPACE) && Sealed(raw, EQUALS) && Sealed(raw, QUOTE)
  }

  lemma EscapeWritten(s: Text)
    ensures Written(Escape(s), s)
  {
    UnescapeEscape(s);
    EscapeHasNoNewline(s);
    EscapeSealed(s, SPACE);
    EscapeSealed(s, EQUALS);
    EscapeSealed(s, QUOTE);
  }

  lemma PlainWritten(s: Text)
    requires Plain(s)
    ensures Written(s, s)
  {
    PlainEscape(s);
    EscapeWritten(s);
  }

  /** The length of the first unit and the byte it stands for. */
  function UnitLength(t: Text): nat
  {
    if t != [] && t[0] == BACKSLASH then 2 else 1
  }

  /** Whether the first unit is there and stands for a byte. */
  predicate Readable(t: Text)
  {
    t != [] && (t[0] == BACKSLASH ==> |t| >= 2 && Unesc(t[1]).Some?)
  }

  function UnitByte(t: Text): Byte
    requires Readable(t)
  {
    if t[0] == BACKSLASH then Unesc(t[1]).value else t[0]
  }

  lemma UnescapeCons(t: Text)
    requires t != []
    ensures Readable(t) ==> UnitLength(t) <= |t|
    ensures Unescape(t).Some? <==> Readable(t) && Unescape(t[UnitLength(t)..]).Some?
    ensures Unescape(t).Some? ==> Unescape(t) == Some([UnitByte(t)] + Unescape(t[UnitLength(t)..]).value)
  {
  }

  lemma ConcatAssociates(a: Text, b: Text, c: Text)
    ensures a + (b + c) == (a + b) + c
  {
  }

  /** Behind a sealed text reading goes on as from the start. */
  lemma {:induction false} UnescapeBehind(a: Text, b: Text, sep: Byte)
    requires Sealed(a, sep) || Unescape(a).Some?
    ensures Unescape(a + b).Some? <==> Unescape(a).Some? && Unescape(b).Some?
    ensures Unescape(a + b).Some? ==> Unescape(a + b) == Some(Unescape(a).value + Unescape(b).value)
    decreases |a|
  {
    if a == [] {
      assert a + b == b;
      assert Unescape(b).Some? ==> Unescape(a).value + Unescape(b).value == Unescape(b).value;
    } else {
      var n := UnitLength(a);
      UnescapeCons(a);
      UnescapeCons(a + b);
      assert Readable(a + b) <==> Readable(a);
      assert (a + b)[n..] == a[n..] + b;
      UnescapeBehind(a[n..], b, sep);
      if Unescape(a + b).Some? {
        ConcatAssociates([UnitByte(a)], Unescape(a[n..]).value, Unescape(b).value);
      }
    }
  }

  lemma WrittenAppend(a: Text, x: Text, b: Text, y: Text)
    requires Written(a, x) && Written(b, y)
    ensures Written(a + b, x + y)
  {
    UnescapeBehind(a, b, SPACE);
    SealedAppend(a, b, SPACE);
    SealedAppend(a, b, EQUALS);
    SealedAppend(a, b, QUOTE);
  }

  // ---- reading what fits ------------------------------------------------------

  /** What may follow a pair. */
  predicate Ended(rest: Text)
  {
    rest == [] || rest[0] == SPACE
  }

  /** Whatever follows, the parser reads `raw` as the value `text`. */
  ghost predicate Reads(raw: Text, text: Text)
  {
    && OneLine(raw)
    && forall rest: Text {:trigger raw + rest} | Ended(rest) :: ParseValue(raw + rest) == Some(Parsed(text, rest))
  }

  lemma KeyParses(raw: Text, more: Text)
    requires FitsKey(raw)
    ensures ParseKey(raw + ([EQUALS] + more)) == Some(Parsed(Meant(raw), more))
  {
    var t := raw + ([EQUALS] + more);
    SealedEnds(raw, EQUALS, [EQUALS] + more);
    assert t[..|raw|] == raw && t[|raw| + 1..] == more;
  }

  lemma Halves(a: Text, b: Text)
    ensures (a + b)[..|a|] == a && (a + b)[|a|..] == b
  {
  }

  lemma QuotedIs(t: Text, raw: Text, rest: Text)
    requires t != [] && t[0] == QUOTE && FirstUnescaped(t[1..], QUOTE) == |raw| < |t| - 1
    requires t[1..][..|raw|] == raw && t[1..][|raw| + 1..] == rest && Unescape(raw).Some?
    ensures ParseValue(t) == Some(Parsed(Unescape(raw).value, rest))
  {
  }

  lemma QuotedHalves(raw: Text, rest: Text)
    ensures var t, inner := [QUOTE] + raw + [QUOTE] + rest, raw + ([QUOTE] + rest);
            t[0] == QUOTE && t[1..] == inner && inner[..|raw|] == raw && inner[|raw| + 1..] == rest
  {
  }

  lemma QuotedParses(raw: Text, rest: Text)
    requires Sealed(raw, QUOTE) && Unescape(raw).Some?
    ensures ParseValue([QUOTE] + raw + [QUOTE] + rest) == Some(Parsed(Unescape(raw).value, rest))
  {
    SealedEnds(raw, QUOTE, [QUOTE] + rest);
    QuotedHalves(raw, rest);
    QuotedIs([QUOTE] + raw + [QUOTE] + rest, raw, rest);
  }

  lemma BareIs(t: Text, raw: Text, rest: Text)
    requires (t == [] || t[0] != QUOTE) && FirstUnescaped(t, SPACE) == |raw| && t[..|raw|] == raw && t[|raw|..] == rest
    requires Sealed(raw, QUOTE) && Unescape(raw).Some?
    ensures ParseValue(t) == Some(Parsed(Unescape(raw).value, rest))
  {
  }

  lemma BareEnds(raw: Text, rest: Text)
    requires (raw + rest == [] || (raw + rest)[0] != QUOTE) && FirstUnescaped(raw + rest, SPACE) == |raw|
    requires Sealed(raw, QUOTE) && Unescape(raw).Some?
    ensures ParseValue(raw + rest) == Some(Parsed(Unescape(raw).value, rest))
  {
    Halves(raw, rest);
    BareIs(raw + rest, raw, rest);
  }

  lemma BareParses(raw: Text, rest: Text)
    requires Sealed(raw, SPACE) && Sealed(raw, QUOTE) && Unescape(raw).Some? && Ended(rest)
    ensures ParseValue(raw + rest) == Some(Parsed(Unescape(raw).value, rest))
  {
    SealedEnds(raw, SPACE, rest);
    NoQuoteFirst(raw, rest);
    BareEnds(raw, rest);
  }

  lemma NoQuoteFirst(raw: Text, rest: Text)
    requires Sealed(raw, QUOTE) && Ended(rest)
    ensures raw + rest != [] ==> (raw + rest)[0] != QUOTE
  {
    assert raw == [] ==> raw + rest == rest;
  }

  lemma BareReads(raw: Text, text: Text)
    requires Written(raw, text)
    ensures Reads(raw, text)
  {
    forall rest: Text | Ended(rest) ensures ParseValue(raw + rest) == Some(Parsed(text, rest)) {
      BareParses(raw, rest);
    }
  }

  lemma FittingReads(f: Formatter, raw: Text)
    requires FitsValue(f, raw)
    ensures Reads(Wrap(f, raw), Meant(raw))
  {
    forall rest: Text | Ended(rest) ensures ParseValue(Wrap(f, raw) + rest) == Some(Parsed(Meant(raw), rest)) {
      if f.disableQuoting {
        BareParses(raw, rest);
      } else {
        QuotedParses(raw, rest);
      }
    }
  }

  lemma WrittenReads(f: Formatter, raw: Text, text: Text)
    requires Written(raw, text)
    ensures Reads(Wrap(f, raw), text)
  {
    FittingReads(f, raw);
  }

  // ---- values ---------------------------------------------------------------

  lemma DigitsPlain(t: Text)
    requires forall i | 0 <= i < |t| :: IsDigit(t[i])
    ensures Plain(t)
  {
  }

  lemma IntTextPlain(i: int)
    ensures Plain(IntText(i))
  {
    DigitsPlain(Decimal(if i < 0 then -i else i));
  }

  lemma FloatTextPlain(x: Float)
    ensures Plain(FloatText(x))
  {
    match x
    case Finite(_, whole, fraction) =>
      DigitsPlain(Decimal(whole));
      DigitsPlain(Digits(fraction));
    case NaN =>
    case Infinite(_) =>
  }

  lemma LevelTextPlain(level: nat)
    ensures Plain(LevelText(level))
  {
    if level < 7 {
    } else {
      DigitsPlain(Decimal(level));
    }
  }

  lemma StringReads(f: Formatter, s: Text)
    ensures Reads(Wrap(f, Escape(Cut(f.options, s)) + Dots(f.options, s)), Truncated(f.options, s))
  {
    var cut, dots := Cut(f.options, s), Dots(f.options, s);
    EscapeWritten(cut);
    PlainWritten(dots);
    WrittenAppend(Escape(cut), cut, dots, dots);
    assert Cuts(f.options, s) ==> cut + dots == Truncated(f.options, s);
    assert !Cuts(f.options, s) ==> cut + dots == s;
    WrittenReads(f, Escape(cut) + dots, Truncated(f.options, s));
  }

  lemma PlainValueReads(raw: Text)
    requires Plain(raw)
    ensures Reads(raw, raw)
  {
    PlainWritten(raw);
    BareReads(raw, raw);
  }

  lemma QuotedPlainReads(f: Formatter, raw: Text)
    requires Plain(raw)
    ensures Reads(Wrap(f, raw), raw)
  {
    PlainWritten(raw);
    WrittenReads(f, raw, raw);
  }

  lemma QuotedTextReads(f: Formatter, s: Text)
    ensures Reads(Wrap(f, Escape(s)), s)
  {
    EscapeWritten(s);
    WrittenReads(f, Escape(s), s);
  }

  /** Every value that fits is read as its text: an escaped one always, one written as
      it is under its own condition. */
  lemma ValueReads(f: Formatter, field: Field)
    requires FieldMeaning(f, field).fits
    ensures Reads(RawValue(f, field), ValueText(f.options, field))
  {
    var raw := AsItIs(f.options, field);
    if raw.Some? {
      FittingReads(f, raw.value);
    } else {
      match field.value
      case Bool(truth) => PlainValueReads(if truth then TRUE else FALSE);
      case Int(i) => IntTextPlain(i); PlainValueReads(IntText(i));
      case Uint(n) => DigitsPlain(Decimal(n)); PlainValueReads(Decimal(n));
      case Real(x) => FloatTextPlain(x); PlainValueReads(FloatText(x));
      case Str(s) => StringReads(f, s);
      case Error(s) => QuotedTextReads(f, s);
      case Object(shown) => QuotedTextReads(f, shown);
      case Array(shown) => QuotedTextReads(f, shown);
      case Binary(_, shown) => QuotedTextReads(f, shown);
      case _ => PlainValueReads(NULL);
    }
  }

  // ---- reading what does not fit ----------------------------------------------

  lemma {:induction false} UnescapeShortens(t: Text)
    requires Unescape(t).Some?
    ensures |Unescape(t).value| <= |t|
    decreases |t|
  {
    if t != [] {
      UnescapeCons(t);
      UnescapeShortens(t[UnitLength(t)..]);
    }
  }

  /** A part of a text is read as less than the whole. */
  lemma PartIsShorter(raw: Text, k: nat)
    requires k < |raw| && Unescape(raw[..k]).Some?
    ensures |Unescape(raw[..k]).value| < |Meant(raw)|
  {
    UnescapeShortens(raw[..k]);
    if Unescape(raw).Some? {
      assert raw == raw[..k] + raw[k..];
      UnescapeBehind(raw[..k], raw[k..], SPACE);
      UnescapeCons(raw[k..]);
    }
  }

  lemma {:induction false} SealedOfLegible(t: Text, sep: Byte)
    requires sep != BACKSLASH && Unescape(t).Some? && FirstUnescaped(t, sep) == |t|
    ensures Sealed(t, sep)
    decreases |t|
  {
    if t != [] {
      SealedOfLegible(t[UnitLength(t)..], sep);
    }
  }

  predicate Separator(c: Byte)
  {
    c == SPACE || c == EQUALS || c == QUOTE
  }

  lemma UnitOf(t: Text, c: Byte)
    requires Separator(c) && Readable(t) && UnitByte(t) != c
    ensures c !in t[..UnitLength(t)]
  {
  }

  /** Reading a text with an escape in it lags behind the text, and never catches up
      before an open backslash: p with some bytes in front and a backslash behind is not
      what it is read as, whatever a separator and the rest add to that. */
  lemma {:induction false} Lag(front: Text, p: Text, c: Byte, w: Text)
    requires Separator(c) && c !in front && Unescape(p).Some?
    ensures front + p + [BACKSLASH] != Unescape(p).value + ([c] + w)
    decreases |p|
  {
    if p == [] {
      assert (front + p + [BACKSLASH])[0] == (front + [BACKSLASH])[0];
      assert (Unescape(p).value + ([c] + w))[0] == c;
    } else {
      UnescapeCons(p);
      var unit, q, d := p[..UnitLength(p)], p[UnitLength(p)..], UnitByte(p);
      LagSplits(front, unit, q, d, Unescape(q).value, [c] + w);
      assert p == unit + q;
      if (front + unit)[0] == d {
        UnitInFront(front, p, c);
        Lag((front + unit)[1..], q, c, w);
      }
    }
  }

  lemma LagSplits(front: Text, unit: Text, q: Text, d: Byte, v: Text, more: Text)
    requires unit != []
    ensures var left, right := front + (unit + q) + [BACKSLASH], [d] + v + more;
            && left[0] == (front + unit)[0] && left[1..] == (front + unit)[1..] + q + [BACKSLASH]
            && right[0] == d && right[1..] == v + more
  {
  }

  lemma UnitInFront(front: Text, p: Text, c: Byte)
    requires Separator(c) && c !in front && Readable(p)
    requires (front + p[..UnitLength(p)])[0] == UnitByte(p)
    ensures c !in (front + p[..UnitLength(p)])[1..]
  {
    if front != [] || UnitLength(p) == 2 {
      UnitOf(p, c);
    }
  }

  /** Behind an open backslash a separator is read as a byte. */
  lemma OpenReads(p: Text, c: Byte, more: Text) returns (w: Text)
    requires Sealed(p, QUOTE) || Sealed(p, c)
    requires Separator(c) && Unescape(p + ([BACKSLASH, c] + more)).Some?
    ensures Unescape(p).Some? && Unescape(p + ([BACKSLASH, c] + more)) == Some(Unescape(p).value + ([c] + w))
  {
    var tail := [BACKSLASH, c] + more;
    assert tail[2..] == more;
    UnescapeBehind(p, tail, if Sealed(p, c) then c else QUOTE);
    UnescapeCons(tail);
    w := Unescape(more).value;
  }

  lemma OpenIsIllegible(p: Text, sep: Byte)
    requires Sealed(p, sep)
    ensures Unescape(p + [BACKSLASH]).None?
  {
    UnescapeBehind(p, [BACKSLASH], sep);
  }

  lemma OpenSplits(raw: Text, c: Byte, more: Text)
    requires raw != [] && raw[|raw| - 1] == BACKSLASH
    ensures var p := raw[..|raw| - 1];
            && raw == p + [BACKSLASH] && raw + ([c] + more) == p + ([BACKSLASH, c] + more)
            && raw + ([c] + more) == raw + [c] + more
  {
  }

  /** What is read behind an open backslash is not the text, whatever stood before it. */
  lemma OpenLags(front: Text, raw: Text, sep: Byte, c: Byte, more: Text)
    requires raw != [] && raw[|raw| - 1] == BACKSLASH && Sealed(raw[..|raw| - 1], sep)
    requires (sep == QUOTE || sep == c) && Separator(c) && c !in front
    ensures Unescape(raw).None? && Unescape(raw + ([c] + more)) != Some(front + raw)
  {
    var p := raw[..|raw| - 1];
    OpenSplits(raw, c, more);
    OpenIsIllegible(p, sep);
    if Unescape(p + ([BACKSLASH, c] + more)).Some? {
      var w := OpenReads(p, c, more);
      Lag(front, p, c, w);
      ConcatAssociates(front, p, [BACKSLASH]);
    }
  }

  lemma AddNothing(t: Text)
    ensures [] + t == t && t + [] == t && t[..|t|] == t
  {
  }

  lemma OpenMisread(raw: Text, sep: Byte, more: Text)
    requires Separator(sep) && !Sealed(raw, sep) && FirstUnescaped(raw, sep) == |raw|
    ensures Unescape(raw).None? && Unescape(raw + ([sep] + more)) != Some(raw)
  {
    OpenAtEnd(raw, sep);
    OpenLags([], raw, sep, sep, more);
    AddNothing(raw);
  }

  lemma OpenSkips(raw: Text, sep: Byte, more: Text)
    requires Separator(sep) && !Sealed(raw, sep) && FirstUnescaped(raw, sep) == |raw|
    ensures FirstUnescaped(raw + ([sep] + more), sep) == |raw| + 1 + FirstUnescaped(more, sep)
  {
    OpenAtEnd(raw, sep);
    OpenAndOne(raw, sep);
    SealedSkips(raw + [sep], sep, more);
    OpenSplits(raw, sep, more);
  }

  lemma PrefixSplits(p: Text, raw: Text, after: Text)
    requires p <= raw + after && |raw| <= |p|
    ensures p == raw + p[|raw|..] && p[|raw|..] <= after
  {
  }

  lemma PrefixCut(p: Text, raw: Text, after: Text, k: nat)
    requires p <= raw + after && k <= |p| && k <= |raw|
    ensures p[..k] == raw[..k]
  {
  }

  /** Read up to the first separator, a text, or what is left of it, is read as what it
      stands for only if it is all there and sealed. */
  lemma RunIs(raw: Text, sep: Byte, after: Text, p: Text)
    requires Separator(sep) && (after == [] || after[0] == sep) && p <= raw + after
    requires Unescape(p[..FirstUnescaped(p, sep)]) == Some(Meant(raw))
    ensures FirstUnescaped(p, sep) == |raw| && p[..|raw|] == raw && Sealed(raw, sep) && Unescape(raw).Some?
  {
    var k := FirstUnescaped(p, sep);
    if k < |raw| {
      PrefixCut(p, raw, after, k);
      PartIsShorter(raw, k);
    } else {
      PrefixSplits(p, raw, after);
      RunReaches(raw, sep, p[|raw|..]);
    }
  }

  lemma RunSplits(raw: Text, sep: Byte, more: Text, n: nat)
    requires n <= |more|
    ensures (raw + ([sep] + more))[..|raw| + 1 + n] == raw + ([sep] + more[..n])
  {
  }

  lemma HeadSplits(t: Text)
    requires t != []
    ensures t == [t[0]] + t[1..]
  {
  }

  lemma RunReaches(raw: Text, sep: Byte, rest: Text)
    requires Separator(sep) && (rest == [] || rest[0] == sep)
    requires FirstUnescaped(raw + rest, sep) >= |raw|
    requires Unescape((raw + rest)[..FirstUnescaped(raw + rest, sep)]) == Some(Meant(raw))
    ensures FirstUnescaped(raw + rest, sep) == |raw| && (raw + rest)[..|raw|] == raw
    ensures Sealed(raw, sep) && Unescape(raw).Some?
  {
    PrefixCut(raw + rest, raw, rest, |raw|);
    AddNothing(raw);
    if FirstUnescaped(raw, sep) < |raw| {
      FoundInPrefix(raw, rest, sep);
    } else if Sealed(raw, sep) {
      SealedEnds(raw, sep, rest);
    } else if rest == [] {
      OpenEndMisread(raw, sep);
    } else {
      HeadSplits(rest);
      OpenRunMisread(raw, sep, rest[1..]);
    }
  }

  lemma OpenEndMisread(raw: Text, sep: Byte)
    requires Separator(sep) && !Sealed(raw, sep) && FirstUnescaped(raw, sep) == |raw|
    ensures Unescape((raw + [])[..FirstUnescaped(raw + [], sep)]).None?
  {
    AddNothing(raw);
    OpenAtEnd(raw, sep);
    OpenSplits(raw, sep, []);
    OpenIsIllegible(raw[..|raw| - 1], sep);
  }

  lemma OpenRunMisread(raw: Text, sep: Byte, more: Text)
    requires Separator(sep) && !Sealed(raw, sep) && FirstUnescaped(raw, sep) == |raw|
    ensures var t := raw + ([sep] + more); Unescape(t[..FirstUnescaped(t, sep)]) != Some(Meant(raw))
  {
    var n := FirstUnescaped(more, sep);
    OpenSkips(raw, sep, more);
    OpenMisread(raw, sep, more[..n]);
    OpenRunIs(raw, sep, more);
  }

  lemma OpenRunIs(raw: Text, sep: Byte, more: Text)
    requires FirstUnescaped(raw + ([sep] + more), sep) == |raw| + 1 + FirstUnescaped(more, sep)
    ensures var t := raw + ([sep] + more);
            t[..FirstUnescaped(t, sep)] == raw + ([sep] + more[..FirstUnescaped(more, sep)])
  {
    RunSplits(raw, sep, more, FirstUnescaped(more, sep));
  }

  lemma {:induction false} Shifted(x: Text, w: Text)
    ensures x + ([SPACE] + w) != [QUOTE] + x
  {
    var left, right := x + ([SPACE] + w), [QUOTE] + x;
    assert right[0] == QUOTE && right[1..] == x;
    if x == [] {
      assert left[0] == SPACE;
    } else {
      Shifted(x[1..], w);
      assert left[0] == x[0] && left[1..] == x[1..] + ([SPACE] + w);
      assert x[0] == QUOTE ==> x == [QUOTE] + x[1..];
    }
  }

  lemma QuoteMeant(x: Text)
    ensures Meant([QUOTE] + x) == [QUOTE] + Meant(x)
  {
    assert ([QUOTE] + x)[1..] == x;
    UnescapeCons([QUOTE] + x);
  }

  /** An unquoted text that starts with a quotation mark is read as a quoted one. */
  lemma QuoteMisread(x: Text, after: Text, p: Text)
    requires (after == [] || after[0] == SPACE) && p <= x + after && FirstUnescaped(p, QUOTE) < |p|
    ensures Unescape(p[..FirstUnescaped(p, QUOTE)]) != Some(Meant([QUOTE] + x))
  {
    var k := FirstUnescaped(p, QUOTE);
    QuoteMeant(x);
    if k < |x| {
      PrefixCut(p, x, after, k);
      if Unescape(x[..k]).Some? {
        PartIsShorter(x, k);
      }
    } else {
      PrefixSplits(p, x, after);
      QuoteReaches(x, p[|x|..]);
    }
  }

  lemma QuoteReaches(x: Text, rest: Text)
    requires rest != [] && rest[0] == SPACE && |x| <= FirstUnescaped(x + rest, QUOTE) < |x + rest|
    ensures Unescape((x + rest)[..FirstUnescaped(x + rest, QUOTE)]) != Some([QUOTE] + Meant(x))
  {
    var k := FirstUnescaped(x + rest, QUOTE);
    if FirstUnescaped(x, QUOTE) < |x| {
      FoundInPrefix(x, rest, QUOTE);
    } else {
      assert (x + rest)[|x|] == SPACE;
      HeadSplits(rest);
      RunSplits(x, SPACE, rest[1..], k - |x| - 1);
      QuoteRuns(x, rest[1..][..k - |x| - 1]);
    }
  }

  lemma QuoteRuns(x: Text, more: Text)
    requires FirstUnescaped(x, QUOTE) == |x|
    ensures Unescape(x + ([SPACE] + more)) != Some([QUOTE] + Meant(x))
  {
    if Sealed(x, QUOTE) {
      SealedQuoteRuns(x, more);
    } else {
      OpenAtEnd(x, QUOTE);
      OpenLags([QUOTE], x, QUOTE, SPACE, more);
    }
  }

  lemma SealedQuoteRuns(x: Text, more: Text)
    requires Sealed(x, QUOTE)
    ensures Unescape(x + ([SPACE] + more)) != Some([QUOTE] + Meant(x))
  {
    var tail := [SPACE] + more;
    assert tail[1..] == more;
    UnescapeBehind(x, tail, QUOTE);
    UnescapeCons(tail);
    if Unescape(x + tail).Some? {
      Shifted(Unescape(x).value, Unescape(more).value);
    }
  }

  /** A key that does not fit is never read as what it stands for. */
  lemma KeyMisread(raw: Text, more: Text, p: Text)
    requires !FitsKey(raw) && OneLine(p) && p <= raw + ([EQUALS] + more)
    ensures ParseKey(p).Some? ==> ParseKey(p).value.value != Meant(raw)
  {
    if ParseKey(p).Some? && ParseKey(p).value.value == Meant(raw) {
      RunIs(raw, EQUALS, [EQUALS] + more, p);
    }
  }

  lemma QuotedMisread(f: Formatter, raw: Text, rest: Text, p: Text)
    requires !FitsValue(f, raw) && !f.disableQuoting && OneLine(p) && p <= raw + ([QUOTE] + rest)
    ensures ParseValue([QUOTE] + p).Some? ==> ParseValue([QUOTE] + p).value.value != Meant(raw)
  {
    assert ([QUOTE] + p)[1..] == p;
    if ParseValue([QUOTE] + p).Some? && ParseValue([QUOTE] + p).value.value == Meant(raw) {
      RunIs(raw, QUOTE, [QUOTE] + rest, p);
    }
  }

  lemma BareQuoteMisread(raw: Text, rest: Text, p: Text)
    requires raw != [] && raw[0] == QUOTE && Ended(rest) && p != [] && p <= raw + rest
    ensures ParseValue(p).Some? ==> ParseValue(p).value.value != Meant(raw)
  {
    HeadSplits(raw);
    assert p[0] == QUOTE && p[1..] <= raw[1..] + rest;
    if ParseValue(p).Some? {
      QuoteMisread(raw[1..], rest, p[1..]);
    }
  }

  lemma BareRunFits(f: Formatter, raw: Text, rest: Text, p: Text)
    requires OneLine(p) && Ended(rest) && p <= raw + rest
    requires ParseBare(p).Some? && ParseBare(p).value.value == Meant(raw)
    ensures FitsValue(f, raw)
  {
    RunIs(raw, SPACE, rest, p);
  }

  lemma BareMisread(f: Formatter, raw: Text, rest: Text, p: Text)
    requires !FitsValue(f, raw) && f.disableQuoting && OneLine(p) && Ended(rest) && p <= raw + rest
    ensures ParseValue(p).Some? ==> ParseValue(p).value.value != Meant(raw)
  {
    if p != [] && p[0] == QUOTE && raw != [] {
      BareQuoteMisread(raw, rest, p);
    } else if ParseBare(p).Some? && ParseBare(p).value.value == Meant(raw) {
      BareRunFits(f, raw, rest, p);
    }
  }

  // ---- tokens -----------------------------------------------------------------

  /** Whatever follows, the parser reads the token as its pair. */
  ghost predicate Denotes(token: Text, pair: Pair)
  {
    && OneLine(token)
    && forall rest: Text {:trigger token + rest} | Ended(rest) :: ParsePair(token + rest) == Some(Parsed(pair, rest))
  }

  predicate Gives(r: Option<Parsed<Pair>>, pair: Pair)
  {
    r.Some? && r.value.value == pair
  }

  /** A token that fits is read as its pair; any other is not, whatever follows and
      wherever its line ends. */
  ghost predicate Tells(token: Text, m: Meaning)
  {
    && token != []
    && (m.fits ==> Denotes(token, m.pair))
    && (!m.fits ==> forall rest: Text {:trigger token + rest} | Ended(rest) ::
                      !Gives(ParsePair(Start(token + rest)), m.pair))
  }

  lemma TokenIs(rawKey: Text, rawValue: Text, rest: Text)
    ensures Token(rawKey, rawValue) + rest == rawKey + ([EQUALS] + (rawValue + rest))
    ensures Token(rawKey, rawValue) != []
  {
  }

  lemma TokenDenotes(rawKey: Text, rawValue: Text, text: Text)
    requires FitsKey(rawKey) && Reads(rawValue, text)
    ensures Denotes(Token(rawKey, rawValue), Pair(Meant(rawKey), text))
  {
    var token := Token(rawKey, rawValue);
    forall rest: Text | Ended(rest)
      ensures ParsePair(token + rest) == Some(Parsed(Pair(Meant(rawKey), text), rest))
    {
      TokenIs(rawKey, rawValue, rest);
      KeyParses(rawKey, rawValue + rest);
    }
  }

  lemma KeyTells(rawKey: Text, rawValue: Text, text: Text)
    requires !FitsKey(rawKey)
    ensures Tells(Token(rawKey, rawValue), Meaning(Pair(Meant(rawKey), text), false))
  {
    var token := Token(rawKey, rawValue);
    TokenIs(rawKey, rawValue, []);
    forall rest: Text | Ended(rest) ensures !Gives(ParsePair(Start(token + rest)), Pair(Meant(rawKey), text)) {
      TokenIs(rawKey, rawValue, rest);
      StartIsLine(token + rest);
      KeyMisread(rawKey, rawValue + rest, Start(token + rest));
    }
  }

  lemma WrapMisread(f: Formatter, raw: Text, rest: Text)
    requires !FitsValue(f, raw) && Ended(rest)
    ensures ParseValue(Start(Wrap(f, raw) + rest)).Some? ==>
              ParseValue(Start(Wrap(f, raw) + rest)).value.value != Meant(raw)
  {
    if f.disableQuoting {
      StartIsLine(raw + rest);
      BareMisread(f, raw, rest, Start(raw + rest));
    } else {
      var t := raw + ([QUOTE] + rest);
      assert Wrap(f, raw) + rest == [QUOTE] + t;
      StartBehind([QUOTE], t);
      StartIsLine(t);
      QuotedMisread(f, raw, rest, Start(t));
    }
  }

  lemma ValueTells(f: Formatter, rawKey: Text, raw: Text)
    requires FitsKey(rawKey) && !FitsValue(f, raw)
    ensures Tells(Token(rawKey, Wrap(f, raw)), Meaning(Pair(Meant(rawKey), Meant(raw)), false))
  {
    var token := Token(rawKey, Wrap(f, raw));
    TokenIs(rawKey, Wrap(f, raw), []);
    forall rest: Text | Ended(rest)
      ensures !Gives(ParsePair(Start(token + rest)), Pair(Meant(rawKey), Meant(raw)))
    {
      TokenIs(rawKey, Wrap(f, raw), rest);
      StartBehind(rawKey, [EQUALS] + (Wrap(f, raw) + rest));
      StartBehind([EQUALS], Wrap(f, raw) + rest);
      KeyParses(rawKey, Start(Wrap(f, raw) + rest));
      WrapMisread(f, raw, rest);
    }
  }

  lemma ReadTells(rawKey: Text, rawValue: Text, text: Text)
    requires Reads(rawValue, text)
    ensures Tells(Token(rawKey, rawValue), Meaning(Pair(Meant(rawKey), text), FitsKey(rawKey)))
  {
    if FitsKey(rawKey) {
      TokenIs(rawKey, rawValue, []);
      TokenDenotes(rawKey, rawValue, text);
    } else {
      KeyTells(rawKey, rawValue, text);
    }
  }

  lemma RawTells(f: Formatter, rawKey: Text, raw: Text)
    ensures Tells(Token(rawKey, Wrap(f, raw)),
                  Meaning(Pair(Meant(rawKey), Meant(raw)), FitsKey(rawKey) && FitsValue(f, raw)))
  {
    if FitsValue(f, raw) {
      FittingReads(f, raw);
      ReadTells(rawKey, Wrap(f, raw), Meant(raw));
    } else if FitsKey(rawKey) {
      ValueTells(f, rawKey, raw);
    } else {
      KeyTells(rawKey, Wrap(f, raw), Meant(raw));
    }
  }

  lemma FieldTells(f: Formatter, field: Field)
    ensures Tells(FieldToken(f, field), FieldMeaning(f, field))
  {
    var key, raw := f.options.convert(field.key), AsItIs(f.options, field);
    EscapeWritten(key);
    if raw.Some? {
      RawTells(f, Escape(key), raw.value);
    } else {
      ValueReads(f, field);
      ReadTells(Escape(key), RawValue(f, field), ValueText(f.options, field));
    }
  }

  lemma CallerTells(f: Formatter, caller: Caller)
    ensures Tells(CallerToken(f, caller), CallerMeaning(f, caller))
  {
    var tail := [COLON] + IntText(caller.line);
    EscapeWritten(caller.file);
    IntTextPlain(caller.line);
    PlainWritten(tail);
    WrittenAppend(Escape(caller.file), caller.file, tail, tail);
    WrittenReads(f, Escape(caller.file) + tail, caller.file + tail);
    ReadTells(f.options.callerKey, Wrap(f, Escape(caller.file) + tail), caller.file + tail);
  }

  ghost predicate TellAll(tokens: seq<Text>, ms: seq<Meaning>)
  {
    |tokens| == |ms| && forall i | 0 <= i < |tokens| :: Tells(tokens[i], ms[i])
  }

  lemma TellAppend(t1: seq<Text>, m1: seq<Meaning>, t2: seq<Text>, m2: seq<Meaning>)
    requires TellAll(t1, m1) && TellAll(t2, m2)
    ensures TellAll(t1 + t2, m1 + m2)
  {
    forall i | 0 <= i < |t1 + t2| ensures Tells((t1 + t2)[i], (m1 + m2)[i]) {
      if i < |t1| {
        assert Tells(t1[i], m1[i]);
      } else {
        assert Tells(t2[i - |t1|], m2[i - |t1|]);
      }
    }
  }

  lemma StampsTell(f: Formatter, level: nat, time: Text)
    ensures TellAll(StampTokens(f, level, time), StampMeanings(f, level, time))
  {
    RawTells(f, f.options.timeKey, time);
    LevelTextPlain(level);
    QuotedPlainReads(f, LevelText(level));
    ReadTells(f.options.levelKey, Wrap(f, LevelText(level)), LevelText(level));
  }

  lemma MessagesTell(f: Formatter, message: Text, caller: Option<Caller>)
    ensures TellAll(MessageTokens(f, message, caller), MessageMeanings(f, message, caller))
  {
    QuotedTextReads(f, message);
    ReadTells(f.options.messageKey, Wrap(f, Escape(message)), message);
    if caller.Some? {
      CallerTells(f, caller.value);
    }
  }

  lemma {:induction false} FieldsTell(f: Formatter, fields: seq<Field>)
    ensures TellAll(FieldTokens(f, fields), FieldMeanings(f, fields))
    decreases |fields|
  {
    if fields != [] {
      FieldsTell(f, fields[..|fields| - 1]);
      FieldTells(f, fields[|fields| - 1]);
    }
  }

  lemma RecordTells(f: Formatter, level: nat, time: Text, message: Text, caller: Option<Caller>, fields: seq<Field>)
    ensures TellAll(Tokens(f, level, time, message, caller, fields), Meanings(f, level, time, message, caller, fields))
  {
    StampsTell(f, level, time);
    MessagesTell(f, message, caller);
    FieldsTell(f, fields);
    TellAppend(StampTokens(f, level, time), StampMeanings(f, level, time),
               MessageTokens(f, message, caller), MessageMeanings(f, message, caller));
    TellAppend(HeaderTokens(f, level, time, message, caller),
               StampMeanings(f, level, time) + MessageMeanings(f, message, caller),
               FieldTokens(f, fields), FieldMeanings(f, fields));
  }

  // ---- lines ------------------------------------------------------------------

  lemma FitCons(m: Meaning, ms: seq<Meaning>)
    ensures Pairs([m] + ms) == [m.pair] + Pairs(ms)
    ensures AllFit([m] + ms) <==> m.fits && AllFit(ms)
  {
    var all := [m] + ms;
    assert all[1..] == ms;
    assert forall i | 0 < i < |all| :: all[i] == all[1..][i - 1];
  }

  lemma FirstMisread(line: Text, m: Meaning, ms: seq<Meaning>)
    requires !Gives(ParsePair(line), m.pair)
    ensures ParsePairs(line) != Some(Pairs([m] + ms))
  {
    FitCons(m, ms);
    var r := ParsePairs(line);
    assert r.Some? ==> r.value[0] == ParsePair(line).value.value;
  }

  lemma UnfitAnswers(token: Text, m: Meaning, rest: Text, ms: seq<Meaning>)
    requires Tells(token, m) && !m.fits && Ended(rest)
    ensures ParsePairs(Start(token + rest)) != Some(Pairs([m] + ms))
  {
    assert !Gives(ParsePair(Start(token + rest)), m.pair);
    FirstMisread(Start(token + rest), m, ms);
  }

  lemma LastAnswers(token: Text, m: Meaning)
    requires Tells(token, m)
    ensures ParsePairs(Start(token)) == Some(Pairs([m])) <==> m.fits
  {
    AddNothing(token);
    FitCons(m, []);
    assert [m] + [] == [m] && [m.pair] + [] == [m.pair];
    if m.fits {
      StartOfLine(token);
      assert ParsePair(token + []) == Some(Parsed(m.pair, []));
    } else {
      UnfitAnswers(token, m, [], []);
    }
  }

  lemma ConsEqual(p: Pair, a: seq<Pair>, b: seq<Pair>)
    ensures [p] + a == [p] + b <==> a == b
  {
    assert ([p] + a)[1..] == a && ([p] + b)[1..] == b;
  }

  lemma NextPairs(t: Text, pair: Pair, line: Text)
    requires ParsePair(t) == Some(Parsed(pair, [SPACE] + line))
    ensures ParsePairs(t) == if ParsePairs(line).None? then None else Some([pair] + ParsePairs(line).value)
  {
    assert ([SPACE] + line)[1..] == line;
  }

  lemma FitNextReads(token: Text, pair: Pair, more: Text)
    requires Denotes(token, pair)
    ensures ParsePairs(Start(token + ([SPACE] + more)))
            == if ParsePairs(Start(more)).None? then None else Some([pair] + ParsePairs(Start(more)).value)
  {
    StartBehind(token, [SPACE] + more);
    StartBehind([SPACE], more);
    NextPairs(token + ([SPACE] + Start(more)), pair, Start(more));
  }

  lemma SomeCons(pair: Pair, r: Option<seq<Pair>>, pairs: seq<Pair>)
    ensures (if r.None? then None else Some([pair] + r.value)) == Some([pair] + pairs) <==> r == Some(pairs)
  {
    if r.Some? {
      ConsEqual(pair, r.value, pairs);
    }
  }

  lemma FitNextAnswers(token: Text, m: Meaning, more: Text, ms: seq<Meaning>)
    requires Denotes(token, m.pair)
    requires ParsePairs(Start(more)) == Some(Pairs(ms)) <==> AllFit(ms)
    ensures ParsePairs(Start(token + ([SPACE] + more))) == Some([m.pair] + Pairs(ms)) <==> AllFit(ms)
  {
    FitNextReads(token, m.pair, more);
    SomeCons(m.pair, ParsePairs(Start(more)), Pairs(ms));
  }

  lemma NextAnswers(token: Text, m: Meaning, more: Text, ms: seq<Meaning>)
    requires Tells(token, m)
    requires ParsePairs(Start(more)) == Some(Pairs(ms)) <==> AllFit(ms)
    ensures ParsePairs(Start(token + ([SPACE] + more))) == Some(Pairs([m] + ms)) <==> AllFit([m] + ms)
  {
    if m.fits {
      FitNextAnswers(token, m, more, ms);
    } else {
      UnfitAnswers(token, m, [SPACE] + more, ms);
    }
    FitCons(m, ms);
  }

  lemma TokensWritten(tokens: seq<Text>, ms: seq<Meaning>)
    requires TellAll(tokens, ms)
    ensures forall i | 0 <= i < |tokens| :: tokens[i] != []
  {
    forall i | 0 <= i < |tokens| ensures tokens[i] != [] {
      assert Tells(tokens[i], ms[i]);
    }
  }

  lemma LineCons(tokens: seq<Text>, ms: seq<Meaning>)
    requires |tokens| > 1 && TellAll(tokens, ms)
    ensures Line(tokens) == tokens[0] + ([SPACE] + Line(tokens[1..]))
  {
    TokensWritten(tokens, ms);
    JoinCons(tokens, SPACE);
  }

  /** The first line of what is written parses to the pairs exactly when all fit. */
  lemma {:induction false} LineAnswers(tokens: seq<Text>, ms: seq<Meaning>)
    requires tokens != [] && TellAll(tokens, ms)
    ensures ParsePairs(Start(Line(tokens))) == Some(Pairs(ms)) <==> AllFit(ms)
    decreases |tokens|
  {
    assert Tells(tokens[0], ms[0]);
    if |tokens| == 1 {
      JoinOne(tokens[0], SPACE);
      assert tokens == [tokens[0]] && ms == [ms[0]];
      LastAnswers(tokens[0], ms[0]);
    } else {
      LineAnswers(tokens[1..], ms[1..]);
      LineCons(tokens, ms);
      NextAnswers(tokens[0], ms[0], Line(tokens[1..]), ms[1..]);
      assert [ms[0]] + ms[1..] == ms;
    }
  }

  lemma FittingLine(tokens: seq<Text>, ms: seq<Meaning>)
    requires TellAll(tokens, ms) && AllFit(ms)
    ensures OneLine(Line(tokens))
  {
    assert forall i | 0 <= i < |tokens| :: Tells(tokens[i], ms[i]);
    JoinAvoids(tokens, SPACE, NEWLINE);
  }

  /** The line a record starts with, whatever ends it. */
  lemma StartAnswers(tokens: seq<Text>, ms: seq<Meaning>, end: Text)
    requires TellAll(tokens, ms) && (end == [] || end == [NEWLINE])
    ensures Parse(Start(Line(tokens)) + end) == Some(Pairs(ms)) <==> AllFit(ms)
  {
    StartIsLine(Line(tokens));
    LineParses(Start(Line(tokens)), end);
    if tokens == [] {
      assert Pairs(ms) == [];
    } else {
      LineAnswers(tokens, ms);
      NoPairs(ms);
    }
  }

  lemma NoPairs(ms: seq<Meaning>)
    requires ms != []
    ensures ParsePairs([]) == None && Pairs(ms) != []
  {
  }

  lemma LineParses(line: Text, end: Text)
    requires OneLine(line) && (end == [] || end == [NEWLINE])
    ensures Parse(line + end) == if line == [] then Some([]) else ParsePairs(line)
  {
    assert (line + [NEWLINE])[..|line|] == line && line + [] == line;
  }

  /** A text of more than one line is no record. */
  lemma SeveralLines(text: Text, end: Text)
    requires !OneLine(text) && (end == [] || end == [NEWLINE])
    ensures Parse(text + end) == None || (end == [] && Parse(text + end) == Parse(Start(text)))
  {
    if end == [] && text[|text| - 1] == NEWLINE && OneLine(text[..|text| - 1]) {
      var line := text[..|text| - 1];
      assert text + [] == line + [NEWLINE];
      StartOfLine(line);
      LineParses(line, [NEWLINE]);
      LineParses(line, []);
      assert text == line + [NEWLINE] && line + [] == line;
    } else {
      assert (text + [NEWLINE])[..|text|] == text && text + [] == text;
    }
  }

  lemma RecordAnswers(tokens: seq<Text>, ms: seq<Meaning>, end: Text)
    requires TellAll(tokens, ms) && (end == [] || end == [NEWLINE])
    ensures Parse(Line(tokens) + end) == Some(Pairs(ms)) <==> AllFit(ms)
  {
    if OneLine(Line(tokens)) {
      StartOfLine(Line(tokens));
      StartAnswers(tokens, ms, end);
    } else {
      SeveralLines(Line(tokens), end);
      StartAnswers(tokens, ms, []);
      AddNothing(Start(Line(tokens)));
      if AllFit(ms) {
        FittingLine(tokens, ms);
      }
    }
  }

  // ---- permutations -----------------------------------------------------------

  lemma {:induction false} MeaningsAppend(f: Formatter, a: seq<Field>, b: seq<Field>)
    ensures FieldMeanings(f, a + b) == FieldMeanings(f, a) + FieldMeanings(f, b)
    decreases |b|
  {
    if b == [] {
      assert a + b == a;
    } else {
      var init := b[..|b| - 1];
      assert (a + b)[..|a + b| - 1] == a + init;
      MeaningsAppend(f, a, init);
    }
  }

  function Without(a: seq<Field>, k: nat): seq<Field>
    requires k < |a|
  {
    a[..k] + a[k + 1..]
  }

  lemma MeaningsAround(f: Formatter, a: seq<Field>, k: nat)
    requires k < |a|
    ensures FieldMeanings(f, a) == FieldMeanings(f, a[..k]) + [FieldMeaning(f, a[k])] + FieldMeanings(f, a[k + 1..])
  {
    assert a == a[..k] + [a[k]] + a[k + 1..];
    MeaningsAppend(f, a[..k] + [a[k]], a[k + 1..]);
    MeaningsAppend(f, a[..k], [a[k]]);
    assert FieldMeanings(f, [a[k]][..0]) == [];
  }

  lemma MeaningsSplit(f: Formatter, a: seq<Field>, k: nat)
    requires k < |a|
    ensures multiset(FieldMeanings(f, a)) == multiset{FieldMeaning(f, a[k])} + multiset(FieldMeanings(f, Without(a, k)))
  {
    MeaningsAround(f, a, k);
    MeaningsAppend(f, a[..k], a[k + 1..]);
  }

  lemma WithoutSplit(a: seq<Field>, k: nat)
    requires k < |a|
    ensures multiset(a) == multiset{a[k]} + multiset(Without(a, k))
  {
    assert a == a[..k] + [a[k]] + a[k + 1..];
  }

  lemma CancelOne(x: Field, m: multiset<Field>, n: multiset<Field>)
    requires multiset{x} + m == multiset{x} + n
    ensures m == n
  {
    assert m == (multiset{x} + m) - multiset{x};
    assert n == (multiset{x} + n) - multiset{x};
  }

  lemma FindIn(x: Field, b: seq<Field>) returns (k: nat)
    requires x in multiset(b)
    ensures k < |b| && b[k] == x
  {
    k :| k < |b| && b[k] == x;
  }

  lemma {:induction false} SameMeanings(f: Formatter, a: seq<Field>, b: seq<Field>)
    requires multiset(a) == multiset(b)
    ensures multiset(FieldMeanings(f, a)) == multiset(FieldMeanings(f, b))
    decreases |a|
  {
    if a == [] {
      assert |multiset(b)| == |b|;
    } else {
      assert a[0] in multiset(a);
      var k := FindIn(a[0], b);
      WithoutSplit(a, 0);
      WithoutSplit(b, k);
      MeaningsSplit(f, a, 0);
      MeaningsSplit(f, b, k);
      CancelOne(a[0], multiset(Without(a, 0)), multiset(Without(b, k)));
      SameMeanings(f, Without(a, 0), Without(b, k));
    }
  }

  // ---- the round trip ---------------------------------------------------------

  /** Whatever the option strings, the rendered times and the texts hold: parsing the
      record gives back the header pairs and then every field's converted key and value
      text, in the order sorting left them in, if and only if all that is written
      without escaping fits; and the sorted fields are a permutation of those given. */
  lemma RoundTrip(f: Formatter, level: nat, time: Text, message: Text, caller: Option<Caller>,
                  fields: seq<Field>, sorted: seq<Field>)
    requires FieldOrder(f, fields, sorted)
    ensures var ms := Meanings(f, level, time, message, caller, sorted);
            Parse(Record(f, level, time, message, caller, sorted)) == Some(Pairs(ms)) <==> AllFit(ms)
    ensures multiset(FieldMeanings(f, sorted)) == multiset(FieldMeanings(f, fields))
    ensures !f.disableSorting ==> SortedByKey(sorted)
  {
    SameMeanings(f, fields, sorted);
    RecordTells(f, level, time, message, caller, sorted);
    RecordAnswers(Tokens(f, level, time, message, caller, sorted), Meanings(f, level, time, message, caller, sorted),
                  if f.options.disableNewline then [] else [NEWLINE]);
  }

  // ---- a record that does not read back ---------------------------------------

  /** Where a pair is due, a text without '=' before the next space is an error. */
  lemma NoKey(b: Text, tail: Text)
    requires Plain(b) && Ended(tail)
    ensures ParseKey(b + tail) == None
  {
    PlainWritten(b);
    SealedSkips(b, EQUALS, tail);
    if tail != [] {
      var k := FirstUnescaped(b + tail, EQUALS);
      assert FirstUnescaped(tail, EQUALS) >= 1;
      SpaceInside(b, tail, k);
    }
  }

  lemma SpaceInside(b: Text, tail: Text, k: nat)
    requires Sealed(b, SPACE) && tail != [] && tail[0] == SPACE && |b| < k <= |b + tail|
    ensures !Sealed((b + tail)[..k], SPACE)
  {
    var raw := (b + tail)[..k];
    var rest := raw[|b|..];
    assert raw == b + rest && rest[0] == SPACE;
    SealedEnds(b, SPACE, rest);
    if Sealed(raw, SPACE) {
      SealedWhole(raw, SPACE);
    }
  }

  lemma SpacedPair(key: Text, a: Text, b: Text, tail: Text)
    requires Plain(key) && Plain(a) && Plain(b) && Ended(tail) && (a == [] || a[0] != QUOTE)
    ensures ParsePairs(key + ([EQUALS] + (a + ([SPACE] + (b + tail))))) == None
  {
    var rest := [SPACE] + (b + tail);
    PlainWritten(key);
    PlainWritten(a);
    KeyParses(key, a + rest);
    BareParses(a, rest);
    NoKey(b, tail);
    NextPairs(key + ([EQUALS] + (a + rest)), Pair(key, a), b + tail);
  }

  lemma LineStarts(tokens: seq<Text>) returns (rest: Text)
    requires tokens != [] && forall i | 0 <= i < |tokens| :: tokens[i] != []
    ensures Line(tokens) == tokens[0] + rest && Ended(rest)
  {
    if |tokens| == 1 {
      JoinOne(tokens[0], SPACE);
      assert tokens == [tokens[0]];
      rest := [];
    } else {
      JoinCons(tokens, SPACE);
      rest := [SPACE] + Line(tokens[1..]);
    }
  }

  lemma SpacedSplits(key: Text, a: Text, b: Text, tail: Text)
    ensures key + [EQUALS] + (a + [SPACE] + b) + tail == key + ([EQUALS] + (a + ([SPACE] + (b + tail))))
  {
  }

  /** The line of a record whose unquoted time is `a b`. */
  lemma SpacedLine(f: Formatter, a: Text, b: Text, tail: Text)
    requires Plain(f.options.timeKey) && Plain(a) && Plain(b) && f.disableQuoting && Ended(tail)
    ensures ParsePairs(TimeToken(f, a + [SPACE] + b) + tail) == None
  {
    SpacedSplits(f.options.timeKey, a, b, tail);
    SpacedPair(f.options.timeKey, a, b, tail);
  }

  lemma UnreadableRecord(token: Text, rest: Text, end: Text)
    requires Ended(rest) && (end == [] || end == [NEWLINE]) && token != [] && OneLine(token)
    requires forall tail: Text {:trigger token + tail} | Ended(tail) :: ParsePairs(token + tail) == None
    ensures Parse(token + rest + end) == None
  {
    var record := token + rest + end;
    if end == [] && (rest == [] || rest[|rest| - 1] != NEWLINE) {
      assert record == token + rest;
      assert record[|record| - 1] == if rest == [] then token[|token| - 1] else rest[|rest| - 1];
    } else {
      var tail := if end == [] then rest[..|rest| - 1] else rest;
      assert record == token + tail + [NEWLINE];
      assert record[..|record| - 1] == token + tail;
    }
  }

  lemma SpacedRecord(f: Formatter, a: Text, b: Text, rest: Text, end: Text)
    requires Plain(f.options.timeKey) && Plain(a) && Plain(b) && f.disableQuoting
    requires Ended(rest) && (end == [] || end == [NEWLINE])
    ensures Parse(TimeToken(f, a + [SPACE] + b) + rest + end) == None
  {
    var token := TimeToken(f, a + [SPACE] + b);
    forall tail: Text | Ended(tail) ensures ParsePairs(token + tail) == None {
      SpacedLine(f, a, b, tail);
    }
    assert OneLine(token);
    UnreadableRecord(token, rest, end);
  }

  /** Where values are not quoted, a time format with a space in it makes every record
      unreadable, whatever else the record holds. */
  lemma SpacedTimeBreaksRecord(f: Formatter, level: nat, a: Text, b: Text, message: Text, caller: Option<Caller>,
                               fields: seq<Field>)
    requires Plain(f.options.timeKey) && Plain(a) && Plain(b) && f.disableQuoting && !f.options.noTimestamp
    ensures Parse(Record(f, level, a + [SPACE] + b, message, caller, fields)) == None
  {
    var tokens := Tokens(f, level, a + [SPACE] + b, message, caller, fields);
    RecordTells(f, level, a + [SPACE] + b, message, caller, fields);
    TokensWritten(tokens, Meanings(f, level, a + [SPACE] + b, message, caller, fields));
    assert tokens[0] == TimeToken(f, a + [SPACE] + b);
    var rest := LineStarts(tokens);
    SpacedRecord(f, a, b, rest, if f.options.disableNewline then [] else [NEWLINE]);
  }

  /** Between quotation marks it is read as it is. */
  lemma SpacedTimeFits(f: Formatter, a: Text, b: Text)
    requires Plain(a) && Plain(b) && !f.disableQuoting
    ensures FitsValue(f, a + [SPACE] + b) && Meant(a + [SPACE] + b) == a + [SPACE] + b
  {
    var time := a + ([SPACE] + b);
    assert a + [SPACE] + b == time;
    PlainWritten(a);
    PlainWritten(b);
    assert ([SPACE] + b)[1..] == b;
    UnescapeCons([SPACE] + b);
    UnescapeBehind(a, [SPACE] + b, QUOTE);
    SealedAppend(a, [SPACE] + b, QUOTE);
  }
}
