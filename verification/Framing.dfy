/** One record, one line: every formatted record ends in its only newline, so cutting
    the bytes the ring hands to the sink at the newlines gives the records back, and
    parsing the lines gives back what was logged. */
module Framing {
  import opened Bytes
  import opened Wrappers
  import opened Joining
  import opened LineBreaks
  import opened Records
  import AsyncQueue
  import JsonFormatter
  import JsonParser
  import JsonReading
  import LogfmtFormatter
  import LogfmtParser
  import LogfmtText

  // ---- JSON records ---------------------------------------------------------

  lemma {:induction false} JsonFieldsOneLine(o: Options, fields: seq<Field>)
    requires OneLineOptions(o) && OneLineRenderings(fields)
    ensures AllOneLine(JsonFormatter.FieldTokens(o, fields))
    decreases |fields|
  {
    if fields != [] {
      assert OneLineRendering(fields[|fields| - 1]);
      JsonFieldsOneLine(o, fields[..|fields| - 1]);
      JsonReading.FieldOneLine(o, fields[|fields| - 1]);
    }
  }

  lemma JsonHeaderOneLine(o: Options, level: nat, time: Text, message: Text, caller: Option<Caller>)
    requires OneLineOptions(o) && OneLine(time)
    ensures AllOneLine(JsonFormatter.HeaderTokens(o, level, time, message, caller))
  {
    JsonReading.TokenOneLine(o.timeKey, JsonFormatter.Quoted(time));
    LevelOneLine(level);
    JsonReading.TokenOneLine(o.levelKey, JsonFormatter.Quoted(LevelText(level)));
    JsonReading.TextOneLine(message);
    JsonReading.TokenOneLine(o.messageKey, JsonFormatter.RawText(message));
    if caller.Some? {
      JsonReading.CallerOneLine(caller.value);
      JsonReading.TokenOneLine(o.callerKey, JsonFormatter.Braced(JsonFormatter.CallerTokens(caller.value)));
    }
  }

  lemma JsonRecordFramed(o: Options, level: nat, time: Text, message: Text, caller: Option<Caller>, fields: seq<Field>)
    requires OneLineOptions(o) && OneLine(time) && OneLineRenderings(fields) && !o.disableNewline
    ensures Framed(JsonFormatter.Record(o, level, time, message, caller, fields))
  {
    var tokens := JsonFormatter.Tokens(o, level, time, message, caller, fields);
    JsonHeaderOneLine(o, level, time, message, caller);
    JsonFieldsOneLine(o, fields);
    assert forall i | 0 <= i < |tokens| :: OneLine(tokens[i]);
    JoinAvoids(tokens, COMMA, NEWLINE);
    LineFramed(JsonFormatter.Braced(tokens));
  }

  lemma LineFramed(line: Text)
    requires OneLine(line)
    ensures Framed(line + [NEWLINE])
  {
    assert (line + [NEWLINE])[..|line|] == line;
  }

  // ---- logfmt records -------------------------------------------------------

  lemma LogfmtWrapOneLine(f: LogfmtFormatter.Formatter, raw: Text)
    requires OneLine(raw)
    ensures OneLine(LogfmtFormatter.Wrap(f, raw))
  {
  }

  lemma LogfmtTokenOneLine(rawKey: Text, rawValue: Text)
    requires OneLine(rawKey) && OneLine(rawValue)
    ensures OneLine(LogfmtFormatter.Token(rawKey, rawValue))
  {
  }

  lemma LogfmtTextOneLine(f: LogfmtFormatter.Formatter, s: Text, tail: Text)
    requires OneLine(tail)
    ensures OneLine(LogfmtFormatter.Wrap(f, LogfmtText.Escape(s) + tail)) && OneLine(LogfmtText.Escape(s))
  {
    LogfmtText.EscapeHasNoNewline(s);
    LogfmtWrapOneLine(f, LogfmtText.Escape(s) + tail);
  }

  lemma LogfmtPlainTextOneLine(f: LogfmtFormatter.Formatter, s: Text)
    ensures OneLine(LogfmtFormatter.Wrap(f, LogfmtText.Escape(s)))
  {
    LogfmtTextOneLine(f, s, []);
    assert LogfmtText.Escape(s) + [] == LogfmtText.Escape(s);
  }

  lemma LogfmtValueOneLine(f: LogfmtFormatter.Formatter, field: Field)
    requires OneLineOptions(f.options) && OneLineRendering(field)
    ensures OneLine(LogfmtFormatter.RawValue(f, field))
  {
    if field.sensitive {
      LogfmtWrapOneLine(f, f.options.redacted);
    } else {
      match field.value
      case Bool(truth) => assert OneLine(TRUE) && OneLine(FALSE);
      case Int(i) => IntOneLine(i);
      case Uint(n) => DigitsOneLine(Decimal(n));
      case Real(x) => FloatOneLine(x);
      case Str(s) =>
        LogfmtTextOneLine(f, LogfmtFormatter.Cut(f.options, s), LogfmtFormatter.Dots(f.options, s));
      case Error(s) => LogfmtPlainTextOneLine(f, s);
      case Object(shown) => LogfmtPlainTextOneLine(f, shown);
      case Array(shown) => LogfmtPlainTextOneLine(f, shown);
      case Binary(_, shown) => LogfmtPlainTextOneLine(f, shown);
      case _ =>
    }
  }

  lemma {:induction false} LogfmtFieldsOneLine(f: LogfmtFormatter.Formatter, fields: seq<Field>)
    requires OneLineOptions(f.options) && OneLineRenderings(fields)
    ensures AllOneLine(LogfmtFormatter.FieldTokens(f, fields))
    decreases |fields|
  {
    if fields != [] {
      var last := fields[|fields| - 1];
      LogfmtFieldsOneLine(f, fields[..|fields| - 1]);
      LogfmtText.EscapeHasNoNewline(f.options.convert(last.key));
      LogfmtValueOneLine(f, last);
      LogfmtTokenOneLine(LogfmtText.Escape(f.options.convert(last.key)), LogfmtFormatter.RawValue(f, last));
    }
  }

  lemma LogfmtHeaderOneLine(f: LogfmtFormatter.Formatter, level: nat, time: Text, message: Text, caller: Option<Caller>)
    requires OneLineOptions(f.options) && OneLine(time)
    ensures AllOneLine(LogfmtFormatter.HeaderTokens(f, level, time, message, caller))
  {
    LogfmtTokenOneLine(f.options.timeKey, LogfmtFormatter.Wrap(f, time));
    LevelOneLine(level);
    LogfmtTokenOneLine(f.options.levelKey, LogfmtFormatter.Wrap(f, LevelText(level)));
    LogfmtPlainTextOneLine(f, message);
    LogfmtTokenOneLine(f.options.messageKey, LogfmtFormatter.Wrap(f, LogfmtText.Escape(message)));
    if caller.Some? {
      var tail := [COLON] + IntText(caller.value.line);
      IntOneLine(caller.value.line);
      LogfmtTextOneLine(f, caller.value.file, tail);
      LogfmtTokenOneLine(f.options.callerKey, LogfmtFormatter.Wrap(f, LogfmtText.Escape(caller.value.file) + tail));
    }
  }

  lemma LogfmtRecordFramed(f: LogfmtFormatter.Formatter, level: nat, time: Text, message: Text,
                           caller: Option<Caller>, fields: seq<Field>)
    requires OneLineOptions(f.options) && OneLine(time) && OneLineRenderings(fields) && !f.options.disableNewline
    ensures Framed(LogfmtFormatter.Record(f, level, time, message, caller, fields))
  {
    var tokens := LogfmtFormatter.Tokens(f, level, time, message, caller, fields);
    LogfmtHeaderOneLine(f, level, time, message, caller);
    LogfmtFieldsOneLine(f, fields);
    assert forall i | 0 <= i < |tokens| :: OneLine(tokens[i]);
    JoinAvoids(tokens, SPACE, NEWLINE);
    var line := LogfmtFormatter.Line(tokens);
    assert (line + [NEWLINE])[..|line|] == line;
  }

  // ---- through the ring -----------------------------------------------------

  /** Every writer that looks during these events carries a framed record. */
  predicate EventsFramed(events: seq<AsyncQueue.Event>)
  {
    forall e | e in events :: e.Looked? ==> Framed(e.entry)
  }

  /** Every writer of the run does. */
  predicate OpFramed(op: AsyncQueue.Op)
  {
    op.Write? ==> Framed(op.entry) && forall w | w in op.wakes :: EventsFramed(w)
  }

  predicate WritesFramed(ops: seq<AsyncQueue.Op>)
  {
    forall op | op in ops :: OpFramed(op)
  }

  lemma {:induction false} EnteredFramed(q: AsyncQueue.Queue, events: seq<AsyncQueue.Event>)
    requires EventsFramed(events)
    ensures forall i | 0 <= i < |AsyncQueue.Entered(q, events)| :: Framed(AsyncQueue.Entered(q, events)[i])
    decreases |events|
  {
    if events != [] {
      assert events[0] in events;
      EnteredFramed(AsyncQueue.Happening(q, events[0]), events[1..]);
    }
  }

  lemma {:induction false} CourseFramed(o: AsyncQueue.Options, q: AsyncQueue.Queue, entry: Text,
                                        wakes: seq<AsyncQueue.Wake>)
    requires Framed(entry) && forall w | w in wakes :: EventsFramed(w)
    ensures EventsFramed(AsyncQueue.Course(o, q, entry, wakes))
    decreases |wakes|
  {
    if wakes != [] {
      assert EventsFramed(wakes[0]);
      CourseFramed(o, AsyncQueue.Happenings(q, wakes[0]), entry, wakes[1..]);
    }
  }

  lemma OpEnteredFramed(o: AsyncQueue.Options, q: AsyncQueue.Queue, op: AsyncQueue.Op)
    requires OpFramed(op)
    ensures forall i | 0 <= i < |AsyncQueue.Entered(q, AsyncQueue.Events(o, q, op))| ::
              Framed(AsyncQueue.Entered(q, AsyncQueue.Events(o, q, op))[i])
  {
    if op.Write? {
      CourseFramed(o, q, op.entry, op.wakes);
    }
    EnteredFramed(q, AsyncQueue.Events(o, q, op));
  }

  lemma {:induction false} AcceptedAreWritten(o: AsyncQueue.Options, q: AsyncQueue.Queue, ops: seq<AsyncQueue.Op>)
    requires WritesFramed(ops)
    ensures forall i | 0 <= i < |AsyncQueue.Accepted(o, q, ops)| :: Framed(AsyncQueue.Accepted(o, q, ops)[i])
    decreases |ops|
  {
    if ops != [] {
      assert OpFramed(ops[0]);
      OpEnteredFramed(o, q, ops[0]);
      AcceptedAreWritten(o, AsyncQueue.Apply(o, q, ops[0]), ops[1..]);
    }
  }

  lemma {:induction false} SubsequenceFramed(a: seq<Text>, b: seq<Text>)
    requires AsyncQueue.Subsequence(a, b)
    requires forall i | 0 <= i < |b| :: Framed(b[i])
    ensures forall i | 0 <= i < |a| :: Framed(a[i])
    decreases |b|
  {
    if a != [] {
      if AsyncQueue.Subsequence(a, b[1..]) {
        SubsequenceFramed(a, b[1..]);
      } else {
        assert Framed(b[0]);
        SubsequenceFramed(a[1..], b[1..]);
        assert forall i | 0 < i < |a| :: a[i] == a[1..][i - 1];
      }
    }
  }

  /** Whatever the run and however the sink fails between records, the bytes the sink
      took are, line by line, the delivered records: accepted ones, in write order. */
  lemma StreamFraming(o: AsyncQueue.Options, capacity: nat, ops: seq<AsyncQueue.Op>)
    requires WritesFramed(ops)
    ensures var q := AsyncQueue.Run(o, AsyncQueue.Empty(capacity), ops);
            && Lines(Concat(AsyncQueue.Delivered(q))) == AsyncQueue.Delivered(q)
            && AsyncQueue.Subsequence(AsyncQueue.Delivered(q), AsyncQueue.Accepted(o, AsyncQueue.Empty(capacity), ops))
  {
    var q0 := AsyncQueue.Empty(capacity);
    var q := AsyncQueue.Run(o, q0, ops);
    AsyncQueue.Conservation(o, capacity, ops);
    AcceptedAreWritten(o, q0, ops);
    SubsequenceFramed(AsyncQueue.Delivered(q), AsyncQueue.Accepted(o, q0, ops));
    FramedRecordsAreLines(AsyncQueue.Delivered(q));
  }

  lemma DrainedDelivery(o: AsyncQueue.Options, capacity: nat, ops: seq<AsyncQueue.Op>)
    requires forall op | op in ops :: AsyncQueue.SinkOk(op)
    ensures var q0 := AsyncQueue.Empty(capacity); var q := AsyncQueue.Run(o, q0, ops);
            q.pending == [] ==> AsyncQueue.Delivered(q) == AsyncQueue.Accepted(o, q0, ops)
  {
    var q0 := AsyncQueue.Empty(capacity);
    var q := AsyncQueue.Run(o, q0, ops);
    AsyncQueue.RunIsFifo(o, q0, ops);
    assert AsyncQueue.Stream(q0) == [];
    assert q.pending == [] ==> AsyncQueue.Stream(q) == AsyncQueue.Delivered(q);
  }

  /** With a sink that never fails and an empty ring at the end, the lines of the
      stream are exactly the accepted records. */
  lemma DrainedStreamIsAccepted(o: AsyncQueue.Options, capacity: nat, ops: seq<AsyncQueue.Op>)
    requires WritesFramed(ops) && forall op | op in ops :: AsyncQueue.SinkOk(op)
    ensures var q0 := AsyncQueue.Empty(capacity); var q := AsyncQueue.Run(o, q0, ops);
            q.pending == [] ==> Lines(Concat(AsyncQueue.Delivered(q))) == AsyncQueue.Accepted(o, q0, ops)
  {
    StreamFraming(o, capacity, ops);
    DrainedDelivery(o, capacity, ops);
  }

  // ---- reading a log back ---------------------------------------------------

  /** What an entry holds when it is formatted. */
  datatype Logged = Logged(level: nat, time: Text, message: Text, caller: Option<Caller>, fields: seq<Field>)

  /** Behind a line's end the stream goes on; the line may have ended earlier. */
  lemma FirstOfLines(line: Text, rest: Text)
    ensures Lines(line + [NEWLINE] + rest) != [] && Lines(line + [NEWLINE] + rest)[0] == Start(line) + [NEWLINE]
    ensures OneLine(line) ==> Lines(line + [NEWLINE] + rest) == [line + [NEWLINE]] + Lines(rest)
  {
    var stream := line + [NEWLINE] + rest;
    var k := |Start(line)|;
    StartIsLine(line);
    assert stream == Start(line) + stream[k..] && stream[k] == NEWLINE;
    NewlineBehind(Start(line), stream[k..]);
    assert stream[..k + 1] == Start(line) + [NEWLINE];
    if OneLine(line) {
      StartOfLine(line);
      assert stream[k + 1..] == rest;
    }
  }

  function JsonRecord(o: Options, e: Logged): Text
  {
    JsonFormatter.Record(o, e.level, e.time, e.message, e.caller, e.fields)
  }

  function JsonRecords(o: Options, log: seq<Logged>): seq<Text>
  {
    if log == [] then [] else [JsonRecord(o, log[0])] + JsonRecords(o, log[1..])
  }

  function ParseJson(lines: seq<Text>): seq<Option<seq<JsonParser.Member>>>
  {
    if lines == [] then [] else [JsonParser.Parse(lines[0])] + ParseJson(lines[1..])
  }

  function JsonMeanings(o: Options, e: Logged): seq<JsonParser.Meaning>
  {
    JsonParser.Meanings(o, e.level, e.time, e.message, e.caller, e.fields)
  }

  /** What a reader should make of each entry. */
  function JsonExpected(o: Options, log: seq<Logged>): seq<Option<seq<JsonParser.Member>>>
  {
    if log == [] then [] else [Some(JsonParser.Members(JsonMeanings(o, log[0])))] + JsonExpected(o, log[1..])
  }

  predicate JsonClean(o: Options, log: seq<Logged>)
  {
    log == [] || (JsonParser.AllClean(JsonMeanings(o, log[0])) && JsonClean(o, log[1..]))
  }

  lemma JsonFirstRead(o: Options, e: Logged, rest: Text)
    requires !o.disableNewline
    ensures var lines, ms := Lines(JsonRecord(o, e) + rest), JsonMeanings(o, e);
            && lines != []
            && (JsonParser.Parse(lines[0]) == Some(JsonParser.Members(ms)) <==> JsonParser.AllClean(ms))
            && (JsonParser.AllClean(ms) ==> lines == [JsonRecord(o, e)] + Lines(rest))
  {
    var tokens, ms := JsonFormatter.Tokens(o, e.level, e.time, e.message, e.caller, e.fields), JsonMeanings(o, e);
    JsonReading.RecordTells(o, e.level, e.time, e.message, e.caller, e.fields);
    JsonReading.LineAnswers(tokens, ms, false, [NEWLINE]);
    FirstOfLines(JsonFormatter.Braced(tokens), rest);
    if JsonParser.AllClean(ms) {
      JsonReading.CleanLine(tokens, ms);
    }
  }

  lemma ParseJsonCons(line: Text, more: seq<Text>)
    ensures ParseJson([line] + more) == [JsonParser.Parse(line)] + ParseJson(more)
  {
    assert ([line] + more)[1..] == more;
  }

  lemma JsonEntryReads(o: Options, e: Logged, rest: Text)
    requires !o.disableNewline
    ensures var parsed, ms := ParseJson(Lines(JsonRecord(o, e) + rest)), JsonMeanings(o, e);
            && parsed != [] && (parsed[0] == Some(JsonParser.Members(ms)) <==> JsonParser.AllClean(ms))
            && (JsonParser.AllClean(ms) ==> parsed == [parsed[0]] + ParseJson(Lines(rest)))
  {
    JsonFirstRead(o, e, rest);
    ParseJsonCons(JsonRecord(o, e), Lines(rest));
  }

  /** A log reads back if its first entry does and the rest does. */
  lemma HeadAndRest<T>(parsed: seq<T>, more: seq<T>, want: T, rest: seq<T>, good: bool, restGood: bool)
    requires parsed != [] && (parsed[0] == want <==> good)
    requires (good ==> parsed == [parsed[0]] + more) && (more == rest <==> restGood)
    ensures parsed == [want] + rest <==> good && restGood
  {
    assert ([want] + rest)[0] == want;
    assert ([want] + more)[1..] == more && ([want] + rest)[1..] == rest;
  }

  lemma JsonLogStep(o: Options, e: Logged, rest: Text, expected: seq<Option<seq<JsonParser.Member>>>, clean: bool)
    requires !o.disableNewline && (ParseJson(Lines(rest)) == expected <==> clean)
    ensures var ms := JsonMeanings(o, e);
            ParseJson(Lines(JsonRecord(o, e) + rest)) == [Some(JsonParser.Members(ms))] + expected
            <==> JsonParser.AllClean(ms) && clean
  {
    JsonEntryReads(o, e, rest);
    HeadAndRest(ParseJson(Lines(JsonRecord(o, e) + rest)), ParseJson(Lines(rest)),
                Some(JsonParser.Members(JsonMeanings(o, e))), expected,
                JsonParser.AllClean(JsonMeanings(o, e)), clean);
  }

  /** A JSON log file, cut at its newlines and parsed line by line, gives the members of
      every entry, in order, if and only if all of them are clean. */
  lemma {:induction false} JsonLogReadsBack(o: Options, log: seq<Logged>)
    requires !o.disableNewline
    ensures ParseJson(Lines(Concat(JsonRecords(o, log)))) == JsonExpected(o, log) <==> JsonClean(o, log)
  {
    if log != [] {
      JsonLogReadsBack(o, log[1..]);
      JsonLogStep(o, log[0], Concat(JsonRecords(o, log[1..])), JsonExpected(o, log[1..]), JsonClean(o, log[1..]));
    }
  }

  /** Written as they are, its time and its rendered values keep to their places. */
  predicate JsonEntry(o: Options, e: Logged)
  {
    && OneLine(e.time) && JsonParser.Closed(e.time) && OneLineRenderings(e.fields)
    && forall i | 0 <= i < |e.fields| :: JsonParser.ClosedField(o, e.fields[i])
  }

  predicate JsonOptions(o: Options)
  {
    OneLineOptions(o) && JsonParser.ClosedOptions(o) && !o.disableNewline
  }

  function JsonOutcome(o: Options, log: seq<Logged>): seq<Option<seq<JsonParser.Member>>>
  {
    if log == [] then []
    else
      var ms := JsonMeanings(o, log[0]);
      [if JsonParser.AllClean(ms) then Some(JsonParser.Members(ms)) else None] + JsonOutcome(o, log[1..])
  }

  /** Where what is written as it is keeps to its place, an entry that is not clean costs
      its own line only: exactly those lines are refused. */
  lemma {:induction false} ClosedJsonLogReadsBack(o: Options, log: seq<Logged>)
    requires JsonOptions(o) && forall i | 0 <= i < |log| :: JsonEntry(o, log[i])
    ensures ParseJson(Lines(Concat(JsonRecords(o, log)))) == JsonOutcome(o, log)
  {
    if log != [] {
      var e := log[0];
      ClosedJsonLogReadsBack(o, log[1..]);
      JsonRecordFramed(o, e.level, e.time, e.message, e.caller, e.fields);
      FirstLine(JsonRecord(o, e), Concat(JsonRecords(o, log[1..])));
      JsonParser.RoundTrip(o, e.level, e.time, e.message, e.caller, e.fields);
    }
  }

  // ---- the same for logfmt ----------------------------------------------------

  /** The fields of each entry are in the order Format leaves them in. */
  function LogfmtRecord(f: LogfmtFormatter.Formatter, e: Logged): Text
  {
    LogfmtFormatter.Record(f, e.level, e.time, e.message, e.caller, e.fields)
  }

  function LogfmtRecords(f: LogfmtFormatter.Formatter, log: seq<Logged>): seq<Text>
  {
    if log == [] then [] else [LogfmtRecord(f, log[0])] + LogfmtRecords(f, log[1..])
  }

  function ParseLogfmt(lines: seq<Text>): seq<Option<seq<LogfmtParser.Pair>>>
  {
    if lines == [] then [] else [LogfmtParser.Parse(lines[0])] + ParseLogfmt(lines[1..])
  }

  function LogfmtMeanings(f: LogfmtFormatter.Formatter, e: Logged): seq<LogfmtParser.Meaning>
  {
    LogfmtParser.Meanings(f, e.level, e.time, e.message, e.caller, e.fields)
  }

  function LogfmtExpected(f: LogfmtFormatter.Formatter, log: seq<Logged>): seq<Option<seq<LogfmtParser.Pair>>>
  {
    if log == [] then [] else [Some(LogfmtParser.Pairs(LogfmtMeanings(f, log[0])))] + LogfmtExpected(f, log[1..])
  }

  predicate LogfmtFits(f: LogfmtFormatter.Formatter, log: seq<Logged>)
  {
    log == [] || (LogfmtParser.AllFit(LogfmtMeanings(f, log[0])) && LogfmtFits(f, log[1..]))
  }

  lemma LogfmtFirstRead(f: LogfmtFormatter.Formatter, e: Logged, rest: Text)
    requires !f.options.disableNewline
    ensures var lines, ms := Lines(LogfmtRecord(f, e) + rest), LogfmtMeanings(f, e);
            && lines != []
            && (LogfmtParser.Parse(lines[0]) == Some(LogfmtParser.Pairs(ms)) <==> LogfmtParser.AllFit(ms))
            && (LogfmtParser.AllFit(ms) ==> lines == [LogfmtRecord(f, e)] + Lines(rest))
  {
    var tokens, ms := LogfmtFormatter.Tokens(f, e.level, e.time, e.message, e.caller, e.fields), LogfmtMeanings(f, e);
    LogfmtParser.RecordTells(f, e.level, e.time, e.message, e.caller, e.fields);
    LogfmtParser.StartAnswers(tokens, ms, [NEWLINE]);
    FirstOfLines(LogfmtFormatter.Line(tokens), rest);
    if LogfmtParser.AllFit(ms) {
      LogfmtParser.FittingLine(tokens, ms);
    }
  }

  lemma ParseLogfmtCons(line: Text, more: seq<Text>)
    ensures ParseLogfmt([line] + more) == [LogfmtParser.Parse(line)] + ParseLogfmt(more)
  {
    assert ([line] + more)[1..] == more;
  }

  lemma LogfmtEntryReads(f: LogfmtFormatter.Formatter, e: Logged, rest: Text)
    requires !f.options.disableNewline
    ensures var parsed, ms := ParseLogfmt(Lines(LogfmtRecord(f, e) + rest)), LogfmtMeanings(f, e);
            && parsed != [] && (parsed[0] == Some(LogfmtParser.Pairs(ms)) <==> LogfmtParser.AllFit(ms))
            && (LogfmtParser.AllFit(ms) ==> parsed == [parsed[0]] + ParseLogfmt(Lines(rest)))
  {
    LogfmtFirstRead(f, e, rest);
    ParseLogfmtCons(LogfmtRecord(f, e), Lines(rest));
  }

  lemma LogfmtLogStep(f: LogfmtFormatter.Formatter, e: Logged, rest: Text,
                      expected: seq<Option<seq<LogfmtParser.Pair>>>, fits: bool)
    requires !f.options.disableNewline && (ParseLogfmt(Lines(rest)) == expected <==> fits)
    ensures var ms := LogfmtMeanings(f, e);
            ParseLogfmt(Lines(LogfmtRecord(f, e) + rest)) == [Some(LogfmtParser.Pairs(ms))] + expected
            <==> LogfmtParser.AllFit(ms) && fits
  {
    LogfmtEntryReads(f, e, rest);
    HeadAndRest(ParseLogfmt(Lines(LogfmtRecord(f, e) + rest)), ParseLogfmt(Lines(rest)),
                Some(LogfmtParser.Pairs(LogfmtMeanings(f, e))), expected,
                LogfmtParser.AllFit(LogfmtMeanings(f, e)), fits);
  }

  /** A logfmt log file gives the pairs of every entry, in order, if and only if all that
      is written without escaping fits. */
  lemma {:induction false} LogfmtLogReadsBack(f: LogfmtFormatter.Formatter, log: seq<Logged>)
    requires !f.options.disableNewline
    ensures ParseLogfmt(Lines(Concat(LogfmtRecords(f, log)))) == LogfmtExpected(f, log) <==> LogfmtFits(f, log)
  {
    if log != [] {
      LogfmtLogReadsBack(f, log[1..]);
      LogfmtLogStep(f, log[0], Concat(LogfmtRecords(f, log[1..])), LogfmtExpected(f, log[1..]),
                    LogfmtFits(f, log[1..]));
    }
  }

  // ---- from the writers to the reader ----------------------------------------

  /** If the accepted entries of a run are the JSON records of a log, the sink does not
      fail and the ring is drained, then what the sink got, cut at the newlines and
      parsed, is the log, entry by entry in order, if and only if every entry is clean. */
  lemma JsonRingReadsBack(o: AsyncQueue.Options, capacity: nat, ops: seq<AsyncQueue.Op>, f: Options, log: seq<Logged>)
    requires forall op | op in ops :: AsyncQueue.SinkOk(op)
    requires AsyncQueue.Accepted(o, AsyncQueue.Empty(capacity), ops) == JsonRecords(f, log) && !f.disableNewline
    ensures var q := AsyncQueue.Run(o, AsyncQueue.Empty(capacity), ops);
            q.pending == [] ==>
              (ParseJson(Lines(Concat(AsyncQueue.Delivered(q)))) == JsonExpected(f, log) <==> JsonClean(f, log))
  {
    DrainedDelivery(o, capacity, ops);
    JsonLogReadsBack(f, log);
  }

  lemma LogfmtRingReadsBack(o: AsyncQueue.Options, capacity: nat, ops: seq<AsyncQueue.Op>,
                            f: LogfmtFormatter.Formatter, log: seq<Logged>)
    requires forall op | op in ops :: AsyncQueue.SinkOk(op)
    requires AsyncQueue.Accepted(o, AsyncQueue.Empty(capacity), ops) == LogfmtRecords(f, log)
    requires !f.options.disableNewline
    ensures var q := AsyncQueue.Run(o, AsyncQueue.Empty(capacity), ops);
            q.pending == [] ==>
              (ParseLogfmt(Lines(Concat(AsyncQueue.Delivered(q)))) == LogfmtExpected(f, log) <==> LogfmtFits(f, log))
  {
    DrainedDelivery(o, capacity, ops);
    LogfmtLogReadsBack(f, log);
  }
}
