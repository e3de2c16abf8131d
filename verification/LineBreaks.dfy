/** Lines of a stream, and texts that keep to one line. */
module LineBreaks {
  import opened Bytes
  import opened Records

  // ---- lines ----------------------------------------------------------------

  function FirstNewline(t: Text): (k: nat)
    ensures k <= |t|
  {
    if t == [] || t[0] == NEWLINE then 0 else 1 + FirstNewline(t[1..])
  }

  /** The lines of a stream, each with its newline; an unfinished last one is kept. */
  function Lines(stream: Text): seq<Text>
    decreases |stream|
  {
    var k := FirstNewline(stream);
    if stream == [] then []
    else if k == |stream| then [stream]
    else [stream[..k + 1]] + Lines(stream[k + 1..])
  }

  /** A record with one newline, at its end. */
  predicate Framed(record: Text)
  {
    record != [] && record[|record| - 1] == NEWLINE && NEWLINE !in record[..|record| - 1]
  }

  lemma {:induction false} NewlineBehind(body: Text, rest: Text)
    requires NEWLINE !in body
    ensures FirstNewline(body + rest) == |body| + FirstNewline(rest)
  {
    if body == [] {
      assert body + rest == rest;
    } else {
      assert (body + rest)[1..] == body[1..] + rest;
      NewlineBehind(body[1..], rest);
    }
  }

  lemma FirstLine(record: Text, rest: Text)
    requires Framed(record)
    ensures Lines(record + rest) == [record] + Lines(rest)
  {
    var body := record[..|record| - 1];
    assert record + rest == body + ([NEWLINE] + rest);
    NewlineBehind(body, [NEWLINE] + rest);
    assert (record + rest)[..|record|] == record && (record + rest)[|record|..] == rest;
  }

  lemma {:induction false} FramedRecordsAreLines(records: seq<Text>)
    requires forall i | 0 <= i < |records| :: Framed(records[i])
    ensures Lines(Concat(records)) == records
  {
    if records != [] {
      FramedRecordsAreLines(records[1..]);
      FirstLine(records[0], Concat(records[1..]));
    }
  }

  // ---- the line a text starts with ------------------------------------------

  /** The text up to its first newline. */
  function Start(t: Text): (line: Text)
    ensures line <= t
  {
    t[..FirstNewline(t)]
  }

  lemma {:induction false} StartIsLine(t: Text)
    ensures NEWLINE !in Start(t)
    ensures |Start(t)| == |t| || t[|Start(t)|] == NEWLINE
  {
    if t != [] && t[0] != NEWLINE {
      StartIsLine(t[1..]);
      assert Start(t) == [t[0]] + Start(t[1..]);
    }
  }

  lemma StartBehind(body: Text, rest: Text)
    requires NEWLINE !in body
    ensures Start(body + rest) == body + Start(rest)
  {
    NewlineBehind(body, rest);
  }

  lemma StartOfLine(line: Text)
    requires NEWLINE !in line
    ensures Start(line) == line && Start(line + [NEWLINE]) == line
  {
    StartBehind(line, []);
    assert line + [] == line;
    StartBehind(line, [NEWLINE]);
  }

  // ---- newline-free texts ---------------------------------------------------

  predicate OneLine(t: Text)
  {
    NEWLINE !in t
  }

  predicate AllOneLine(tokens: seq<Text>)
  {
    forall i | 0 <= i < |tokens| :: OneLine(tokens[i])
  }

  predicate OneLineOptions(o: Options)
  {
    OneLine(o.timeKey) && OneLine(o.levelKey) && OneLine(o.messageKey) && OneLine(o.callerKey) && OneLine(o.redacted)
  }

  predicate OneLineRendering(field: Field)
  {
    match field.value
    case Time(t) => t.Some? ==> OneLine(t.value)
    case Duration(t) => t.Some? ==> OneLine(t.value)
    case _ => true
  }

  predicate OneLineRenderings(fields: seq<Field>)
  {
    forall i | 0 <= i < |fields| :: OneLineRendering(fields[i])
  }

  lemma DigitsOneLine(t: Text)
    requires forall i | 0 <= i < |t| :: IsDigit(t[i])
    ensures OneLine(t)
  {
  }

  lemma IntOneLine(i: int)
    ensures OneLine(IntText(i))
  {
    DigitsOneLine(Decimal(if i < 0 then -i else i));
  }

  lemma FloatOneLine(x: Float)
    ensures OneLine(FloatText(x))
  {
    if x.Finite? {
      DigitsOneLine(Decimal(x.whole));
      DigitsOneLine(Digits(x.fraction));
    }
  }

  lemma LevelOneLine(level: nat)
    ensures OneLine(LevelText(level))
  {
    if level >= 7 {
      DigitsOneLine(Decimal(level));
    }
  }
}
