/** Log entries and what the formatters are told about them. Texts that the standard
    library renders (times, durations, `%v`) are part of the value. */
module Records {
  import opened Bytes
  import opened Wrappers

  // ---- literal texts --------------------------------------------------------

  const TRUE: Text := [116, 114, 117, 101]  // true
  const FALSE: Text := [102, 97, 108, 115, 101]  // false
  const NULL: Text := [110, 117, 108, 108]  // null
  const DOTS: Text := [46, 46, 46]  // ...
  const TIME_KEY: Text := [116, 105, 109, 101]  // time
  const LEVEL_KEY: Text := [108, 101, 118, 101, 108]  // level
  const MESSAGE_KEY: Text := [109, 101, 115, 115, 97, 103, 101]  // message
  const CALLER_KEY: Text := [99, 97, 108, 108, 101, 114]  // caller
  const REDACTED: Text := [91, 82, 69, 68, 65, 67, 84, 69, 68, 93]  // [REDACTED]
  const TRACE: Text := [84, 82, 65, 67, 69]  // TRACE
  const DEBUG: Text := [68, 69, 66, 85, 71]  // DEBUG
  const INFO: Text := [73, 78, 70, 79]  // INFO
  const WARN: Text := [87, 65, 82, 78]  // WARN
  const ERROR: Text := [69, 82, 82, 79, 82]  // ERROR
  const FATAL: Text := [70, 65, 84, 65, 76]  // FATAL
  const DISABLED_NAME: Text := [68, 73, 83, 65, 66, 76, 69, 68]  // DISABLED
  const LEVEL_OPEN: Text := [76, 101, 118, 101, 108, 40]  // Level(
  const CLOSE: Text := [41]  // )
  const NAN: Text := [78, 97, 78]  // NaN
  const MINUS_INF: Text := [45, 73, 110, 102]  // -Inf
  const PLUS_INF: Text := [43, 73, 110, 102]  // +Inf

  type Digit = d: int | 0 <= d < 10

  /** A float, by the shape strconv gives it in format 'f' with the shortest precision. */
  datatype Float = Finite(negative: bool, whole: nat, fraction: seq<Digit>) | NaN | Infinite(negative: bool)

  datatype Value =
    | Bool(truth: bool)
    | Int(i: int)
    | Uint(n: nat)
    | Real(f: Float)
    | Str(s: Text)
    | Time(rendered: Option<Text>)
    | Duration(rendered: Option<Text>)
    | Error(s: Text)
    | Object(shown: Text)
    | Array(shown: Text)
    | Binary(data: Option<Text>, shown: Text)
    | Unknown

  datatype Field = Field(key: Text, value: Value, sensitive: bool)

  datatype Caller = Caller(file: Text, line: int, name: Text)

  class Entry {
    var level: nat
    var time: Text
    var message: Text
    var callerInfo: Option<Caller>
    var fields: seq<Field>

    constructor (level: nat, time: Text, message: Text, callerInfo: Option<Caller>, fields: seq<Field>)
      ensures this.level == level && this.time == time && this.message == message
      ensures this.callerInfo == callerInfo && this.fields == fields
    {
      this.level, this.time, this.message := level, time, message;
      this.callerInfo, this.fields := callerInfo, fields;
    }
  }

  datatype Options = Options(
    noTimestamp: bool, noLevel: bool, disableNewline: bool,
    timeKey: Text, levelKey: Text, messageKey: Text, callerKey: Text,
    redacted: Text, truncate: int, convert: Text -> Text)

  /** DefaultFormatterOptions */
  function DefaultOptions(): Options
  {
    Options(false, false, false, TIME_KEY, LEVEL_KEY, MESSAGE_KEY, CALLER_KEY,
            REDACTED, 0, s => s)
  }

  /** The bytes of a text in ASCII. */
  function Ascii(s: string): Text
    requires forall i | 0 <= i < |s| :: s[i] < 256 as char
  {
    seq(|s|, i requires 0 <= i < |s| => s[i] as int)
  }

  const DISABLED: nat := 6

  function LevelText(level: nat): Text
  {
    if level == 0 then TRACE
    else if level == 1 then DEBUG
    else if level == 2 then INFO
    else if level == 3 then WARN
    else if level == 4 then ERROR
    else if level == 5 then FATAL
    else if level == 6 then DISABLED_NAME
    else LEVEL_OPEN + Decimal(level) + CLOSE
  }

  /** The names of the levels. */
  lemma LevelNames(n: nat)
    ensures LevelText(0) == Ascii("TRACE") && LevelText(1) == Ascii("DEBUG") && LevelText(2) == Ascii("INFO")
    ensures LevelText(3) == Ascii("WARN") && LevelText(4) == Ascii("ERROR") && LevelText(5) == Ascii("FATAL")
    ensures LevelText(6) == Ascii("DISABLED")
    ensures n > 6 ==> LevelText(n) == Ascii("Level(") + Decimal(n) + Ascii(")")
  {
  }

  /** The texts DefaultFormatterOptions sets, and the words for values without digits. */
  lemma DefaultTexts()
    ensures var o := DefaultOptions();
            && o.timeKey == Ascii("time") && o.levelKey == Ascii("level") && o.messageKey == Ascii("message")
            && o.callerKey == Ascii("caller") && o.redacted == Ascii("[REDACTED]") && o.truncate == 0
            && !o.noTimestamp && !o.noLevel && !o.disableNewline && forall t :: o.convert(t) == t
    ensures TRUE == Ascii("true") && FALSE == Ascii("false") && NULL == Ascii("null") && DOTS == Ascii("...")
    ensures FloatText(NaN) == Ascii("NaN") && FloatText(Infinite(true)) == Ascii("-Inf")
    ensures FloatText(Infinite(false)) == Ascii("+Inf")
  {
  }

  function Truncated(o: Options, s: Text): Text
  {
    if o.truncate > 0 && |s| > o.truncate then s[..o.truncate] + DOTS else s
  }

  /** A string of at most Truncate bytes, or with no limit, is left; of a longer one that
      many bytes are, and three dots behind them. */
  lemma TruncatedExactly(o: Options, s: Text)
    ensures Truncated(o, s) == s || (0 < o.truncate < |s| && Truncated(o, s) == s[..o.truncate] + Ascii("..."))
    ensures 0 < o.truncate < |s| ==> |Truncated(o, s)| == o.truncate + 3 && Truncated(o, s)[..o.truncate] <= s
  {
    DefaultTexts();
  }

  // ---- numbers --------------------------------------------------------------

  predicate IsDigit(c: Byte)
  {
    48 <= c < 58
  }

  function Decimal(n: nat): (t: Text)
    ensures t != [] && forall i | 0 <= i < |t| :: IsDigit(t[i])
    ensures t[0] == 48 ==> n == 0 && |t| == 1
  {
    if n < 10 then [48 + n] else Decimal(n / 10) + [48 + n % 10]
  }

  function IntText(i: int): Text
  {
    if i < 0 then [MINUS] + Decimal(-i) else Decimal(i)
  }

  function Digits(ds: seq<Digit>): (t: Text)
    ensures |t| == |ds| && forall i | 0 <= i < |t| :: IsDigit(t[i])
  {
    if ds == [] then [] else var d: int := ds[0]; [48 + d] + Digits(ds[1..])
  }

  function FloatText(f: Float): Text
  {
    match f
    case Finite(negative, whole, fraction) =>
      (if negative then [MINUS] else []) + Decimal(whole) + (if fraction == [] then [] else [DOT] + Digits(fraction))
    case NaN => NAN
    case Infinite(negative) => if negative then MINUS_INF else PLUS_INF
  }

  /** The number a decimal text stands for. */
  function DecimalValue(t: Text): nat
    requires forall i | 0 <= i < |t| :: IsDigit(t[i])
    decreases |t|
  {
    if t == [] then 0
    else
      assert IsDigit(t[|t| - 1]);
      var c: int := t[|t| - 1];
      DecimalValue(t[..|t| - 1]) * 10 + (c - 48)
  }

  lemma {:induction false} DecimalRoundTrip(n: nat)
    ensures DecimalValue(Decimal(n)) == n
  {
    if n >= 10 {
      DecimalRoundTrip(n / 10);
      assert Decimal(n)[..|Decimal(n)| - 1] == Decimal(n / 10);
    } else {
      assert DecimalValue([]) == 0;
      assert [48 + n][..0] == [];
    }
  }

  // ---- sorting --------------------------------------------------------------

  /** Go's string order: bytewise lexicographic. */
  predicate Less(a: Text, b: Text)
  {
    b != [] && (a == [] || a[0] < b[0] || (a[0] == b[0] && Less(a[1..], b[1..])))
  }

  /** a is a proper prefix of b, or smaller where they first differ, at position k. */
  predicate FirstLess(a: Text, b: Text, k: nat)
  {
    k <= |a| && k < |b| && a[..k] == b[..k] && (k < |a| ==> a[k] < b[k])
  }

  lemma {:induction false} LessIsLexicographic(a: Text, b: Text)
    ensures Less(a, b) <==> exists k: nat :: FirstLess(a, b, k)
    decreases |a|, 1
  {
    if b == [] {
    } else if a == [] || a[0] < b[0] {
      assert FirstLess(a, b, 0);
    } else {
      if k: nat :| FirstLess(a, b, k) {
        FirstLessHeads(a, b, k);
      }
      if a[0] == b[0] {
        LessOfTails(a, b);
      }
    }
  }

  lemma FirstLessHeads(a: Text, b: Text, k: nat)
    requires FirstLess(a, b, k) && a != []
    ensures if k == 0 then a[0] < b[0] else a[0] == b[0]
  {
    assert k > 0 ==> a[..k][0] == b[..k][0];
  }

  lemma LessOfTails(a: Text, b: Text)
    requires a != [] && b != [] && a[0] == b[0]
    ensures Less(a, b) <==> exists k: nat :: FirstLess(a, b, k)
    decreases |a|, 0
  {
    LessIsLexicographic(a[1..], b[1..]);
    if k: nat :| FirstLess(a[1..], b[1..], k) {
      LessBehind(a, b, k);
    }
    if k: nat :| FirstLess(a, b, k) {
      FirstLessHeads(a, b, k);
      LessBehind(a, b, k - 1);
    }
  }

  lemma LessBehind(a: Text, b: Text, k: nat)
    requires a != [] && b != [] && a[0] == b[0]
    ensures FirstLess(a[1..], b[1..], k) <==> FirstLess(a, b, k + 1)
  {
    if k < |a| && k < |b| {
      assert a[..k + 1] == [a[0]] + a[1..][..k] && b[..k + 1] == [b[0]] + b[1..][..k];
      assert a[..k + 1][1..] == a[1..][..k] && b[..k + 1][1..] == b[1..][..k];
    }
  }

  /** Of two different keys exactly one comes first. */
  lemma {:induction false} LessIsTotal(a: Text, b: Text)
    ensures (Less(a, b) || Less(b, a)) <==> a != b
    ensures !(Less(a, b) && Less(b, a))
  {
    if a != [] && b != [] {
      LessIsTotal(a[1..], b[1..]);
      assert a == [a[0]] + a[1..] && b == [b[0]] + b[1..];
    }
  }

  predicate SortedByKey(fields: seq<Field>)
  {
    forall i, j | 0 <= i < j < |fields| :: !Less(fields[j].key, fields[i].key)
  }

  /** What sort.Slice may leave in place of `fields`; it need not be stable. */
  predicate IsSortOf(sorted: seq<Field>, fields: seq<Field>)
  {
    SortedByKey(sorted) && multiset(sorted) == multiset(fields)
  }
}
