/** The two JSON escapers, the cache one of them keeps, and the reader that section 7
    of RFC 8259 prescribes for what they write. */
module JsonText {
  import opened Bits
  import opened Bytes
  import opened Escaping
  import opened Wrappers

  const ZERO: Byte := 48
  const LOWER_B: Byte := 98
  const LOWER_F: Byte := 102
  const LOWER_N: Byte := 110
  const LOWER_R: Byte := 114
  const LOWER_T: Byte := 116
  const LOWER_U: Byte := 117
  const SLASH: Byte := 47

  // ---- the escapes ----------------------------------------------------------

  /** The byte that stands for c after a backslash, for the bytes in the escape table. */
  function Letter(c: Byte): Option<Byte>
  {
    if c == QUOTE || c == BACKSLASH then Some(c)
    else if c == NEWLINE then Some(LOWER_N)
    else if c == RETURN then Some(LOWER_R)
    else if c == TAB then Some(LOWER_T)
    else if c == BACKSPACE then Some(LOWER_B)
    else if c == FORMFEED then Some(LOWER_F)
    else None
  }

  /** What writeEscapedStringOptimized writes for a byte. */
  function Esc(c: Byte): Text
  {
    if Letter(c).Some? then [BACKSLASH, Letter(c).value] else [c]
  }

  function Hex(n: int): Byte
    requires 0 <= n < 16
  {
    if n < 10 then ZERO + n else 87 + n
  }

  /** What appendEscapedString writes for a byte. */
  function FullEsc(c: Byte): Text
  {
    if Letter(c).Some? then [BACKSLASH, Letter(c).value]
    else if c < SPACE then [BACKSLASH, LOWER_U, ZERO, ZERO, Hex(c / 16), Hex(c % 16)]
    else [c]
  }

  function Escape(s: Text): Text
  {
    Escaped(Esc, s)
  }

  function FullEscape(s: Text): Text
  {
    Escaped(FullEsc, s)
  }

  predicate NeedsEscaping(c: Byte)
  {
    c < SPACE || c == BACKSLASH || c == QUOTE
  }

  // ---- reading escaped text -------------------------------------------------

  /** The first character of an escaped text: how many bytes it takes and what they
      stand for. */
  datatype Unit = Unit(length: nat, meaning: Text)

  function HexValue(c: Byte): (r: Option<nat>)
    ensures r.Some? ==> r.value < 16
  {
    if 48 <= c < 58 then Some(c - 48)
    else if 97 <= c < 103 then Some(c - 87)
    else if 65 <= c < 71 then Some(c - 55)
    else None
  }

  function Utf8(p: nat): Text
    requires p < 0x1_0000
  {
    if p < 0x80 then [p]
    else if p < 0x800 then [0xC0 + p / 64, 0x80 + p % 64]
    else [0xE0 + p / 4096, 0x80 + p / 64 % 64, 0x80 + p % 64]
  }

  /** The bytes of UTF-8 as section 3 of RFC 3629 lays the bits of a number out in them. */
  lemma Utf8Bits(p: nat)
    requires p < 0x1_0000
    ensures p < 128 ==> Utf8(p) == [p]
    ensures 128 <= p < 2048 ==>
              && |Utf8(p)| == 2
              && BitsOf(Utf8(p)[0], 192, 32) * 64 + BitsOf(Utf8(p)[1], 128, 64) == p
    ensures 2048 <= p ==>
              && |Utf8(p)| == 3
              && BitsOf(Utf8(p)[0], 224, 16) * 4096 + BitsOf(Utf8(p)[1], 128, 64) * 64
                 + BitsOf(Utf8(p)[2], 128, 64) == p
  {
  }

  /** The payload of a byte that starts with the given mark, or a number out of range. */
  function BitsOf(c: Byte, mark: int, room: nat): int
  {
    var n: int := c;
    if mark <= n < mark + room then n - mark else 0x1_0000
  }

  /** Hexadecimal digits count the same in either case. */
  lemma HexEitherCase(c: Byte)
    ensures 'A' <= c as char <= 'F' ==> HexValue(c) == Some(c - 'A' as int + 10) == HexValue(c + 32)
    ensures '0' <= c as char <= '9' ==> HexValue(c) == Some(c - '0' as int)
    ensures !('0' <= c as char <= '9' || 'A' <= c as char <= 'F' || 'a' <= c as char <= 'f') ==> HexValue(c) == None
  {
  }

  /** Four hexadecimal digits after a backslash and a 'u'; surrogates are refused. */
  function HexUnit(a: Byte, b: Byte, c: Byte, d: Byte): Option<Unit>
  {
    var h, i, j, k := HexValue(a), HexValue(b), HexValue(c), HexValue(d);
    if h.None? || i.None? || j.None? || k.None? then None
    else
      var p := h.value * 4096 + i.value * 256 + j.value * 16 + k.value;
      if 0xD800 <= p < 0xE000 then None else Some(Unit(6, Utf8(p)))
  }

  lemma HexDigit(d: nat)
    requires d < 16
    ensures HexValue(Hex(d)) == Some(d)
  {
  }

  /** Any four digits are read, except those of a surrogate: 'd', then '8' or more. */
  lemma SurrogatesRefused(h: nat, i: nat, j: nat, k: nat)
    requires h < 16 && i < 16 && j < 16 && k < 16
    ensures HexUnit(Hex(h), Hex(i), Hex(j), Hex(k))
            == if h == 13 && i >= 8 then None else Some(Unit(6, Utf8(h * 4096 + i * 256 + j * 16 + k)))
  {
    HexDigit(h);
    HexDigit(i);
    HexDigit(j);
    HexDigit(k);
  }

  /** The two-byte escapes. */
  function Named(c: Byte): Option<Byte>
  {
    if c == QUOTE || c == BACKSLASH || c == SLASH then Some(c)
    else if c == LOWER_B then Some(BACKSPACE)
    else if c == LOWER_F then Some(FORMFEED)
    else if c == LOWER_N then Some(NEWLINE)
    else if c == LOWER_R then Some(RETURN)
    else if c == LOWER_T then Some(TAB)
    else None
  }

  /** A control byte or an unescaped quotation mark is an error. */
  function FirstUnit(t: Text): (u: Option<Unit>)
    requires t != []
    ensures u.Some? ==> 0 < u.value.length <= |t|
  {
    if t[0] == BACKSLASH then
      if |t| < 2 then None
      else if t[1] == LOWER_U then (if |t| < 6 then None else HexUnit(t[2], t[3], t[4], t[5]))
      else if Named(t[1]).None? then None
      else Some(Unit(2, [Named(t[1]).value]))
    else if t[0] < SPACE || t[0] == QUOTE then None
    else Some(Unit(1, [t[0]]))
  }

  function Unescape(t: Text): Option<Text>
    decreases |t|
  {
    if t == [] then Some([])
    else
      var u := FirstUnit(t);
      if u.None? || Unescape(t[u.value.length..]).None? then None
      else Some(u.value.meaning + Unescape(t[u.value.length..]).value)
  }

  predicate IsUnit(unit: Text, v: Text)
  {
    unit != [] && FirstUnit(unit) == Some(Unit(|unit|, v))
  }

  lemma UnescapePrepend(unit: Text, v: Text, rest: Text)
    requires IsUnit(unit, v)
    ensures Unescape(unit + rest)
            == if Unescape(rest).None? then None else Some(v + Unescape(rest).value)
  {
    assert FirstUnit(unit + rest) == FirstUnit(unit);
    assert (unit + rest)[|unit|..] == rest;
  }

  // ---- the inverses ---------------------------------------------------------

  lemma FullEscIsUnit(c: Byte)
    ensures IsUnit(FullEsc(c), [c])
  {
    if Letter(c).None? && c < SPACE {
      assert HexValue(Hex(c / 16)) == Some(c / 16) && HexValue(Hex(c % 16)) == Some(c % 16);
      assert HexUnit(ZERO, ZERO, Hex(c / 16), Hex(c % 16)) == Some(Unit(6, Utf8(c)));
    }
  }

  /** Reading what appendEscapedString writes gives back the string, whatever it is. */
  lemma {:induction false} UnescapeFullEscape(s: Text)
    ensures Unescape(FullEscape(s)) == Some(s)
  {
    if s != [] {
      UnescapeFullEscape(s[1..]);
      FullEscIsUnit(s[0]);
      UnescapePrepend(FullEsc(s[0]), [s[0]], FullEscape(s[1..]));
      assert s == [s[0]] + s[1..];
    }
  }

  /** No control byte but the five that have an escape of their own. */
  predicate NamedByte(c: Byte)
  {
    c >= SPACE || c == BACKSPACE || c == TAB || c == NEWLINE || c == FORMFEED || c == RETURN
  }

  /** Whether the only control bytes are the five that have an escape of their own. */
  predicate OnlyNamedControls(s: Text)
  {
    forall i | 0 <= i < |s| :: NamedByte(s[i])
  }

  lemma OnlyNamedCons(s: Text)
    requires s != []
    ensures OnlyNamedControls(s) <==> NamedByte(s[0]) && OnlyNamedControls(s[1..])
  {
    assert forall i | 0 <= i < |s[1..]| :: s[1..][i] == s[i + 1];
    assert forall i | 0 < i < |s| :: s[i] == s[1..][i - 1];
  }

  lemma EscIsUnit(c: Byte)
    requires NamedByte(c)
    ensures IsUnit(Esc(c), [c])
  {
  }

  lemma ControlRefused(c: Byte, rest: Text)
    requires !NamedByte(c)
    ensures Unescape([c] + rest) == None
  {
    assert FirstUnit([c] + rest) == None;
  }

  /** What writeEscapedStringOptimized writes reads back as the string exactly when the
      string has no control bytes but the five named ones; otherwise it is no JSON. */
  lemma {:induction false} UnescapeEscape(s: Text)
    ensures Unescape(Escape(s)) == if OnlyNamedControls(s) then Some(s) else None
  {
    if s != [] {
      UnescapeEscape(s[1..]);
      OnlyNamedCons(s);
      if NamedByte(s[0]) {
        EscIsUnit(s[0]);
        UnescapePrepend(Esc(s[0]), [s[0]], Escape(s[1..]));
        assert s == [s[0]] + s[1..];
      } else {
        ControlRefused(s[0], Escape(s[1..]));
      }
    }
  }

  /** The same by the numbers of the bytes. */
  lemma EscapeReadsBack(s: Text)
    ensures Unescape(Escape(s)) == Some(s)
            <==> forall i | 0 <= i < |s| ::
                   s[i] >= 32 || s[i] == 8 || s[i] == 9 || s[i] == 10 || s[i] == 12 || s[i] == 13
  {
    UnescapeEscape(s);
    assert OnlyNamedControls(s) <==> forall i | 0 <= i < |s| :: NamedByte(s[i]);
  }

  /** How many bytes of the string are quotation marks, backslashes or controls with an
      escape of their own. */
  function EscapesIn(s: Text): nat
  {
    if s == [] then 0
    else
      (if s[0] == 34 || s[0] == 92 || s[0] == 8 || s[0] == 9 || s[0] == 10 || s[0] == 12 || s[0] == 13 then 1 else 0)
      + EscapesIn(s[1..])
  }

  /** Only those are escaped, each by one backslash. */
  lemma {:induction false} EscapedLength(s: Text)
    ensures |Escape(s)| == |s| + EscapesIn(s)
  {
    if s != [] {
      EscapedLength(s[1..]);
    }
  }

  /** The bytes behind the backslash, as section 7 of RFC 8259 gives them. */
  lemma EscapeLetters()
    ensures Escape([34]) == [92, 34] && Escape([92]) == [92, 92]
    ensures Escape([8]) == [92, 'b' as int] && Escape([9]) == [92, 't' as int] && Escape([10]) == [92, 'n' as int]
    ensures Escape([12]) == [92, 'f' as int] && Escape([13]) == [92, 'r' as int]
  {
    forall c: Byte ensures Escape([c]) == Esc(c) {
      assert [c][1..] == [];
      assert Escape([c]) == Esc(c) + Escape([]);
    }
  }

  /** Any other control byte costs five more, and the digits of its number are written
      in lower case. */
  lemma ControlEscape(c: Byte)
    requires c < 32 && c != 8 && c != 9 && c != 10 && c != 12 && c != 13
    ensures var x: int := c % 16;
            FullEscape([c]) == [92, 117, 48, 48, 48 + c / 16, if x < 10 then 48 + x else 97 + x - 10]
  {
    assert [c][1..] == [];
    assert FullEscape([c]) == FullEsc(c) + FullEscape([]);
  }

  /** The two escapers agree exactly on those strings. */
  lemma EscapersAgree(s: Text)
    ensures Escape(s) == FullEscape(s) <==> OnlyNamedControls(s)
  {
    UnescapeEscape(s);
    UnescapeFullEscape(s);
    if OnlyNamedControls(s) {
      SameEscapes(s);
    }
  }

  lemma {:induction false} SameEscapes(s: Text)
    requires OnlyNamedControls(s)
    ensures Escape(s) == FullEscape(s)
  {
    if s != [] {
      OnlyNamedCons(s);
      SameEscapes(s[1..]);
      assert Esc(s[0]) == FullEsc(s[0]);
    }
  }

  // ---- what escaped text does not contain -----------------------------------

  lemma {:induction false} SealedPlain(t: Text, sep: Byte)
    requires sep !in t && BACKSLASH !in t
    ensures Sealed(t, sep)
  {
    if t != [] {
      SealedPlain(t[1..], sep);
    }
  }

  lemma FullEscSealed(c: Byte)
    ensures Sealed(FullEsc(c), QUOTE)
  {
    var t := FullEsc(c);
    assert Sealed([], QUOTE);
    if Letter(c).None? && c < SPACE {
      assert t[2..] == [ZERO, ZERO, Hex(c / 16), Hex(c % 16)];
      SealedPlain(t[2..], QUOTE);
    } else if Letter(c).Some? {
      assert t[2..] == [];
    }
  }

  lemma EscSealed(c: Byte)
    ensures Sealed(Esc(c), QUOTE)
  {
    assert Sealed([], QUOTE);
    if Letter(c).Some? {
      assert Esc(c)[2..] == [];
    }
  }

  /** appendEscapedString leaves no raw control byte and no unescaped quote. */
  lemma {:induction false} FullEscapeIsSafe(s: Text)
    ensures Sealed(FullEscape(s), QUOTE)
    ensures forall i | 0 <= i < |FullEscape(s)| :: FullEscape(s)[i] >= SPACE
  {
    if s != [] {
      FullEscapeIsSafe(s[1..]);
      FullEscSealed(s[0]);
      SealedAppend(FullEsc(s[0]), FullEscape(s[1..]), QUOTE);
    }
  }

  /** writeEscapedStringOptimized leaves no unescaped quote and never a raw newline. */
  lemma {:induction false} EscapeIsSealed(s: Text)
    ensures Sealed(Escape(s), QUOTE) && NEWLINE !in Escape(s)
  {
    if s != [] {
      EscapeIsSealed(s[1..]);
      EscSealed(s[0]);
      SealedAppend(Esc(s[0]), Escape(s[1..]), QUOTE);
    }
  }

  predicate PlainByte(c: Byte)
  {
    !NeedsEscaping(c)
  }

  /** Text that can stand between quotes as it is. */
  predicate Plain(s: Text)
  {
    forall i | 0 <= i < |s| :: PlainByte(s[i])
  }

  lemma PlainEscape(s: Text)
    requires Plain(s)
    ensures Escape(s) == s && FullEscape(s) == s && OnlyNamedControls(s)
  {
    assert forall i | 0 <= i < |s| :: PlainByte(s[i]);
    EscapedUntouched(Esc, s);
    EscapedUntouched(FullEsc, s);
  }

  // ---- the loops ------------------------------------------------------------

  /** writeEscapedStringOptimized */
  method WriteEscaped(buf: Buffer, s: Text)
    modifies buf
    ensures buf.data == old(buf.data) + Escape(s)
  {
    var start, i := 0, 0;
    while i < |s|
      invariant 0 <= start <= i <= |s|
      invariant Untouched(Esc, s[start..i])
      invariant buf.data == old(buf.data) + Escape(s[..start])
    {
      var c := s[i];
      if Letter(c).Some? {
        WriteChunk(Esc, buf, s, start, i, [BACKSLASH, Letter(c).value], old(buf.data));
        start := i + 1;
      } else {
        assert s[start..i + 1] == s[start..i] + [c];
      }
      i := i + 1;
    }
    assert s[start..] == s[start..|s|];
    WriteRest(Esc, buf, s, start, old(buf.data));
  }

  /** stringNeedsEscaping */
  method StringNeedsEscaping(s: Text) returns (needs: bool)
    ensures needs <==> exists i :: 0 <= i < |s| && NeedsEscaping(s[i])
    ensures needs <==> FullEscape(s) != s
  {
    PlainOrLonger(s);
    for i := 0 to |s|
      invariant forall j | 0 <= j < i :: !NeedsEscaping(s[j])
    {
      if NeedsEscaping(s[i]) {
        return true;
      }
    }
    return false;
  }

  lemma {:induction false} EscapedGrows(s: Text)
    ensures |FullEscape(s)| >= |s|
    ensures (exists i :: 0 <= i < |s| && NeedsEscaping(s[i])) ==> |FullEscape(s)| > |s|
  {
    if s != [] {
      EscapedGrows(s[1..]);
      if i :| 0 <= i < |s| && NeedsEscaping(s[i]) {
        assert i > 0 ==> s[1..][i - 1] == s[i];
      }
    }
  }

  lemma PlainOrLonger(s: Text)
    ensures FullEscape(s) != s <==> exists i :: 0 <= i < |s| && NeedsEscaping(s[i])
  {
    if i :| 0 <= i < |s| && NeedsEscaping(s[i]) {
      EscapedGrows(s);
    } else {
      assert Plain(s);
      PlainEscape(s);
    }
  }

  const CACHED_LENGTH: nat := 64

  /** The cached answers of stringNeedsEscaping, kept for short strings only. */
  class Cache {
    var known: map<Text, bool>

    ghost predicate Valid()
      reads this
    {
      forall s | s in known :: |s| <= CACHED_LENGTH && (known[s] <==> FullEscape(s) != s)
    }

    constructor ()
      ensures Valid() && known == map[]
    {
      known := map[];
    }

    method Ask(s: Text) returns (needs: bool)
      requires Valid()
      modifies this
      ensures Valid() && (needs <==> FullEscape(s) != s)
      ensures known == if s in old(known) || |s| > CACHED_LENGTH then old(known) else old(known)[s := needs]
    {
      if s in known {
        return known[s];
      }
      needs := StringNeedsEscaping(s);
      if |s| <= CACHED_LENGTH {
        known := known[s := needs];
      }
    }
  }

  method EscapeOf(c: Byte) returns (t: Text)
    requires NeedsEscaping(c)
    ensures t == FullEsc(c)
  {
    if Letter(c).Some? {
      t := [BACKSLASH, Letter(c).value];
    } else {
      assert Shr(c, 4) == Shr(c / 2 / 2 / 2 / 2, 0) == c / 16;
      MaskIsMod(c, 16);
      t := [BACKSLASH, LOWER_U, ZERO, ZERO, Hex(Shr(c, 4)), Hex(BitAnd(c, 0xF))];
    }
  }

  method WriteFullEscape(dst: Buffer, s: Text)
    modifies dst
    ensures dst.data == old(dst.data) + FullEscape(s)
  {
    var start, i := 0, 0;
    while i < |s|
      invariant 0 <= start <= i <= |s|
      invariant Untouched(FullEsc, s[start..i])
      invariant dst.data == old(dst.data) + FullEscape(s[..start])
    {
      var c := s[i];
      if NeedsEscaping(c) {
        var escape := EscapeOf(c);
        WriteChunk(FullEsc, dst, s, start, i, escape, old(dst.data));
        start := i + 1;
      } else {
        assert s[start..i + 1] == s[start..i] + [c];
      }
      i := i + 1;
    }
    assert s[start..] == s[start..|s|];
    WriteRest(FullEsc, dst, s, start, old(dst.data));
  }

  /** appendEscapedString: whatever the cache holds, the same bytes come out. */
  method AppendEscaped(dst: Buffer, s: Text, cache: Cache)
    requires cache.Valid()
    modifies dst, cache
    ensures cache.Valid() && old(cache.known.Keys) <= cache.known.Keys
    ensures dst.data == old(dst.data) + FullEscape(s)
  {
    if s == [] {
      return;
    }
    var needs := cache.Ask(s);
    if !needs {
      dst.WriteString(s);
      return;
    }
    WriteFullEscape(dst, s);
  }
}
