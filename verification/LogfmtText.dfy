/** Escaped logfmt text, its inverse, and where an escaped text ends. */
module LogfmtText {
  import opened Bytes
  import opened Escaping
  import opened Wrappers

  /** The escape of one byte. */
  function Esc(c: Byte): Text
  {
    if c == BACKSLASH || c == QUOTE || c == SPACE || c == EQUALS then [BACKSLASH, c]
    else if c == NEWLINE then [BACKSLASH, 'n' as int]
    else if c == RETURN then [BACKSLASH, 'r' as int]
    else if c == TAB then [BACKSLASH, 't' as int]
    else [c]
  }

  function Escape(s: Text): Text
  {
    Escaped(Esc, s)
  }

  /** What a backslash followed by c stands for. */
  function Unesc(c: Byte): Option<Byte>
  {
    if c == BACKSLASH || c == QUOTE || c == SPACE || c == EQUALS then Some(c)
    else if c == 'n' as int then Some(NEWLINE)
    else if c == 'r' as int then Some(RETURN)
    else if c == 't' as int then Some(TAB)
    else None
  }

  function Unescape(t: Text): Option<Text>
    decreases |t|
  {
    if t == [] then Some([])
    else if t[0] == BACKSLASH then
      if |t| < 2 || Unesc(t[1]).None? || Unescape(t[2..]).None? then None
      else Some([Unesc(t[1]).value] + Unescape(t[2..]).value)
    else
      if Unescape(t[1..]).None? then None else Some([t[0]] + Unescape(t[1..]).value)
  }

  lemma {:induction false} UnescapeEscape(s: Text)
    ensures Unescape(Escape(s)) == Some(s)
  {
    if s != [] {
      var head, tail := Esc(s[0]), Escape(s[1..]);
      UnescapeEscape(s[1..]);
      assert (head + tail)[|head|..] == tail;
      assert s == [s[0]] + s[1..];
    }
  }

  /** writeEscapedLogfmtString */
  method WriteEscaped(buf: Buffer, s: Text)
    modifies buf
    ensures buf.data == old(buf.data) + Escape(s)
  {
    var start, i := 0, 0;
    while i < |s|
      invariant 0 <= start <= i <= |s|
      invariant Untouched(Esc, s[start..i])
      invariant buf.data == old(buf.data) + Escape(s[..start])
    {
      var c := s[i];
      if c == BACKSLASH || c == QUOTE || c == SPACE || c == EQUALS {
        WriteChunk(Esc, buf, s, start, i, [BACKSLASH, c], old(buf.data));
        start := i + 1;
      } else if c == NEWLINE {
        WriteChunk(Esc, buf, s, start, i, [BACKSLASH, 'n' as int], old(buf.data));
        start := i + 1;
      } else if c == RETURN {
        WriteChunk(Esc, buf, s, start, i, [BACKSLASH, 'r' as int], old(buf.data));
        start := i + 1;
      } else if c == TAB {
        WriteChunk(Esc, buf, s, start, i, [BACKSLASH, 't' as int], old(buf.data));
        start := i + 1;
      } else {
        assert s[start..i + 1] == s[start..i] + [c];
      }
      i := i + 1;
    }
    assert s[start..] == s[start..|s|];
    WriteRest(Esc, buf, s, start, old(buf.data));
  }

  // ---- what an escaped text does not contain --------------------------------

  lemma {:induction false} EscapeSealed(s: Text, sep: Byte)
    requires sep == SPACE || sep == EQUALS || sep == QUOTE || sep == NEWLINE
    ensures Sealed(Escape(s), sep)
  {
    if s != [] {
      EscapeSealed(s[1..], sep);
      assert Sealed(Esc(s[0]), sep) by {
        assert Sealed([], sep);
      }
      SealedAppend(Esc(s[0]), Escape(s[1..]), sep);
    }
  }

  lemma {:induction false} EscapeHasNoNewline(s: Text)
    ensures NEWLINE !in Escape(s)
  {
    if s != [] {
      EscapeHasNoNewline(s[1..]);
    }
  }

  /** How many bytes of the string are quotation marks, backslashes, spaces, equals signs,
      newlines, returns or tabs. */
  function EscapesIn(s: Text): nat
  {
    if s == [] then 0
    else
      (if s[0] == 34 || s[0] == 92 || s[0] == 32 || s[0] == 61 || s[0] == 10 || s[0] == 13 || s[0] == 9 then 1 else 0)
      + EscapesIn(s[1..])
  }

  /** Only those are escaped, each by one backslash, and no line or column break is left
      raw. */
  lemma {:induction false} EscapedLength(s: Text)
    ensures |Escape(s)| == |s| + EscapesIn(s)
    ensures 10 !in Escape(s) && 13 !in Escape(s) && 9 !in Escape(s)
  {
    if s != [] {
      EscapedLength(s[1..]);
    }
  }

  /** The letters behind the backslash. */
  lemma EscapeLetters()
    ensures Escape([10]) == [92, 'n' as int] && Escape([13]) == [92, 'r' as int] && Escape([9]) == [92, 't' as int]
    ensures Escape([34]) == [92, 34] && Escape([92]) == [92, 92] && Escape([32]) == [92, 32] && Escape([61]) == [92, 61]
  {
    forall c: Byte ensures Escape([c]) == Esc(c) {
      assert [c][1..] == [];
      assert Escape([c]) == Esc(c) + Escape([]);
    }
  }

  predicate PlainByte(c: Byte)
  {
    c != BACKSLASH && c != QUOTE && c != SPACE && c != EQUALS && c != NEWLINE && c != RETURN && c != TAB
  }

  /** Text the escape leaves as it is. */
  predicate Plain(s: Text)
  {
    forall i | 0 <= i < |s| :: PlainByte(s[i])
  }

  lemma PlainEscape(s: Text)
    requires Plain(s)
    ensures Escape(s) == s
  {
    EscapedUntouched(Esc, s);
  }
}
