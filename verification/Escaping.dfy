/** Escaping byte by byte, and why copying the untouched stretches in chunks is the
    same thing. */
module Escaping {
  import opened Bytes

  /** The concatenation of every byte's own escape. */
  function Escaped(e: Byte -> Text, s: Text): Text
  {
    if s == [] then [] else e(s[0]) + Escaped(e, s[1..])
  }

  lemma {:induction false} EscapedAppend(e: Byte -> Text, a: Text, b: Text)
    ensures Escaped(e, a + b) == Escaped(e, a) + Escaped(e, b)
  {
    if a == [] {
      assert a + b == b;
    } else {
      assert (a + b)[0] == a[0] && (a + b)[1..] == a[1..] + b;
      EscapedAppend(e, a[1..], b);
    }
  }

  /** Bytes the escape leaves alone. */
  predicate Untouched(e: Byte -> Text, s: Text)
  {
    forall i | 0 <= i < |s| :: e(s[i]) == [s[i]]
  }

  lemma {:induction false} EscapedUntouched(e: Byte -> Text, s: Text)
    requires Untouched(e, s)
    ensures Escaped(e, s) == s
  {
    if s != [] {
      assert e(s[0]) == [s[0]];
      assert Untouched(e, s[1..]) by {
        assert forall i | 0 <= i < |s[1..]| :: s[1..][i] == s[i + 1];
      }
      EscapedUntouched(e, s[1..]);
    }
  }

  /** A chunk-copying loop has written the escape of `s[..start]`; here the chunk up to
      i and then the escape of byte i follow. */
  lemma ChunkThenEscape(e: Byte -> Text, s: Text, start: nat, i: nat)
    requires start <= i < |s| && Untouched(e, s[start..i])
    ensures Escaped(e, s[..i + 1]) == Escaped(e, s[..start]) + s[start..i] + e(s[i])
  {
    assert s[..i + 1] == s[..start] + s[start..i] + [s[i]];
    EscapedAppend(e, s[..start] + s[start..i], [s[i]]);
    EscapedAppend(e, s[..start], s[start..i]);
    EscapedUntouched(e, s[start..i]);
    assert Escaped(e, [s[i]]) == e(s[i]) + Escaped(e, []);
  }

  lemma LastChunk(e: Byte -> Text, s: Text, start: nat)
    requires start <= |s| && Untouched(e, s[start..])
    ensures Escaped(e, s) == Escaped(e, s[..start]) + s[start..]
  {
    assert s == s[..start] + s[start..];
    EscapedAppend(e, s[..start], s[start..]);
    EscapedUntouched(e, s[start..]);
  }

  /** Copies the untouched chunk before byte i, if any, and then that byte's escape. */
  method WriteChunk(ghost e: Byte -> Text, buf: Buffer, s: Text, start: nat, i: nat, escape: Text, ghost base: Text)
    requires start <= i < |s| && Untouched(e, s[start..i]) && escape == e(s[i])
    requires buf.data == base + Escaped(e, s[..start])
    modifies buf
    ensures buf.data == base + Escaped(e, s[..i + 1])
  {
    if start < i {
      buf.WriteString(s[start..i]);
    }
    buf.WriteString(escape);
    ChunkThenEscape(e, s, start, i);
    assert buf.data == base + (Escaped(e, s[..start]) + s[start..i] + escape);
  }

  /** Copies the untouched rest. */
  method WriteRest(ghost e: Byte -> Text, buf: Buffer, s: Text, start: nat, ghost base: Text)
    requires start <= |s| && Untouched(e, s[start..])
    requires buf.data == base + Escaped(e, s[..start])
    modifies buf
    ensures buf.data == base + Escaped(e, s)
  {
    LastChunk(e, s, start);
    if start < |s| {
      buf.WriteString(s[start..]);
    }
    assert buf.data == base + (Escaped(e, s[..start]) + s[start..]);
  }

  // ---- where an escaped text ends -------------------------------------------

  /** The position of the first unescaped `sep`, or the length if there is none. */
  function FirstUnescaped(t: Text, sep: Byte): (k: nat)
    ensures k <= |t|
    ensures k < |t| ==> t[k] == sep
    decreases |t|
  {
    if t == [] || (t[0] == sep && sep != BACKSLASH) then 0
    else if t[0] == BACKSLASH && |t| >= 2 then
      2 + FirstUnescaped(t[2..], sep)
    else 1 + FirstUnescaped(t[1..], sep)
  }

  /** No unescaped `sep` inside and no backslash left open at the end. */
  predicate Sealed(t: Text, sep: Byte)
    decreases |t|
  {
    t == [] ||
    if t[0] == BACKSLASH then |t| >= 2 && Sealed(t[2..], sep) else t[0] != sep && Sealed(t[1..], sep)
  }

  lemma {:induction false} SealedEnds(t: Text, sep: Byte, rest: Text)
    requires sep != BACKSLASH && Sealed(t, sep)
    requires rest == [] || rest[0] == sep
    ensures FirstUnescaped(t + rest, sep) == |t|
    decreases |t|
  {
    if t == [] {
      assert t + rest == rest;
    } else if t[0] == BACKSLASH {
      assert (t + rest)[2..] == t[2..] + rest;
      SealedEnds(t[2..], sep, rest);
    } else {
      assert (t + rest)[1..] == t[1..] + rest;
      SealedEnds(t[1..], sep, rest);
    }
  }

  lemma {:induction false} SealedSkips(t: Text, sep: Byte, rest: Text)
    requires sep != BACKSLASH && Sealed(t, sep)
    ensures FirstUnescaped(t + rest, sep) == |t| + FirstUnescaped(rest, sep)
    decreases |t|
  {
    if t == [] {
      assert t + rest == rest;
    } else {
      var n := if t[0] == BACKSLASH then 2 else 1;
      assert (t + rest)[n..] == t[n..] + rest;
      SealedSkips(t[n..], sep, rest);
    }
  }

  lemma {:induction false} SealedWhole(t: Text, sep: Byte)
    requires sep != BACKSLASH && Sealed(t, sep)
    ensures FirstUnescaped(t, sep) == |t|
    decreases |t|
  {
    if t != [] {
      SealedWhole(if t[0] == BACKSLASH then t[2..] else t[1..], sep);
    }
  }

  lemma {:induction false} SealedAppend(a: Text, b: Text, sep: Byte)
    requires Sealed(a, sep) && Sealed(b, sep)
    ensures Sealed(a + b, sep)
    decreases |a|
  {
    if a == [] {
      assert a + b == b;
    } else if a[0] == BACKSLASH {
      assert (a + b)[2..] == a[2..] + b;
      SealedAppend(a[2..], b, sep);
    } else {
      assert (a + b)[1..] == a[1..] + b;
      SealedAppend(a[1..], b, sep);
    }
  }

  lemma {:induction false} FoundInPrefix(p: Text, more: Text, sep: Byte)
    requires FirstUnescaped(p, sep) < |p| && sep != BACKSLASH
    ensures FirstUnescaped(p + more, sep) == FirstUnescaped(p, sep)
    decreases |p|
  {
    if p[0] != sep {
      var n := if p[0] == BACKSLASH && |p| >= 2 then 2 else 1;
      assert p[0] == BACKSLASH ==> |p| >= 2;
      assert (p + more)[n..] == p[n..] + more;
      FoundInPrefix(p[n..], more, sep);
    }
  }

  /** Unsealed, but without a bare separator: the last backslash is open. */
  lemma {:induction false} OpenAtEnd(t: Text, sep: Byte)
    requires sep != BACKSLASH && !Sealed(t, sep) && FirstUnescaped(t, sep) == |t|
    ensures t != [] && t[|t| - 1] == BACKSLASH && Sealed(t[..|t| - 1], sep)
    decreases |t|
  {
    if |t| > 1 {
      var n := if t[0] == BACKSLASH then 2 else 1;
      OpenAtEnd(t[n..], sep);
      assert t[n..][..|t| - n - 1] == t[..|t| - 1][n..];
    }
  }

  /** Whatever byte follows is escaped. */
  lemma OpenAndOne(t: Text, c: Byte)
    requires t != [] && t[|t| - 1] == BACKSLASH && Sealed(t[..|t| - 1], c)
    ensures Sealed(t + [c], c)
  {
    var pair := [BACKSLASH, c];
    assert pair[2..] == [] && Sealed([], c);
    SealedAppend(t[..|t| - 1], pair, c);
    assert t + [c] == t[..|t| - 1] + pair;
  }
}
