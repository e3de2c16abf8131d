/** Base64 as sections 4 and 3.5 of RFC 4648 define it: the hand-written encoder with
    its shifts and masks, and a strict decoder that inverts it. */
module Base64 {
  import opened Bits
  import opened Bytes
  import opened Wrappers

  type Sextet = n: int | 0 <= n < 64

  const PAD: Byte := 61

  /** Entry n of the encode table: 'A' to 'Z', 'a' to 'z', '0' to '9', '+' and '/'. */
  function Symbol(n: Sextet): Byte
  {
    if n < 26 then 65 + n
    else if n < 52 then 71 + n
    else if n < 62 then n - 4
    else if n == 62 then 43
    else 47
  }

  /** The value of a base64 symbol. */
  function ValueOf(c: Byte): Option<Sextet>
  {
    if 65 <= c <= 90 then Some(c - 65)
    else if 97 <= c <= 122 then Some(c - 71)
    else if 48 <= c <= 57 then Some(c + 4)
    else if c == 43 then Some(62)
    else if c == 47 then Some(63)
    else None
  }

  lemma SymbolValue(n: Sextet)
    ensures ValueOf(Symbol(n)) == Some(n) && Symbol(n) != PAD
  {
  }

  // ---- the encoding ---------------------------------------------------------

  function Quantum(b0: Byte, b1: Byte, b2: Byte): (t: Text)
    ensures |t| == 4
  {
    [Symbol(b0 / 4), Symbol(b0 % 4 * 16 + b1 / 16), Symbol(b1 % 16 * 4 + b2 / 64), Symbol(b2 % 64)]
  }

  function LastTwo(b0: Byte, b1: Byte): (t: Text)
    ensures |t| == 4
  {
    [Symbol(b0 / 4), Symbol(b0 % 4 * 16 + b1 / 16), Symbol(b1 % 16 * 4), PAD]
  }

  function LastOne(b0: Byte): (t: Text)
    ensures |t| == 4
  {
    [Symbol(b0 / 4), Symbol(b0 % 4 * 16), PAD, PAD]
  }

  function Encode(src: Text): Text
    decreases |src|
  {
    if |src| >= 3 then Quantum(src[0], src[1], src[2]) + Encode(src[3..])
    else if |src| == 2 then LastTwo(src[0], src[1])
    else if |src| == 1 then LastOne(src[0])
    else []
  }

  /** base64EncodedLen */
  function EncodedLen(n: nat): nat
  {
    (n + 2) / 3 * 4
  }

  lemma ThreeMore(n: nat)
    ensures EncodedLen(n + 3) == EncodedLen(n) + 4
  {
  }

  lemma {:induction false} EncodedLength(src: Text)
    ensures |Encode(src)| == EncodedLen(|src|)
    decreases |src|
  {
    if |src| >= 3 {
      EncodedLength(src[3..]);
      ThreeMore(|src| - 3);
    }
  }

  // ---- the decoder ----------------------------------------------------------

  /** Up to three bytes from a final quantum; unused bits must be zero. */
  function DecodeLast(t: Text): Option<Text>
    requires |t| == 4
  {
    var a, b, c, d := ValueOf(t[0]), ValueOf(t[1]), ValueOf(t[2]), ValueOf(t[3]);
    if a.None? || b.None? then None
    else if c.Some? && d.Some? then
      Some([a.value * 4 + b.value / 16, b.value % 16 * 16 + c.value / 4, c.value % 4 * 64 + d.value])
    else if c.Some? && t[3] == PAD && c.value % 4 == 0 then
      Some([a.value * 4 + b.value / 16, b.value % 16 * 16 + c.value / 4])
    else if t[2] == PAD && t[3] == PAD && b.value % 16 == 0 then
      Some([a.value * 4 + b.value / 16])
    else None
  }

  function Decode(t: Text): Option<Text>
    decreases |t|
  {
    if t == [] then Some([])
    else if |t| < 4 then None
    else
      var head, tail := DecodeLast(t[..4]), Decode(t[4..]);
      if head.None? || tail.None? || (|t| > 4 && |head.value| < 3) then None
      else Some(head.value + tail.value)
  }

  /** Two neighbouring sextets hold the byte that straddles them. */
  lemma Straddle(hi: nat, lo: nat, m: nat)
    requires m > 0 && lo < m
    ensures (hi * m + lo) / m == hi && (hi * m + lo) % m == lo
  {
    DivModUnique(hi * m + lo, m, hi, lo);
  }

  lemma QuantumDecodes(b0: Byte, b1: Byte, b2: Byte)
    ensures DecodeLast(Quantum(b0, b1, b2)) == Some([b0, b1, b2])
  {
    Straddle(b0 % 4, b1 / 16, 16);
    Straddle(b1 % 16, b2 / 64, 4);
    SymbolValue(b0 / 4);
    SymbolValue(b0 % 4 * 16 + b1 / 16);
    SymbolValue(b1 % 16 * 4 + b2 / 64);
    SymbolValue(b2 % 64);
  }

  lemma LastTwoDecodes(b0: Byte, b1: Byte)
    ensures DecodeLast(LastTwo(b0, b1)) == Some([b0, b1])
  {
    Straddle(b0 % 4, b1 / 16, 16);
    Straddle(b1 % 16, 0, 4);
    SymbolValue(b0 / 4);
    SymbolValue(b0 % 4 * 16 + b1 / 16);
    SymbolValue(b1 % 16 * 4);
  }

  lemma LastOneDecodes(b0: Byte)
    ensures DecodeLast(LastOne(b0)) == Some([b0])
  {
    SymbolValue(b0 / 4);
    SymbolValue(b0 % 4 * 16);
  }

  lemma DecodeWhole(t: Text, src: Text)
    requires |t| == 4 && DecodeLast(t) == Some(src)
    ensures Decode(t) == Some(src)
  {
    assert t[..4] == t && t[4..] == [];
    assert src + [] == src;
  }

  lemma DecodeCons(t: Text, rest: Text, src: Text)
    requires |t| == 4 && DecodeLast(t) == Some(src) && |src| == 3 && Decode(rest).Some?
    ensures Decode(t + rest) == Some(src + Decode(rest).value)
  {
    assert (t + rest)[..4] == t && (t + rest)[4..] == rest;
  }

  lemma QuantumOf(head: Text)
    requires |head| == 3
    ensures Encode(head) == Quantum(head[0], head[1], head[2])
    ensures |Encode(head)| == 4 && DecodeLast(Encode(head)) == Some(head)
  {
    QuantumDecodes(head[0], head[1], head[2]);
    assert head == [head[0], head[1], head[2]];
    assert Encode(head[3..]) == [];
  }

  /** Decoding the encoding of any byte sequence gives it back. */
  lemma {:induction false} RoundTrip(src: Text)
    ensures Decode(Encode(src)) == Some(src)
    decreases |src|
  {
    if |src| >= 3 {
      var head, tail := src[..3], src[3..];
      assert src == head + tail;
      QuantumOf(head);
      RoundTrip(tail);
      DecodeCons(Encode(head), Encode(tail), head);
    } else if |src| == 2 {
      LastTwoDecodes(src[0], src[1]);
      DecodeWhole(LastTwo(src[0], src[1]), [src[0], src[1]]);
      assert src == [src[0], src[1]];
    } else if |src| == 1 {
      LastOneDecodes(src[0]);
      DecodeWhole(LastOne(src[0]), [src[0]]);
      assert src == [src[0]];
    }
  }

  lemma ValueSymbol(c: Byte)
    requires ValueOf(c).Some?
    ensures Symbol(ValueOf(c).value) == c
  {
  }

  /** Cutting the three bytes of four sextets gives the sextets back. */
  lemma SextetsOf(a: Sextet, b: Sextet, c: Sextet, d: Sextet)
    ensures (a * 4 + b / 16) / 4 == a && (a * 4 + b / 16) % 4 * 16 + (b % 16 * 16 + c / 4) / 16 == b
    ensures (b % 16 * 16 + c / 4) % 16 * 4 + (c % 4 * 64 + d) / 64 == c && (c % 4 * 64 + d) % 64 == d
  {
    Straddle(a, b / 16, 4);
    Straddle(b % 16, c / 4, 16);
    Straddle(c % 4, d, 64);
  }

  /** No unused bit of a final quantum is lost, since all of them are zero. */
  lemma LastIsEncoding(t: Text)
    requires |t| == 4 && DecodeLast(t).Some?
    ensures 1 <= |DecodeLast(t).value| <= 3 && Encode(DecodeLast(t).value) == t
  {
    var s := DecodeLast(t).value;
    ValueSymbol(t[0]);
    ValueSymbol(t[1]);
    var a, b := ValueOf(t[0]).value, ValueOf(t[1]).value;
    if |s| == 1 {
      SextetsOf(a, b, 0, 0);
    } else {
      ValueSymbol(t[2]);
      var c := ValueOf(t[2]).value;
      if |s| == 2 {
        SextetsOf(a, b, c, 0);
      } else {
        ValueSymbol(t[3]);
        SextetsOf(a, b, c, ValueOf(t[3]).value);
        assert Encode(s[3..]) == [];
      }
    }
  }

  /** The decoder refuses everything that is no encoding. */
  lemma {:induction false} OnlyEncodingsDecode(t: Text)
    requires Decode(t).Some?
    ensures Encode(Decode(t).value) == t
    decreases |t|
  {
    if t != [] {
      var head, tail := DecodeLast(t[..4]).value, Decode(t[4..]).value;
      LastIsEncoding(t[..4]);
      OnlyEncodingsDecode(t[4..]);
      assert t == t[..4] + t[4..];
      if |head| == 3 {
        assert head + tail == [head[0], head[1], head[2]] + tail;
        QuantumOf(head);
        assert (head + tail)[3..] == tail;
      } else {
        assert t[4..] == [] && tail == [] && head + tail == head;
      }
    }
  }

  /** So a text decodes to a byte sequence exactly if it is its encoding. */
  lemma DecodesExactly(t: Text, src: Text)
    ensures Decode(t) == Some(src) <==> t == Encode(src)
  {
    RoundTrip(src);
    if Decode(t).Some? {
      OnlyEncodingsDecode(t);
    }
  }

  // ---- against the standard ---------------------------------------------------

  /** Table 1 of RFC 4648. */
  function Letter(n: Sextet): char
  {
    if n < 26 then 'A' + n as char
    else if n < 52 then 'a' + (n - 26) as char
    else if n < 62 then '0' + (n - 52) as char
    else if n == 62 then '+'
    else '/'
  }

  /** The four symbols of three bytes are the digits, to the base 64, of the number the
      bytes are to the base 256. */
  lemma QuantumIsNumber(b0: Byte, b1: Byte, b2: Byte) returns (n0: Sextet, n1: Sextet, n2: Sextet, n3: Sextet)
    ensures 262144 * n0 + 4096 * n1 + 64 * n2 + n3 == 65536 * b0 + 256 * b1 + b2
    ensures Encode([b0, b1, b2]) == [Letter(n0) as int, Letter(n1) as int, Letter(n2) as int, Letter(n3) as int]
  {
    n0, n1, n2, n3 := b0 / 4, b0 % 4 * 16 + b1 / 16, b1 % 16 * 4 + b2 / 64, b2 % 64;
    assert [b0, b1, b2][3..] == [];
    SymbolIsLetter(n0);
    SymbolIsLetter(n1);
    SymbolIsLetter(n2);
    SymbolIsLetter(n3);
  }

  lemma SymbolIsLetter(n: Sextet)
    ensures Letter(n) < 256 as char && Symbol(n) == Letter(n) as int
  {
  }

  /** One or two bytes at the end are padded as if zeros followed, whose symbols '='
      replaces. */
  lemma PaddedIsNumber(b0: Byte, b1: Byte)
    ensures Encode([b0, b1]) == Encode([b0, b1, 0])[..3] + ['=' as int]
    ensures Encode([b0]) == Encode([b0, 0, 0])[..2] + ['=' as int, '=' as int]
  {
    PaddedQuantum(b0, b1);
    QuantumOf([b0, b1, 0]);
    QuantumOf([b0, 0, 0]);
  }

  lemma PaddedQuantum(b0: Byte, b1: Byte)
    ensures LastTwo(b0, b1) == Quantum(b0, b1, 0)[..3] + [PAD]
    ensures LastOne(b0) == Quantum(b0, 0, 0)[..2] + [PAD, PAD]
  {
  }

  // ---- the loop -------------------------------------------------------------

  /** a << k */
  function Shl(a: nat, k: nat): nat
  {
    a * Pow2(k)
  }

  lemma MaskFacts(b: Byte)
    ensures BitAnd(b, 0x3) == b % 4 && BitAnd(b, 0xF) == b % 16 && BitAnd(b, 0x3F) == b % 64
  {
    MaskIsMod(b, 4);
    MaskIsMod(b, 16);
    MaskIsMod(b, 64);
  }

  lemma ShiftFacts(b: Byte)
    ensures Shr(b, 2) == b / 4 && Shr(b, 4) == b / 16 && Shr(b, 6) == b / 64
  {
    assert Shr(b, 2) == Shr(b / 2 / 2, 0);
    assert Shr(b, 4) == Shr(b / 2 / 2 / 2 / 2, 0);
    assert Shr(b, 6) == Shr(b / 2 / 2 / 2 / 2, 2);
  }

  lemma ShlFacts(a: nat)
    ensures Pow2(4) == 16 && Shl(a, 4) == a * 16
    ensures Pow2(2) == 4 && Shl(a, 2) == a * 4
  {
    assert Pow2(2) == 2 * Pow2(1) == 4;
    assert Pow2(4) == 2 * Pow2(3) == 4 * Pow2(2);
  }

  /** (b>>2) & 0x3F */
  lemma FirstSextet(b: Byte)
    ensures BitAnd(Shr(b, 2), 0x3F) == b / 4
  {
    ShiftFacts(b);
    MaskIsMod(b / 4, 64);
  }

  /** (b1>>4) & 0xF and (b2>>6) & 0x3 */
  lemma HighParts(b: Byte)
    ensures BitAnd(Shr(b, 4), 0xF) == b / 16
    ensures BitAnd(Shr(b, 6), 0x3) == b / 64
  {
    ShiftFacts(b);
    MaskIsMod(b / 16, 16);
    MaskIsMod(b / 64, 4);
  }

  lemma OrShifted(hi: nat, lo: nat, k: nat)
    requires lo < Pow2(k)
    ensures BitOr(Shl(hi, k), lo) == Shl(hi, k) + lo
  {
    OrDisjoint(hi, lo, k);
  }

  /** ((b0&0x3)<<4) | ((b1>>4)&0xF) */
  lemma SecondSextet(b0: Byte, b1: Byte)
    ensures BitOr(Shl(BitAnd(b0, 0x3), 4), BitAnd(Shr(b1, 4), 0xF)) == b0 % 4 * 16 + b1 / 16
    ensures Shl(BitAnd(b0, 0x3), 4) == b0 % 4 * 16
  {
    var hi, lo := BitAnd(b0, 0x3), BitAnd(Shr(b1, 4), 0xF);
    assert hi == b0 % 4 by {
      MaskFacts(b0);
    }
    assert lo == b1 / 16 by {
      HighParts(b1);
    }
    ShlFacts(hi);
    OrShifted(hi, lo, 4);
  }

  /** ((b1&0xF)<<2) | ((b2>>6)&0x3) */
  lemma ThirdSextet(b1: Byte, b2: Byte)
    ensures BitOr(Shl(BitAnd(b1, 0xF), 2), BitAnd(Shr(b2, 6), 0x3)) == b1 % 16 * 4 + b2 / 64
    ensures Shl(BitAnd(b1, 0xF), 2) == b1 % 16 * 4
  {
    var hi, lo := BitAnd(b1, 0xF), BitAnd(Shr(b2, 6), 0x3);
    assert hi == b1 % 16 by {
      MaskFacts(b1);
    }
    assert lo == b2 / 64 by {
      HighParts(b2);
    }
    ShlFacts(hi);
    OrShifted(hi, lo, 2);
  }

  /** encodeBase64 */
  method EncodeInto(dst: Buffer, data: Text)
    modifies dst
    ensures dst.data == old(dst.data) + Encode(data)
    ensures |dst.data| == |old(dst.data)| + EncodedLen(|data|)
  {
    var src := data;
    while |src| >= 3
      invariant dst.data + Encode(src) == old(dst.data) + Encode(data)
    {
      WriteQuantum(dst, src[0], src[1], src[2]);
      src := src[3..];
    }
    if |src| > 0 {
      WriteRemainder(dst, src);
    }
    EncodedLength(data);
  }

  method WriteQuantum(dst: Buffer, b0: Byte, b1: Byte, b2: Byte)
    modifies dst
    ensures dst.data == old(dst.data) + Quantum(b0, b1, b2)
  {
    SextetsAreQuantum(b0, b1, b2);
    dst.WriteByte(Symbol(BitAnd(Shr(b0, 2), 0x3F)));
    dst.WriteByte(Symbol(BitOr(Shl(BitAnd(b0, 0x3), 4), BitAnd(Shr(b1, 4), 0xF))));
    dst.WriteByte(Symbol(BitOr(Shl(BitAnd(b1, 0xF), 2), BitAnd(Shr(b2, 6), 0x3))));
    dst.WriteByte(Symbol(BitAnd(b2, 0x3F)));
  }

  /** The four table indices are the sextets of the quantum. */
  lemma SextetsAreQuantum(b0: Byte, b1: Byte, b2: Byte)
    ensures var s0, s1 := BitAnd(Shr(b0, 2), 0x3F), BitOr(Shl(BitAnd(b0, 0x3), 4), BitAnd(Shr(b1, 4), 0xF));
            var s2, s3 := BitOr(Shl(BitAnd(b1, 0xF), 2), BitAnd(Shr(b2, 6), 0x3)), BitAnd(b2, 0x3F);
            && s0 < 64 && s1 < 64 && s2 < 64 && s3 < 64
            && [Symbol(s0), Symbol(s1), Symbol(s2), Symbol(s3)] == Quantum(b0, b1, b2)
  {
    var s0, s1 := BitAnd(Shr(b0, 2), 0x3F), BitOr(Shl(BitAnd(b0, 0x3), 4), BitAnd(Shr(b1, 4), 0xF));
    var s2, s3 := BitOr(Shl(BitAnd(b1, 0xF), 2), BitAnd(Shr(b2, 6), 0x3)), BitAnd(b2, 0x3F);
    assert s0 == b0 / 4 by {
      FirstSextet(b0);
    }
    assert s1 == b0 % 4 * 16 + b1 / 16 by {
      SecondSextet(b0, b1);
    }
    assert s2 == b1 % 16 * 4 + b2 / 64 by {
      ThirdSextet(b1, b2);
    }
    assert s3 == b2 % 64 by {
      MaskFacts(b2);
    }
    QuantumFrom(b0, b1, b2, s0, s1, s2, s3);
  }

  lemma QuantumFrom(b0: Byte, b1: Byte, b2: Byte, s0: nat, s1: nat, s2: nat, s3: nat)
    requires s0 == b0 / 4 && s1 == b0 % 4 * 16 + b1 / 16 && s2 == b1 % 16 * 4 + b2 / 64 && s3 == b2 % 64
    ensures s0 < 64 && s1 < 64 && s2 < 64 && s3 < 64
    ensures [Symbol(s0), Symbol(s1), Symbol(s2), Symbol(s3)] == Quantum(b0, b1, b2)
  {
  }

  method WriteRemainder(dst: Buffer, src: Text)
    requires 1 <= |src| <= 2
    modifies dst
    ensures dst.data == old(dst.data) + Encode(src)
  {
    FirstSextet(src[0]);
    dst.WriteByte(Symbol(BitAnd(Shr(src[0], 2), 0x3F)));
    if |src| == 1 {
      SecondSextet(src[0], 0);
      dst.WriteByte(Symbol(Shl(BitAnd(src[0], 0x3), 4)));
      dst.WriteString([PAD, PAD]);
    } else {
      WriteTail(dst, src[0], src[1]);
    }
  }

  method WriteTail(dst: Buffer, b0: Byte, b1: Byte)
    modifies dst
    ensures dst.data == old(dst.data) + LastTwo(b0, b1)[1..]
  {
    TailIsLastTwo(b0, b1);
    dst.WriteByte(Symbol(BitOr(Shl(BitAnd(b0, 0x3), 4), BitAnd(Shr(b1, 4), 0xF))));
    dst.WriteByte(Symbol(Shl(BitAnd(b1, 0xF), 2)));
    dst.WriteByte(PAD);
  }

  lemma TailIsLastTwo(b0: Byte, b1: Byte)
    ensures var s1, s2 := BitOr(Shl(BitAnd(b0, 0x3), 4), BitAnd(Shr(b1, 4), 0xF)), Shl(BitAnd(b1, 0xF), 2);
            s1 < 64 && s2 < 64 && [Symbol(s1), Symbol(s2), PAD] == LastTwo(b0, b1)[1..]
  {
    assert LastTwo(b0, b1)[1..] == [Symbol(b0 % 4 * 16 + b1 / 16), Symbol(b1 % 16 * 4), PAD];
    SecondSextet(b0, b1);
    ShlFacts(BitAnd(b1, 0xF));
    MaskFacts(b1);
  }
}
