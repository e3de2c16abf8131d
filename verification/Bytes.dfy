/** Bytes, byte strings, and the growing buffer the encoders append to. */
module Bytes {
  type Byte = b: int | 0 <= b < 256
  type Text = seq<Byte>

  const TAB: Byte := 9
  const NEWLINE: Byte := 10
  const BACKSPACE: Byte := 8
  const FORMFEED: Byte := 12
  const RETURN: Byte := 13
  const SPACE: Byte := 32
  const QUOTE: Byte := 34
  const BACKSLASH: Byte := 92
  const EQUALS: Byte := 61
  const COLON: Byte := 58
  const COMMA: Byte := 44
  const LBRACE: Byte := 123
  const RBRACE: Byte := 125
  const MINUS: Byte := 45
  const DOT: Byte := 46

  function Concat(texts: seq<Text>): Text
  {
    if texts == [] then [] else texts[0] + Concat(texts[1..])
  }

  /** What a parser has read and what is left. */
  datatype Parsed<T> = Parsed(value: T, rest: Text)

  class Buffer {
    var data: Text

    constructor ()
      ensures data == []
    {
      data := [];
    }

    method WriteByte(b: Byte)
      modifies this
      ensures data == old(data) + [b]
    {
      data := data + [b];
    }

    method WriteString(s: Text)
      modifies this
      ensures data == old(data) + s
    {
      data := data + s;
    }
  }
}
