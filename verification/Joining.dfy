/** Tokens joined by a one-byte separator, built left to right by a writer that asks
    whether anything has been written yet, and read from the left by a parser. */
module Joining {
  import opened Bytes

  function Optional<T>(present: bool, t: T): seq<T>
  {
    if present then [t] else []
  }

  /** One more token after what is there. */
  function Add(line: Text, sep: Byte, token: Text): Text
  {
    if line == [] then token else line + [sep] + token
  }

  function Joined(tokens: seq<Text>, sep: Byte): Text
  {
    if tokens == [] then [] else Add(Joined(tokens[..|tokens| - 1], sep), sep, tokens[|tokens| - 1])
  }

  lemma JoinAdd(tokens: seq<Text>, sep: Byte, token: Text)
    ensures Joined(tokens + [token], sep) == Add(Joined(tokens, sep), sep, token)
  {
    assert (tokens + [token])[..|tokens|] == tokens;
  }

  lemma JoinOne(token: Text, sep: Byte)
    ensures Joined([token], sep) == token
  {
    assert Joined([token][..0], sep) == [];
  }

  lemma JoinThree(a: Text, b: Text, c: Text, sep: Byte)
    requires a != []
    ensures Joined([a, b, c], sep) == a + [sep] + b + [sep] + c
  {
    JoinOne(a, sep);
    JoinAdd([a], sep, b);
    JoinAdd([a, b], sep, c);
    assert [a, b, c] == [a, b] + [c] && [a, b] == [a] + [b];
  }

  /** Read from the left: the first token, a separator and the rest joined. */
  lemma {:induction false} JoinCons(tokens: seq<Text>, sep: Byte)
    requires |tokens| > 1 && forall i | 0 <= i < |tokens| :: tokens[i] != []
    ensures Joined(tokens, sep) == tokens[0] + [sep] + Joined(tokens[1..], sep)
    ensures Joined(tokens[1..], sep) != []
    decreases |tokens|
  {
    var n := |tokens| - 1;
    var init, last := tokens[..n], tokens[n];
    assert tokens[1..][..n - 1] == init[1..];
    if n == 1 {
      assert init == [tokens[0]] && tokens[1..] == [last];
      JoinOne(tokens[0], sep);
      JoinOne(last, sep);
    } else {
      JoinCons(init, sep);
      assert Joined(tokens[1..], sep) == Add(Joined(init[1..], sep), sep, last);
    }
  }

  lemma {:induction false} JoinAvoids(tokens: seq<Text>, sep: Byte, b: Byte)
    requires b != sep && forall i | 0 <= i < |tokens| :: b !in tokens[i]
    ensures b !in Joined(tokens, sep)
    decreases |tokens|
  {
    if tokens != [] {
      JoinAvoids(tokens[..|tokens| - 1], sep, b);
    }
  }
}
