/** Base 64 encoding as defined in section 4 of RFC 4648: the standard alphabet
    `A`-`Z`, `a`-`z`, `0`-`9`, `+`, `/`, with `=` padding to a multiple of four
    characters. This is what Go's `base64.StdEncoding.EncodeToString` produces.
    The encoded text is returned as ASCII bytes, so it can itself be encoded again.
    `Decode` is the reference inverse the encoder is proved against. */
module Base64 {
  import opened Basics

  const Pad: byte := 61 // '='

  /** The character of the alphabet that stands for the 6-bit value `v`. */
  function Char(v: int): (c: byte)
    requires 0 <= v < 64
    ensures IsAlphabet(c) && Value(c) == v
  {
    if v < 26 then 65 + v        // 'A'..'Z'
    else if v < 52 then 71 + v   // 'a'..'z'
    else if v < 62 then v - 4    // '0'..'9'
    else if v == 62 then 43      // '+'
    else 47                      // '/'
  }

  predicate IsAlphabet(c: byte) {
    (65 <= c <= 90) || (97 <= c <= 122) || (48 <= c <= 57) || c == 43 || c == 47
  }

  /** The 6-bit value of an alphabet character. */
  function Value(c: byte): (v: int)
    requires IsAlphabet(c)
    ensures 0 <= v < 64
  {
    if 65 <= c <= 90 then c - 65
    else if 97 <= c <= 122 then c - 71
    else if 48 <= c <= 57 then c + 4
    else if c == 43 then 62
    else 63
  }

  /** Three bytes become four characters. */
  function EncodeTriple(b0: byte, b1: byte, b2: byte): seq<byte> {
    [Char(b0 / 4), Char((b0 % 4) * 16 + b1 / 16), Char((b1 % 16) * 4 + b2 / 64), Char(b2 % 64)]
  }

  /** The final one or two bytes, padded to four characters. */
  function EncodeTail(s: seq<byte>): seq<byte>
    requires 1 <= |s| <= 2
  {
    if |s| == 1 then [Char(s[0] / 4), Char((s[0] % 4) * 16), Pad, Pad]
    else [Char(s[0] / 4), Char((s[0] % 4) * 16 + s[1] / 16), Char((s[1] % 16) * 4), Pad]
  }

  function Encode(s: seq<byte>): seq<byte>
    decreases |s|
  {
    if |s| == 0 then []
    else if |s| < 3 then EncodeTail(s)
    else EncodeTriple(s[0], s[1], s[2]) + Encode(s[3..])
  }

  /** Four characters, the last two possibly padding, back to one to three bytes. */
  function DecodeQuad(q: seq<byte>, last: bool): (r: Option<seq<byte>>)
    requires |q| == 4
  {
    if !(IsAlphabet(q[0]) && IsAlphabet(q[1])) then None
    else
      var v0, v1 := Value(q[0]), Value(q[1]);
      var b0 := v0 * 4 + v1 / 16;
      if last && q[2] == Pad && q[3] == Pad then Some([b0])
      else if !IsAlphabet(q[2]) then None
      else
        var v2 := Value(q[2]);
        var b1 := (v1 % 16) * 16 + v2 / 4;
        if last && q[3] == Pad then Some([b0, b1])
        else if !IsAlphabet(q[3]) then None
        else Some([b0, b1, (v2 % 4) * 64 + Value(q[3])])
  }

  /** The reference decoder: `None` for text that is not padded base 64. */
  function Decode(t: seq<byte>): (r: Option<seq<byte>>)
    decreases |t|
  {
    if |t| == 0 then Some([])
    else if |t| < 4 then None
    else
      match DecodeQuad(t[..4], |t| == 4)
      case None => None
      case Some(bs) =>
        match Decode(t[4..])
        case None => None
        case Some(rest) => Some(bs + rest)
  }

  lemma TripleRoundTrip(b0: byte, b1: byte, b2: byte)
    ensures DecodeQuad(EncodeTriple(b0, b1, b2), true) == Some([b0, b1, b2])
    ensures DecodeQuad(EncodeTriple(b0, b1, b2), false) == Some([b0, b1, b2])
  {
    var q := EncodeTriple(b0, b1, b2);
    assert Value(q[0]) == b0 / 4;
    assert Value(q[1]) == (b0 % 4) * 16 + b1 / 16;
    assert Value(q[2]) == (b1 % 16) * 4 + b2 / 64;
    assert Value(q[3]) == b2 % 64;
  }

  lemma TailRoundTrip(s: seq<byte>)
    requires 1 <= |s| <= 2
    ensures DecodeQuad(EncodeTail(s), true) == Some(s)
  {
    var q := EncodeTail(s);
    assert Value(q[0]) == s[0] / 4;
    if |s| == 2 {
      assert Value(q[1]) == (s[0] % 4) * 16 + s[1] / 16;
      assert Value(q[2]) == (s[1] % 16) * 4;
      assert [s[0], s[1]] == s;
    } else {
      assert Value(q[1]) == (s[0] % 4) * 16;
      assert [s[0]] == s;
    }
  }

  /** Decoding the encoding gives back exactly the original bytes. */
  lemma {:induction false} DecodeEncode(s: seq<byte>)
    ensures Decode(Encode(s)) == Some(s)
    decreases |s|
  {
    if |s| == 0 {
    } else if |s| < 3 {
      TailRoundTrip(s);
      var t := Encode(s);
      assert t[..4] == EncodeTail(s) && t[4..] == [];
      assert s + [] == s;
    } else {
      var q := EncodeTriple(s[0], s[1], s[2]);
      var t := Encode(s);
      assert t == q + Encode(s[3..]);
      assert t[..4] == q;
      assert t[4..] == Encode(s[3..]);
      TripleRoundTrip(s[0], s[1], s[2]);
      DecodeEncode(s[3..]);
      assert [s[0], s[1], s[2]] + s[3..] == s;
    }
  }

  /** The encoded length is `4 * ceil(n / 3)`. */
  lemma {:induction false} EncodedLength(s: seq<byte>)
    ensures |Encode(s)| == 4 * ((|s| + 2) / 3)
    decreases |s|
  {
    if |s| >= 3 {
      EncodedLength(s[3..]);
    }
  }

  /** Every character of the encoding is from the alphabet or is padding,
      and padding only appears in the final group of four. */
  lemma {:induction false} EncodedCharacters(s: seq<byte>)
    ensures forall i :: 0 <= i < |Encode(s)| ==> IsAlphabet(Encode(s)[i]) || Encode(s)[i] == Pad
    ensures forall i :: 0 <= i < |Encode(s)| - 4 ==> IsAlphabet(Encode(s)[i])
    decreases |s|
  {
    if |s| >= 3 {
      EncodedCharacters(s[3..]);
      EncodedLength(s[3..]);
      var t := Encode(s);
      var q := EncodeTriple(s[0], s[1], s[2]);
      assert t == q + Encode(s[3..]);
      forall i | 0 <= i < |t|
        ensures IsAlphabet(t[i]) || t[i] == Pad
        ensures i < |t| - 4 ==> IsAlphabet(t[i])
      {
        if i >= 4 {
          assert t[i] == Encode(s[3..])[i - 4];
        }
      }
    }
  }

  /** Only the empty input is its own encoding: any non-empty input grows. */
  lemma EncodeGrows(s: seq<byte>)
    ensures s != [] ==> |Encode(s)| > |s|
    ensures Encode(s) == s <==> s == []
  {
    EncodedLength(s);
  }
}
