/** The Base64 encoding of section 4 of RFC 4648 (`Convert.ToBase64String` and, on its canonical
    inputs, `Convert.FromBase64String`): each group of three bytes becomes four characters of the
    64-character alphabet, and a final group of one or two bytes is padded with '='. */
module Base64 {
  import opened Wrappers

  type byte = x: int | 0 <= x < 256

  /** The character for the 6-bit value `v`. */
  function EncodeChar(v: int): (c: char)
    requires 0 <= v < 64
    ensures c != '=' && c != '.'
    ensures DecodeChar(c) == Some(v)
  {
    if v < 26 then (v + 'A' as int) as char
    else if v < 52 then (v - 26 + 'a' as int) as char
    else if v < 62 then (v - 52 + '0' as int) as char
    else if v == 62 then '+'
    else '/'
  }

  /** The 6-bit value of an alphabet character; `None` for any other character. */
  function DecodeChar(c: char): (r: Option<int>)
    ensures r.Some? ==> 0 <= r.value < 64 && c != '=' && c != '.'
  {
    if 'A' <= c <= 'Z' then Some(c as int - 'A' as int)
    else if 'a' <= c <= 'z' then Some(c as int - 'a' as int + 26)
    else if '0' <= c <= '9' then Some(c as int - '0' as int + 52)
    else if c == '+' then Some(62)
    else if c == '/' then Some(63)
    else None
  }

  /** The four characters of one full group of three bytes. */
  function EncodeGroup(b0: byte, b1: byte, b2: byte): string {
    [EncodeChar(b0 / 4), EncodeChar((b0 % 4) * 16 + b1 / 16), EncodeChar((b1 % 16) * 4 + b2 / 64), EncodeChar(b2 % 64)]
  }

  /** `Convert.ToBase64String`. */
  function Encode(b: seq<byte>): (r: string)
    ensures |r| == 4 * ((|b| + 2) / 3)
    ensures '.' !in r
    decreases |b|
  {
    if |b| == 0 then ""
    else if |b| == 1 then [EncodeChar(b[0] / 4), EncodeChar((b[0] % 4) * 16), '=', '=']
    else if |b| == 2 then [EncodeChar(b[0] / 4), EncodeChar((b[0] % 4) * 16 + b[1] / 16), EncodeChar((b[1] % 16) * 4), '=']
    else EncodeGroup(b[0], b[1], b[2]) + Encode(b[3..])
  }

  /** The bytes of a final group: four alphabet characters, or two or three followed by '='
      padding. */
  function DecodeLast(s: string): (r: Option<seq<byte>>)
    requires |s| == 4
    ensures r.Some? ==> 1 <= |r.value| <= 3
  {
    var c0, c1, c2, c3 := DecodeChar(s[0]), DecodeChar(s[1]), DecodeChar(s[2]), DecodeChar(s[3]);
    if c0.None? || c1.None? then None
    else if s[2] == '=' && s[3] == '=' then Some([c0.value * 4 + c1.value / 16])
    else if c2.None? then None
    else if s[3] == '=' then Some([c0.value * 4 + c1.value / 16, (c1.value % 16) * 16 + c2.value / 4])
    else if c3.None? then None
    else Some([c0.value * 4 + c1.value / 16, (c1.value % 16) * 16 + c2.value / 4, (c2.value % 4) * 64 + c3.value])
  }

  /** The bytes of a group that is not the last one: four alphabet characters, no padding. */
  function DecodeFull(s: string): (r: Option<seq<byte>>)
    requires |s| == 4
    ensures r.Some? ==> |r.value| == 3
  {
    match (DecodeChar(s[0]), DecodeChar(s[1]), DecodeChar(s[2]), DecodeChar(s[3]))
    case (Some(v0), Some(v1), Some(v2), Some(v3)) =>
      Some([v0 * 4 + v1 / 16, (v1 % 16) * 16 + v2 / 4, (v2 % 4) * 64 + v3])
    case _ => None
  }

  /** `Convert.FromBase64String` on its canonical inputs: `None` (the `FormatException`) unless the
      length is a multiple of four, every character is in the alphabet, and '=' appears only as
      the padding of the last group. */
  function Decode(s: string): (r: Option<seq<byte>>)
    ensures r.Some? ==> |s| % 4 == 0
    decreases |s|
  {
    if |s| == 0 then Some([])
    else if |s| < 4 then None
    else if |s| == 4 then DecodeLast(s)
    else match DecodeFull(s[..4])
      case None => None
      case Some(g) =>
        match Decode(s[4..])
        case None => None
        case Some(rest) => Some(g + rest)
  }

  /** Decoding one full group gives back its three bytes. */
  lemma GroupRoundTrip(b0: byte, b1: byte, b2: byte)
    ensures DecodeFull(EncodeGroup(b0, b1, b2)) == Some([b0, b1, b2])
    ensures DecodeLast(EncodeGroup(b0, b1, b2)) == Some([b0, b1, b2])
  {
    var v0, v1, v2, v3 := b0 / 4, (b0 % 4) * 16 + b1 / 16, (b1 % 16) * 4 + b2 / 64, b2 % 64;
    assert v1 / 16 == b0 % 4 && v1 % 16 == b1 / 16;
    assert v2 / 4 == b1 % 16 && v2 % 4 == b2 / 64;
  }

  /** Decoding the padded final group of one byte gives back that byte. */
  lemma OneByteRoundTrip(b0: byte)
    ensures DecodeLast([EncodeChar(b0 / 4), EncodeChar((b0 % 4) * 16), '=', '=']) == Some([b0])
  {
    var v1 := (b0 % 4) * 16;
    assert v1 / 16 == b0 % 4;
  }

  /** Decoding the padded final group of two bytes gives back those bytes. */
  lemma TwoBytesRoundTrip(b0: byte, b1: byte)
    ensures DecodeLast([EncodeChar(b0 / 4), EncodeChar((b0 % 4) * 16 + b1 / 16), EncodeChar((b1 % 16) * 4), '='])
         == Some([b0, b1])
  {
    var v1, v2 := (b0 % 4) * 16 + b1 / 16, (b1 % 16) * 4;
    assert v1 / 16 == b0 % 4 && v1 % 16 == b1 / 16;
    assert v2 / 4 == b1 % 16;
  }

  /** Decoding a full group followed by more groups decodes each in turn. */
  lemma DecodeConcat(g: string, rest: string, x: seq<byte>, y: seq<byte>)
    requires |g| == 4 && |rest| >= 4
    requires DecodeFull(g) == Some(x) && Decode(rest) == Some(y)
    ensures Decode(g + rest) == Some(x + y)
  {
    assert (g + rest)[..4] == g && (g + rest)[4..] == rest;
  }

  /** `Encode` of three or more bytes starts with the group of the first three. */
  lemma EncodeStep(b: seq<byte>)
    requires |b| >= 3
    ensures Encode(b) == EncodeGroup(b[0], b[1], b[2]) + Encode(b[3..])
  {
  }

  /** Exactly three bytes round-trip. */
  lemma ThreeBytesRoundTrip(b: seq<byte>)
    requires |b| == 3
    ensures Decode(Encode(b)) == Some(b)
  {
    EncodeStep(b);
    assert Encode(b[3..]) == "";
    assert Encode(b) == EncodeGroup(b[0], b[1], b[2]);
    GroupRoundTrip(b[0], b[1], b[2]);
    assert b == [b[0], b[1], b[2]];
  }

  lemma SplitThree(b: seq<byte>)
    requires |b| >= 3
    ensures b == [b[0], b[1], b[2]] + b[3..]
  {
  }

  /** One full group in front of more bytes that round-trip gives bytes that round-trip. */
  lemma GroupStep(b: seq<byte>)
    requires |b| > 3 && Decode(Encode(b[3..])) == Some(b[3..])
    ensures Decode(Encode(b)) == Some(b)
  {
    var g := EncodeGroup(b[0], b[1], b[2]);
    var rest := Encode(b[3..]);
    EncodeStep(b);
    GroupRoundTrip(b[0], b[1], b[2]);
    DecodeConcat(g, rest, [b[0], b[1], b[2]], b[3..]);
    SplitThree(b);
  }

  /** Decode inverts Encode. */
  lemma {:induction false} RoundTrip(b: seq<byte>)
    ensures Decode(Encode(b)) == Some(b)
    decreases |b|
  {
    if |b| == 0 {
    } else if |b| == 1 {
      OneByteRoundTrip(b[0]);
      assert b == [b[0]];
    } else if |b| == 2 {
      TwoBytesRoundTrip(b[0], b[1]);
      assert b == [b[0], b[1]];
    } else if |b| == 3 {
      ThreeBytesRoundTrip(b);
    } else {
      RoundTrip(b[3..]);
      GroupStep(b);
    }
  }
}
