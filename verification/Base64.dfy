/** Decoding the submitted program text. Bytes are bit vectors, as the decoder shifts and masks. */
module Base64 {

  /* ---- the decoder ---- */

  /* ASCII codes */
  const UPPER_A: bv8 := 65
  const UPPER_Z: bv8 := 90
  const LOWER_A: bv8 := 97
  const LOWER_Z: bv8 := 122
  const DIGIT_0: bv8 := 48
  const DIGIT_9: bv8 := 57
  const PLUS: bv8 := 43
  const MINUS: bv8 := 45
  const SLASH: bv8 := 47
  const UNDERSCORE: bv8 := 95
  const PAD: bv8 := 61

  /** Base64CharToValue: both alphabets of RFC 4648 are understood. */
  function CharToValue(chr: bv8): bv8 {
    if UPPER_A <= chr <= UPPER_Z then chr - UPPER_A
    else if LOWER_A <= chr <= LOWER_Z then chr - LOWER_A + 26
    else if DIGIT_0 <= chr <= DIGIT_9 then chr - DIGIT_0 + 52
    else if chr == PLUS || chr == MINUS then 62
    else if chr == SLASH || chr == UNDERSCORE then 63
    else 0
  }

  function Byte0(v0: bv8, v1: bv8): bv8 { (v0 << 2) | ((v1 & 0x30) >> 4) }

  function Byte1(v1: bv8, v2: bv8): bv8 { ((v1 & 0x0f) << 4) | ((v2 & 0x3c) >> 2) }

  function Byte2(v2: bv8, v3: bv8): bv8 { ((v2 & 0x03) << 6) | v3 }

  /** What the last group, of at most four characters, decodes to. */
  function DecodedTail(s: seq<bv8>): seq<bv8>
    requires |s| <= 4
  {
    if |s| < 2 || s[1] == PAD then []
    else
      var v0, v1 := CharToValue(s[0]), CharToValue(s[1]);
      if |s| < 3 || s[2] == PAD then [Byte0(v0, v1)]
      else
        var v2 := CharToValue(s[2]);
        if |s| < 4 || s[3] == PAD then [Byte0(v0, v1), Byte1(v1, v2)]
        else [Byte0(v0, v1), Byte1(v1, v2), Byte2(v2, CharToValue(s[3]))]
  }

  /** Groups of four characters, the last one apart. */
  function Decoded(s: seq<bv8>): seq<bv8> {
    if |s| <= 4 then DecodedTail(s)
    else
      var v0, v1, v2, v3 := CharToValue(s[0]), CharToValue(s[1]), CharToValue(s[2]), CharToValue(s[3]);
      [Byte0(v0, v1), Byte1(v1, v2), Byte2(v2, v3)] + Decoded(s[4..])
  }

  function Group(s: seq<bv8>, i: nat): seq<bv8>
    requires i + 4 <= |s|
  {
    var v0, v1, v2, v3 := CharToValue(s[i]), CharToValue(s[i + 1]), CharToValue(s[i + 2]), CharToValue(s[i + 3]);
    [Byte0(v0, v1), Byte1(v1, v2), Byte2(v2, v3)]
  }

  lemma DecodedGroup(s: seq<bv8>, i: nat, out: seq<bv8>)
    requires i + 4 < |s|
    ensures out + Decoded(s[i..]) == (out + Group(s, i)) + Decoded(s[i + 4..])
  {
    hide CharToValue, Byte0, Byte1, Byte2;
    assert s[i..][4..] == s[i + 4..];
    assert Decoded(s[i..]) == Group(s, i) + Decoded(s[i + 4..]);
  }

  method OutputBase64(str: seq<bv8>) returns (out: seq<bv8>)
    ensures out == Decoded(str)
  {
    hide CharToValue, Byte0, Byte1, Byte2;
    out := [];
    var i := 0;
    while i + 4 < |str|
      invariant 0 <= i <= |str|
      invariant out + Decoded(str[i..]) == Decoded(str)
    {
      DecodedGroup(str, i, out);
      var v0, v1 := CharToValue(str[i]), CharToValue(str[i + 1]);
      var v2, v3 := CharToValue(str[i + 2]), CharToValue(str[i + 3]);
      out := out + [Byte0(v0, v1), Byte1(v1, v2), Byte2(v2, v3)];
      i := i + 4;
    }
    var tail := OutputTail(str, i);
    out := out + tail;
  }

  /** The code behind the loop: it stops at the end of the text or at padding. */
  method OutputTail(str: seq<bv8>, i: nat) returns (out: seq<bv8>)
    requires i <= |str| <= i + 4
    ensures out == Decoded(str[i..])
  {
    hide CharToValue, Byte0, Byte1, Byte2;
    out := [];
    if i + 1 >= |str| || str[i + 1] == PAD { return; }
    var v0, v1 := CharToValue(str[i]), CharToValue(str[i + 1]);
    out := [Byte0(v0, v1)];
    if i + 2 >= |str| || str[i + 2] == PAD { return; }
    var v2 := CharToValue(str[i + 2]);
    out := out + [Byte1(v1, v2)];
    if i + 3 >= |str| || str[i + 3] == PAD { return; }
    out := out + [Byte2(v2, CharToValue(str[i + 3]))];
  }

  /* ---- the encoding it undoes ---- */

  /** Table 1 (section 4) or Table 2 (section 5, `url`) of RFC 4648. */
  function Letter(v: bv8, url: bool): bv8 {
    if v < 26 then UPPER_A + v
    else if v < 52 then LOWER_A + (v - 26)
    else if v < 62 then DIGIT_0 + (v - 52)
    else if v == 62 then if url then MINUS else PLUS
    else if url then UNDERSCORE else SLASH
  }

  function Padding(pad: bool, n: nat): seq<bv8> { if pad then seq(n, _ => PAD) else [] }

  function Letters1(b: bv8, url: bool): seq<bv8> { [Letter(b >> 2, url), Letter((b & 3) << 4, url)] }

  function Letters2(b0: bv8, b1: bv8, url: bool): seq<bv8> {
    [Letter(b0 >> 2, url), Letter(((b0 & 3) << 4) | (b1 >> 4), url), Letter((b1 & 15) << 2, url)]
  }

  function Letters3(b0: bv8, b1: bv8, b2: bv8, url: bool): seq<bv8> {
    [Letter(b0 >> 2, url), Letter(((b0 & 3) << 4) | (b1 >> 4), url),
     Letter(((b1 & 15) << 2) | (b2 >> 6), url), Letter(b2 & 63, url)]
  }

  /** Three bytes become four letters; a last group of one or two bytes becomes two or three
      letters, padded or not. */
  function Encoded(bytes: seq<bv8>, url: bool, pad: bool): seq<bv8> {
    if |bytes| == 0 then []
    else if |bytes| == 1 then Letters1(bytes[0], url) + Padding(pad, 2)
    else if |bytes| == 2 then Letters2(bytes[0], bytes[1], url) + Padding(pad, 1)
    else Letters3(bytes[0], bytes[1], bytes[2], url) + Encoded(bytes[3..], url, pad)
  }

  lemma LetterValue(v: bv8, url: bool)
    requires v < 64
    ensures CharToValue(Letter(v, url)) == v && Letter(v, url) != PAD
  {
  }

  lemma GroupBits(b0: bv8, b1: bv8, b2: bv8)
    ensures b0 >> 2 < 64 && ((b0 & 3) << 4) | (b1 >> 4) < 64 && ((b1 & 15) << 2) | (b2 >> 6) < 64 && b2 & 63 < 64
    ensures Byte0(b0 >> 2, ((b0 & 3) << 4) | (b1 >> 4)) == b0
    ensures Byte1(((b0 & 3) << 4) | (b1 >> 4), ((b1 & 15) << 2) | (b2 >> 6)) == b1
    ensures Byte2(((b1 & 15) << 2) | (b2 >> 6), b2 & 63) == b2
  {
  }

  /** Decoding undoes the encoding, in either alphabet, padded or not. */
  lemma {:induction false} RoundTrip(bytes: seq<bv8>, url: bool, pad: bool)
    ensures Decoded(Encoded(bytes, url, pad)) == bytes
  {
    hide Decoded, Letters1, Letters2, Letters3;
    if |bytes| == 0 {
      NothingDecoded();
    } else if |bytes| == 1 {
      RoundTripOne(bytes[0], url, pad);
    } else if |bytes| == 2 {
      RoundTripTwo(bytes[0], bytes[1], url, pad);
    } else {
      RoundTrip(bytes[3..], url, pad);
      RoundTripThree(bytes[0], bytes[1], bytes[2], url, Encoded(bytes[3..], url, pad));
      assert bytes == [bytes[0], bytes[1], bytes[2]] + bytes[3..];
    }
  }

  lemma NothingDecoded()
    ensures Decoded([]) == []
  {
  }

  lemma RoundTripOne(b: bv8, url: bool, pad: bool)
    ensures Decoded(Letters1(b, url) + Padding(pad, 2)) == [b]
  {
    GroupBits(b, 0, 0);
    LetterValue(b >> 2, url);
    LetterValue((b & 3) << 4, url);
  }

  lemma RoundTripTwo(b0: bv8, b1: bv8, url: bool, pad: bool)
    ensures Decoded(Letters2(b0, b1, url) + Padding(pad, 1)) == [b0, b1]
  {
    GroupBits(b0, b1, 0);
    LetterValue(b0 >> 2, url);
    LetterValue(((b0 & 3) << 4) | (b1 >> 4), url);
    LetterValue((b1 & 15) << 2, url);
  }

  lemma RoundTripThree(b0: bv8, b1: bv8, b2: bv8, url: bool, rest: seq<bv8>)
    ensures Decoded(Letters3(b0, b1, b2, url) + rest) == [b0, b1, b2] + Decoded(rest)
  {
    GroupBits(b0, b1, b2);
    LetterValue(b0 >> 2, url);
    LetterValue(((b0 & 3) << 4) | (b1 >> 4), url);
    LetterValue(((b1 & 15) << 2) | (b2 >> 6), url);
    LetterValue(b2 & 63, url);
    var s := Letters3(b0, b1, b2, url);
    assert (s + rest)[4..] == rest;
    if rest == [] { assert s + rest == s; }
  }
}
