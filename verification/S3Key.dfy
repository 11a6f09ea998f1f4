/**
 Decoding of S3 event keys (`decode_s3_event_key` in s3.rs): percent escapes as in section 2.1 of
 RFC 3986, and `+` for a space.
 */
module S3Key {
  import opened Wrappers

  type byte = x: int | 0 <= x < 256

  const PERCENT: byte := 0x25
  const PLUS: byte := 0x2B
  const SPACE: byte := 0x20

  /** The value of an ASCII hexadecimal digit. */
  function HexValue(b: byte): (v: Option<byte>)
    ensures v.Some? ==> v.value < 16
  {
    if 0x30 <= b <= 0x39 then Some(b - 0x30)
    else if 0x41 <= b <= 0x46 then Some(b - 0x41 + 10)
    else if 0x61 <= b <= 0x66 then Some(b - 0x61 + 10)
    else None
  }

  /** `u8::from_str_radix` on two bytes: two digits, or a plus sign and one digit. */
  function FromRadix16(a: byte, b: byte): Option<byte>
  {
    match HexValue(b)
    case None => None
    case Some(lo) =>
      if a == PLUS then Some(lo)
      else match HexValue(a) case Some(hi) => Some(16 * hi + lo) case None => None
  }

  function Decode(s: seq<byte>): (out: seq<byte>)
    ensures |out| <= |s|
  {
    if s == [] then []
    else if s[0] == PLUS then [SPACE] + Decode(s[1..])
    else if s[0] == PERCENT && |s| > 2 && FromRadix16(s[1], s[2]).Some? then
      [FromRadix16(s[1], s[2]).value] + Decode(s[3..])
    else [s[0]] + Decode(s[1..])
  }

  method DecodeS3EventKey(bytes: seq<byte>) returns (out: seq<byte>)
    ensures out == Decode(bytes)
  {
    out := [];
    var i := 0;
    while i < |bytes|
      invariant 0 <= i <= |bytes|
      invariant Decode(bytes) == out + Decode(bytes[i..])
    {
      ghost var rest := bytes[i..];
      var b, width := bytes[i], 1;
      if bytes[i] == PLUS {
        b := SPACE;
      } else if bytes[i] == PERCENT && i + 2 < |bytes| {
        var v := FromRadix16(bytes[i + 1], bytes[i + 2]);
        if v.Some? {
          b, width := v.value, 3;
        }
      }
      assert Decode(rest) == [b] + Decode(rest[width..]);
      assert rest[width..] == bytes[i + width..];
      Regroup(out, b, Decode(rest[width..]));
      out := out + [b];
      i := i + width;
    }
    assert out + [] == out;
  }

  lemma Regroup(a: seq<byte>, b: byte, c: seq<byte>)
    ensures a + ([b] + c) == (a + [b]) + c
  {
  }

  // ---- The encoder the decoder must undo ----

  function HexDigit(v: byte, upper: bool): byte
    requires v < 16
  {
    if v < 10 then 0x30 + v else if upper then 0x41 + (v - 10) else 0x61 + (v - 10)
  }

  /**
   Any encoder of the standard: which bytes it escapes and in which case it writes the digits is its
   own choice, but a literal `%` or `+` must be escaped. An unescaped space is written as `+`.
   */
  datatype Encoder = Encoder(escapes: byte -> bool, upper: byte -> bool)

  ghost predicate Standard(e: Encoder)
  {
    e.escapes(PERCENT) && e.escapes(PLUS)
  }

  function EncodeByte(e: Encoder, b: byte): seq<byte>
  {
    if e.escapes(b) then [PERCENT, HexDigit(b / 16, e.upper(b)), HexDigit(b % 16, e.upper(b))]
    else if b == SPACE then [PLUS]
    else [b]
  }

  function Encode(e: Encoder, bs: seq<byte>): seq<byte>
  {
    if bs == [] then [] else EncodeByte(e, bs[0]) + Encode(e, bs[1..])
  }

  lemma DecodeByte(e: Encoder, b: byte, rest: seq<byte>)
    requires Standard(e)
    ensures Decode(EncodeByte(e, b) + rest) == [b] + Decode(rest)
  {
    var head := EncodeByte(e, b);
    assert (head + rest)[|head|..] == rest;
  }

  /** Round trip: every byte sequence survives encoding and decoding, whichever encoder wrote it. */
  lemma {:induction false} DecodeUndoesEncode(e: Encoder, bs: seq<byte>)
    requires Standard(e)
    ensures Decode(Encode(e, bs)) == bs
  {
    if bs != [] {
      DecodeUndoesEncode(e, bs[1..]);
      DecodeByte(e, bs[0], Encode(e, bs[1..]));
      assert bs == [bs[0]] + bs[1..];
    }
  }

  /** A digit, or one of the letters A to F in either case. */
  predicate IsHex(b: byte)
  {
    0x30 <= b <= 0x39 || 0x41 <= b <= 0x46 || 0x61 <= b <= 0x66
  }

  lemma TwoPlainBytes(rest: seq<byte>)
    requires |rest| >= 2 && IsHex(rest[1]) && (IsHex(rest[0]) || rest[0] == PLUS)
    ensures |Decode(rest)| == 2 + |Decode(rest[2..])|
  {
    var tail := rest[1..];
    assert tail[1..] == rest[2..];
    assert Decode(tail) == [tail[0]] + Decode(tail[1..]);
    assert |Decode(rest)| == 1 + |Decode(tail)|;
  }

  lemma EscapeShortens(rest: seq<byte>)
    requires |rest| >= 2 && FromRadix16(rest[0], rest[1]).Some?
    ensures |Decode([PERCENT] + rest)| == 1 + |Decode(rest[2..])|
  {
    var s := [PERCENT] + rest;
    assert s[3..] == rest[2..] && s[1] == rest[0] && s[2] == rest[1];
  }

  /**
   A percent sign passes through, and everything after it is decoded as if it stood alone, exactly
   when it is not followed by two hexadecimal digits and also not by a plus sign and one.
   */
  lemma PercentPassesIff(rest: seq<byte>)
    ensures Decode([PERCENT] + rest) == [PERCENT] + Decode(rest) <==>
            !(|rest| >= 2 && IsHex(rest[1]) && (IsHex(rest[0]) || rest[0] == PLUS))
  {
    var s := [PERCENT] + rest;
    assert s[1..] == rest;
    if |rest| >= 2 && IsHex(rest[1]) && (IsHex(rest[0]) || rest[0] == PLUS) {
      TwoPlainBytes(rest);
      EscapeShortens(rest);
    }
  }

  /** A byte is read as the digit `v` exactly when an encoder writes that digit so, in one of the two cases. */
  lemma HexValueIff(b: byte, v: byte)
    requires v < 16
    ensures HexValue(b) == Some(v) <==> b == HexDigit(v, false) || b == HexDigit(v, true)
    ensures HexValue(b).Some? <==> IsHex(b)
  {
  }

  /**
   A percent sign, a plus sign and a digit are no escape of the standard, and yet they decode to the
   single byte of that value, whatever follows; as text they would be a percent sign, a space and the digit.
   */
  lemma PlusDigitIsTakenForAnEscape(v: byte, upper: bool, rest: seq<byte>)
    requires v < 16
    ensures Decode([PERCENT, PLUS, HexDigit(v, upper)] + rest) == [v] + Decode(rest)
    ensures Decode([PERCENT, PLUS, HexDigit(v, upper)] + rest) != [PERCENT, SPACE, HexDigit(v, upper)] + Decode(rest)
  {
    var s := [PERCENT, PLUS, HexDigit(v, upper)] + rest;
    HexValueIff(s[2], v);
    assert s[3..] == rest;
  }

  /** Text without `%` and `+` is left alone. */
  lemma {:induction false} PlainTextIsKept(s: seq<byte>)
    requires PERCENT !in s && PLUS !in s
    ensures Decode(s) == s
  {
    if s != [] {
      PlainTextIsKept(s[1..]);
      assert s == [s[0]] + s[1..];
    }
  }
}
