/** UTF-8, the encoding of a Rust `&str`: the bytes `as_bytes()` hands to a
    writer (examples/t-clip.rs:67). Encoding follows section 3 of RFC 3629;
    the decoder beside it accepts exactly the well-formed sequences and is
    the encoder's inverse. */
module Utf8 {
  import opened Wrappers

  newtype Byte = b: int | 0 <= b < 256

  /** The one to four bytes of one Unicode scalar value. */
  function EncodeScalar(c: char): (bs: seq<Byte>)
    ensures 1 <= |bs| <= 4
    ensures |bs| == 1 <==> (c as int) < 0x80
    ensures |bs| == 1 ==> bs[0] as int == c as int
  {
    var n := c as int;
    if n < 0x80 then
      [n as Byte]
    else if n < 0x800 then
      [(0xC0 + n / 0x40) as Byte, (0x80 + n % 0x40) as Byte]
    else if n < 0x10000 then
      [(0xE0 + n / 0x1000) as Byte, (0x80 + n / 0x40 % 0x40) as Byte, (0x80 + n % 0x40) as Byte]
    else
      [(0xF0 + n / 0x40000) as Byte, (0x80 + n / 0x1000 % 0x40) as Byte,
       (0x80 + n / 0x40 % 0x40) as Byte, (0x80 + n % 0x40) as Byte]
  }

  /** `s.as_bytes()`: the concatenated encodings of the characters, one to
      four bytes each. */
  function Encode(s: string): (bs: seq<Byte>)
    ensures |s| <= |bs| <= 4 * |s|
  {
    if s == [] then [] else EncodeScalar(s[0]) + Encode(s[1..])
  }

  predicate IsContinuation(b: Byte) {
    0x80 <= b < 0xC0
  }

  function Payload(b: Byte): int {
    b as int - 0x80
  }

  /** The scalar value at the front of `bs` and the number of bytes it
      takes, or `None` when the front is not a well-formed UTF-8 sequence
      (a stray continuation byte, a truncated sequence, an overlong form,
      a surrogate, or a value past U+10FFFF). */
  function DecodeScalar(bs: seq<Byte>): (r: Option<(char, nat)>)
    ensures r.Some? ==> 1 <= r.value.1 <= |bs| && r.value.1 <= 4
  {
    if |bs| == 0 then None
    else
      var b0 := bs[0] as int;
      if b0 < 0x80 then
        Some((b0 as char, 1))
      else if 0xC2 <= b0 < 0xE0 then
        if |bs| >= 2 && IsContinuation(bs[1]) then
          Some((((b0 - 0xC0) * 0x40 + Payload(bs[1])) as char, 2))
        else None
      else if 0xE0 <= b0 < 0xF0 then
        if |bs| >= 3 && IsContinuation(bs[1]) && IsContinuation(bs[2]) then
          var n := (b0 - 0xE0) * 0x1000 + Payload(bs[1]) * 0x40 + Payload(bs[2]);
          if 0x800 <= n && !(0xD800 <= n < 0xE000) then Some((n as char, 3)) else None
        else None
      else if 0xF0 <= b0 < 0xF5 then
        if |bs| >= 4 && IsContinuation(bs[1]) && IsContinuation(bs[2]) && IsContinuation(bs[3]) then
          var n := (b0 - 0xF0) * 0x40000 + Payload(bs[1]) * 0x1000 + Payload(bs[2]) * 0x40 + Payload(bs[3]);
          if 0x10000 <= n < 0x110000 then Some((n as char, 4)) else None
        else None
      else None
  }

  /** The text a byte sequence encodes, or `None` if it is not UTF-8. */
  function Decode(bs: seq<Byte>): Option<string>
    decreases |bs|
  {
    if bs == [] then Some([])
    else
      match DecodeScalar(bs)
      case None => None
      case Some((c, k)) =>
        match Decode(bs[k..])
        case None => None
        case Some(rest) => Some([c] + rest)
  }

  /** Decoding the front of an encoded scalar gives the scalar back and
      consumes exactly its bytes, whatever follows. */
  lemma DecodeEncodeScalar(c: char, rest: seq<Byte>)
    ensures DecodeScalar(EncodeScalar(c) + rest) == Some((c, |EncodeScalar(c)|))
  {
    var n := c as int;
    if n < 0x80 {
    } else if n < 0x800 {
      DecodeTwo(c, rest);
    } else if n < 0x10000 {
      DecodeThree(c, rest);
    } else {
      DecodeFour(c, rest);
    }
  }

  lemma DecodeTwo(c: char, rest: seq<Byte>)
    requires 0x80 <= c as int < 0x800
    ensures DecodeScalar(EncodeScalar(c) + rest) == Some((c, 2))
  {
  }

  lemma DecodeThree(c: char, rest: seq<Byte>)
    requires 0x800 <= c as int < 0x10000
    ensures DecodeScalar(EncodeScalar(c) + rest) == Some((c, 3))
  {
    SplitBy64(c as int, 0x40);
  }

  lemma DecodeFour(c: char, rest: seq<Byte>)
    requires 0x10000 <= c as int
    ensures DecodeScalar(EncodeScalar(c) + rest) == Some((c, 4))
  {
    SplitBy64(c as int, 0x40);
    SplitBy64(c as int, 0x1000);
  }

  /** Splitting the quotient `n / d` once more by 64. */
  lemma SplitBy64(n: nat, d: nat)
    requires d == 0x40 || d == 0x1000
    ensures n / (d * 0x40) * (d * 0x40) + (n / d % 0x40) * d + n % d == n
  {
  }

  /** Decoding undoes encoding for every text. */
  lemma {:induction false} DecodeEncode(s: string)
    ensures Decode(Encode(s)) == Some(s)
  {
    if s != [] {
      var head := EncodeScalar(s[0]);
      var tail := Encode(s[1..]);
      DecodeEncodeScalar(s[0], tail);
      assert (head + tail)[|head|..] == tail;
      DecodeEncode(s[1..]);
      assert [s[0]] + s[1..] == s;
    }
  }

  /** An ASCII text is its own encoding, one byte per character. */
  lemma {:induction false} AsciiIsIdentity(s: string)
    requires forall i :: 0 <= i < |s| ==> (s[i] as int) < 0x80
    ensures |Encode(s)| == |s|
    ensures forall i :: 0 <= i < |s| ==> Encode(s)[i] as int == s[i] as int
  {
    if s != [] {
      AsciiIsIdentity(s[1..]);
      assert Encode(s) == EncodeScalar(s[0]) + Encode(s[1..]);
    }
  }
}
