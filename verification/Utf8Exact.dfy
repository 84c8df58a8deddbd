/** Strict decoding accepts nothing but encodings: no overlong form, no surrogate, no stray byte
    (section 3 of RFC 3629). */
module Utf8Exact {
  import opened Wrappers
  import opened Utf8

  lemma Digits64(x: nat, y: nat)
    requires y < 64
    ensures (x * 64 + y) / 64 == x && (x * 64 + y) % 64 == y
  {
  }

  lemma TwoBytes(b: seq<byte>)
    requires |b| >= 2 && 0xC0 <= b[0] < 0xE0 && IsContinuation(b[1]) && DecodeOne(b).Some?
    ensures b[..DecodeOne(b).value.1] == EncodeChar(DecodeOne(b).value.0)
  {
    Digits64(b[0] - 0xC0, b[1] - 0x80);
  }

  lemma ThreeBytes(b: seq<byte>)
    requires |b| >= 3 && 0xE0 <= b[0] < 0xF0 && IsContinuation(b[1]) && IsContinuation(b[2]) && DecodeOne(b).Some?
    ensures b[..DecodeOne(b).value.1] == EncodeChar(DecodeOne(b).value.0)
  {
    var x: nat, y: nat, z: nat := b[0] - 0xE0, b[1] - 0x80, b[2] - 0x80;
    Digits64(x, y);
    Digits64(x * 64 + y, z);
    assert x * 4096 + y * 64 + z == (x * 64 + y) * 64 + z;
    DivideTwice(x * 4096 + y * 64 + z);
  }

  lemma FourBytes(b: seq<byte>)
    requires |b| >= 4 && 0xF0 <= b[0] < 0xF8
    requires IsContinuation(b[1]) && IsContinuation(b[2]) && IsContinuation(b[3]) && DecodeOne(b).Some?
    ensures b[..DecodeOne(b).value.1] == EncodeChar(DecodeOne(b).value.0)
  {
    var x: nat, y: nat, z: nat, w: nat := b[0] - 0xF0, b[1] - 0x80, b[2] - 0x80, b[3] - 0x80;
    Digits64(x, y);
    Digits64(x * 64 + y, z);
    Digits64((x * 64 + y) * 64 + z, w);
    assert x * 262144 + y * 4096 + z * 64 + w == ((x * 64 + y) * 64 + z) * 64 + w;
    DivideTwice(x * 262144 + y * 4096 + z * 64 + w);
  }

  /** One character is decoded only from its own encoding. */
  lemma DecodedOneIsEncoded(b: seq<byte>)
    requires DecodeOne(b).Some?
    ensures b[..DecodeOne(b).value.1] == EncodeChar(DecodeOne(b).value.0)
  {
    if b[0] < 0x80 {
    } else if b[0] < 0xE0 {
      TwoBytes(b);
    } else if b[0] < 0xF0 {
      ThreeBytes(b);
    } else {
      FourBytes(b);
    }
  }

  /** Bytes decode to a text exactly when they are its encoding. */
  lemma {:induction false} StrictDecodesIff(b: seq<byte>, s: string)
    ensures DecodeStrict(b) == Some(s) <==> b == Encode(s)
    decreases |b|
  {
    if b == Encode(s) {
      StrictRoundTrip(s);
    }
    if b != [] && DecodeStrict(b) == Some(s) {
      var n := DecodeOne(b).value.1;
      DecodedOneIsEncoded(b);
      StrictDecodesIff(b[n..], s[1..]);
      assert b == b[..n] + b[n..];
    }
  }
}
