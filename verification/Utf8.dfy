/** UTF-8 (section 3 of RFC 3629), as Python's str.encode and bytes.decode use it. */
module Utf8 {
  import opened Wrappers

  type byte = b: int | 0 <= b < 256

  function EncodeChar(c: char): (r: seq<byte>)
    ensures 1 <= |r| <= 4
  {
    var n := c as int;
    if n < 0x80 then
      [n]
    else if n < 0x800 then
      [0xC0 + n / 64, 0x80 + n % 64]
    else if n < 0x1_0000 then
      [0xE0 + n / 4096, 0x80 + n / 64 % 64, 0x80 + n % 64]
    else
      [0xF0 + n / 262144, 0x80 + n / 4096 % 64, 0x80 + n / 64 % 64, 0x80 + n % 64]
  }

  function Encode(s: string): seq<byte> {
    if s == [] then [] else EncodeChar(s[0]) + Encode(s[1..])
  }

  predicate IsContinuation(b: byte) {
    0x80 <= b < 0xC0
  }

  predicate IsScalar(n: int) {
    0 <= n < 0xD800 || 0xE000 <= n < 0x11_0000
  }

  /** The payload bits of a byte below its marker. */
  function Bits(b: byte, marker: int): int {
    b as int - marker
  }

  function ScalarIn(n: int, low: int, length: nat): Option<(char, nat)> {
    if low <= n && IsScalar(n) then Some((n as char, length)) else None
  }

  /** The character a well-formed sequence at the head of `b` stands for, and its length. Overlong
      forms, surrogates and values past U+10FFFF are ill-formed. */
  function DecodeOne(b: seq<byte>): (r: Option<(char, nat)>)
    ensures r.Some? ==> 1 <= r.value.1 <= |b|
  {
    if b == [] then
      None
    else if b[0] < 0x80 then
      ScalarIn(Bits(b[0], 0), 0, 1)
    else if 0xC0 <= b[0] < 0xE0 && |b| >= 2 && IsContinuation(b[1]) then
      ScalarIn(Bits(b[0], 0xC0) * 64 + Bits(b[1], 0x80), 0x80, 2)
    else if 0xE0 <= b[0] < 0xF0 && |b| >= 3 && IsContinuation(b[1]) && IsContinuation(b[2]) then
      ScalarIn(Bits(b[0], 0xE0) * 4096 + Bits(b[1], 0x80) * 64 + Bits(b[2], 0x80), 0x800, 3)
    else if 0xF0 <= b[0] < 0xF8 && |b| >= 4
            && IsContinuation(b[1]) && IsContinuation(b[2]) && IsContinuation(b[3]) then
      ScalarIn(Bits(b[0], 0xF0) * 262144 + Bits(b[1], 0x80) * 4096 + Bits(b[2], 0x80) * 64
               + Bits(b[3], 0x80), 0x1_0000, 4)
    else
      None
  }

  /** bytes.decode(): one ill-formed byte fails the whole. */
  function DecodeStrict(b: seq<byte>): Option<string> {
    if b == [] then
      Some([])
    else
      match DecodeOne(b)
      case None => None
      case Some((c, n)) =>
        match DecodeStrict(b[n..])
        case None => None
        case Some(rest) => Some([c] + rest)
  }

  /** bytes.decode(errors="ignore"): bytes that start no well-formed sequence are dropped. */
  function DecodeIgnore(b: seq<byte>): string {
    if b == [] then
      []
    else
      match DecodeOne(b)
      case None => DecodeIgnore(b[1..])
      case Some((c, n)) => [c] + DecodeIgnore(b[n..])
  }

  lemma EncodeConcat(s: string, t: string)
    ensures Encode(s + t) == Encode(s) + Encode(t)
  {
    if s == [] {
      assert s + t == t;
    } else {
      assert (s + t)[1..] == s[1..] + t;
      EncodeConcat(s[1..], t);
    }
  }

  lemma EncodeSingle(c: char)
    ensures Encode([c]) == EncodeChar(c)
  {
    assert [c][1..] == [];
  }

  lemma SplitBase64(n: nat)
    ensures n == n / 4096 * 4096 + n / 64 % 64 * 64 + n % 64
    ensures n == n / 262144 * 262144 + n / 4096 % 64 * 4096 + n / 64 % 64 * 64 + n % 64
  {
    DivideTwice(n);
    SplitDigit(n);
    SplitDigit(n / 64);
    SplitDigit(n / 4096);
  }

  lemma DivideTwice(n: nat)
    ensures n / 64 / 64 == n / 4096 && n / 4096 / 64 == n / 262144
  {
  }

  lemma SplitDigit(n: nat)
    ensures n == n / 64 * 64 + n % 64
  {
  }

  lemma DecodeOneOfEncode(c: char, rest: seq<byte>)
    ensures DecodeOne(EncodeChar(c) + rest) == Some((c, |EncodeChar(c)|))
  {
    var n := c as int;
    var e := EncodeChar(c);
    var b := e + rest;
    SplitBase64(n);
    assert b[0] == e[0];
    if 0x80 <= n {
      assert b[1] == e[1];
    }
    if 0x800 <= n {
      assert b[2] == e[2];
    }
    if 0x1_0000 <= n {
      assert b[3] == e[3];
    }
  }

  /** Strict decoding inverts encoding, for every string. */
  lemma {:induction false} StrictRoundTrip(s: string)
    ensures DecodeStrict(Encode(s)) == Some(s)
  {
    if s != [] {
      StrictHead(s[0], Encode(s[1..]));
      StrictRoundTrip(s[1..]);
      assert [s[0]] + s[1..] == s;
    }
  }

  lemma {:induction false} ContinuationsIgnored(b: seq<byte>)
    requires forall i :: 0 <= i < |b| ==> IsContinuation(b[i])
    ensures DecodeIgnore(b) == []
  {
    if b != [] {
      ContinuationsIgnored(b[1..]);
    }
  }

  /** A character cut short contributes nothing. */
  lemma TruncatedCharIgnored(c: char, k: nat)
    requires k < |EncodeChar(c)|
    ensures DecodeIgnore(EncodeChar(c)[..k]) == []
  {
    var b := EncodeChar(c)[..k];
    if k > 0 {
      assert DecodeOne(b) == None;
      ContinuationsIgnored(b[1..]);
    }
  }

  lemma DecodeIgnoreHead(c: char, rest: seq<byte>)
    ensures DecodeIgnore(EncodeChar(c) + rest) == [c] + DecodeIgnore(rest)
  {
    DecodeOneOfEncode(c, rest);
    assert (EncodeChar(c) + rest)[|EncodeChar(c)|..] == rest;
  }

  /** `d` is a run of whole characters of `s` that k bytes hold and one more would overflow. */
  ghost predicate FillsPrefix(d: string, s: string, k: nat) {
    && d <= s && |Encode(d)| <= k
    && (d == s || k < |Encode(d)| + |EncodeChar(s[|d|])|)
  }

  lemma FillsPrefixCons(c: char, d: string, s: string, k: nat)
    requires FillsPrefix(d, s, k)
    ensures FillsPrefix([c] + d, [c] + s, |EncodeChar(c)| + k)
  {
    EncodeConcat([c], d);
    EncodeSingle(c);
    if d != s {
      assert ([c] + s)[|d| + 1] == s[|d|];
    }
  }

  lemma EncodeCut(s: string, m: nat)
    requires s != [] && m <= |Encode(s)|
    ensures var first := EncodeChar(s[0]);
            if m < |first| then Encode(s)[..m] == first[..m]
            else (
              && m - |first| <= |Encode(s[1..])|
              && Encode(s)[..m] == first + Encode(s[1..])[..m - |first|])
  {
  }

  lemma FillsPrefixStep(s: string, rest: seq<byte>, k: nat)
    requires s != [] && FillsPrefix(DecodeIgnore(rest), s[1..], k)
    ensures FillsPrefix(DecodeIgnore(EncodeChar(s[0]) + rest), s, |EncodeChar(s[0])| + k)
  {
    DecodeIgnoreHead(s[0], rest);
    FillsPrefixCons(s[0], DecodeIgnore(rest), s[1..], k);
    assert [s[0]] + s[1..] == s;
  }

  lemma FillsNothing(s: string, k: nat)
    requires s != [] && k < |EncodeChar(s[0])|
    ensures FillsPrefix([], s, k)
  {
  }

  /** Decoding the first k bytes of an encoding yields the longest run of whole characters that fits
      in them, so at most the three bytes of one split character are lost. */
  lemma {:induction false} DecodePrefix(s: string, k: nat)
    requires k <= |Encode(s)|
    ensures FillsPrefix(DecodeIgnore(Encode(s)[..k]), s, k)
  {
    if s != [] {
      var size := |EncodeChar(s[0])|;
      EncodeCut(s, k);
      if k < size {
        TruncatedCharIgnored(s[0], k);
        FillsNothing(s, k);
      } else {
        DecodePrefix(s[1..], k - size);
        FillsPrefixStep(s, Encode(s[1..])[..k - size], k - size);
      }
    }
  }

  function Prepend(s: string, decoded: Option<string>): Option<string> {
    if decoded.None? then None else Some(s + decoded.value)
  }

  lemma PrependTwice(c: char, s: string, decoded: Option<string>)
    ensures Prepend([c], Prepend(s, decoded)) == Prepend([c] + s, decoded)
  {
    if decoded.Some? {
      assert [c] + (s + decoded.value) == [c] + s + decoded.value;
    }
  }

  lemma StrictHead(c: char, rest: seq<byte>)
    ensures DecodeStrict(EncodeChar(c) + rest) == Prepend([c], DecodeStrict(rest))
  {
    DecodeOneOfEncode(c, rest);
    assert (EncodeChar(c) + rest)[|EncodeChar(c)|..] == rest;
  }

  lemma Reassociate(a: seq<byte>, b: seq<byte>, c: seq<byte>)
    ensures a + b + c == a + (b + c)
  {
  }

  /** Strict decoding of an encoding followed by more bytes decodes both. */
  lemma {:induction false} StrictConcat(s: string, b: seq<byte>)
    ensures DecodeStrict(Encode(s) + b) == Prepend(s, DecodeStrict(b))
  {
    if s == [] {
      assert [] + b == b;
      assert DecodeStrict(b).Some? ==> [] + DecodeStrict(b).value == DecodeStrict(b).value;
    } else {
      Reassociate(EncodeChar(s[0]), Encode(s[1..]), b);
      StrictHead(s[0], Encode(s[1..]) + b);
      StrictConcat(s[1..], b);
      PrependTwice(s[0], s[1..], DecodeStrict(b));
      assert [s[0]] + s[1..] == s;
    }
  }

  lemma TruncatedCharUndecodable(c: char, m: nat)
    requires 0 < m < |EncodeChar(c)|
    ensures DecodeStrict(EncodeChar(c)[..m]) == None
  {
  }

  lemma CharTailUndecodable(c: char, m: nat, rest: seq<byte>)
    requires 0 < m < |EncodeChar(c)|
    ensures DecodeStrict(EncodeChar(c)[m..] + rest) == None
  {
    assert IsContinuation((EncodeChar(c)[m..] + rest)[0]);
  }

  /** A cut encoding decodes, if at all, to a cut of the text: its front part... */
  lemma {:induction false} CutFront(s: string, m: nat) returns (k: nat)
    requires m < |Encode(s)|
    ensures k < |s| && (m > 0 && DecodeStrict(Encode(s)[..m]).Some? ==> k > 0)
    ensures DecodeStrict(Encode(s)[..m]).Some? ==> DecodeStrict(Encode(s)[..m]).value == s[..k]
  {
    var size := |EncodeChar(s[0])|;
    EncodeCut(s, m);
    if m < size {
      k := 0;
      if m > 0 {
        TruncatedCharUndecodable(s[0], m);
      }
    } else {
      k := CutFront(s[1..], m - size);
      CutFrontStep(s, Encode(s[1..])[..m - size], k);
      k := k + 1;
    }
  }

  lemma CutFrontStep(s: string, rest: seq<byte>, k: nat)
    requires s != [] && k <= |s[1..]|
    requires DecodeStrict(rest).Some? ==> DecodeStrict(rest).value == s[1..][..k]
    ensures var decoded := DecodeStrict(EncodeChar(s[0]) + rest);
            decoded.Some? ==> decoded.value == s[..k + 1]
  {
    StrictHead(s[0], rest);
    assert [s[0]] + s[1..][..k] == s[..k + 1];
  }

  /** ...or its back part. */
  lemma {:induction false} CutBack(s: string, m: nat) returns (k: nat)
    requires 0 < m < |Encode(s)|
    ensures 0 < k < |s|
            || DecodeStrict(Encode(s)[m..]) == None
    ensures DecodeStrict(Encode(s)[m..]).Some? ==>
              k <= |s| && DecodeStrict(Encode(s)[m..]).value == s[k..]
  {
    var first := EncodeChar(s[0]);
    k := 1;
    if m < |first| {
      assert Encode(s)[m..] == first[m..] + Encode(s[1..]);
      CharTailUndecodable(s[0], m, Encode(s[1..]));
    } else if m == |first| {
      assert Encode(s)[m..] == Encode(s[1..]);
      StrictRoundTrip(s[1..]);
    } else {
      assert Encode(s)[m..] == Encode(s[1..])[m - |first|..];
      k := CutBack(s[1..], m - |first|);
      k := k + 1;
    }
  }
}
