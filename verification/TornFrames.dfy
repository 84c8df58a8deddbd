/** What becomes of a frame stream that ends inside a frame, and of a tool use whose input does not load:
    agent.py, decode_frames. */
module TornFrames {
  import opened Wrappers
  import opened Utf8
  import opened Framing
  import Decimal

  lemma CutField(before: seq<byte>, tag: byte, field: seq<byte>, payload: seq<byte>, m: nat)
    requires |field| == 8 && 9 <= m <= 9 + |payload|
    ensures var data, i := before + ([tag] + field + payload)[..m], |before|;
            && |data| == i + m && data[i] == tag
            && Slice(data, i + 1, i + 9) == field
            && Slice(data, i + 9, i + 9 + |payload|) == payload[..m - 9]
  {
    var data, i := before + ([tag] + field + payload)[..m], |before|;
    assert data[i + 1..i + 9] == field;
    assert data[i + 9..] == payload[..m - 9];
  }

  /** A frame whose payload did not arrive whole is refused, wherever it stands. */
  lemma TornPayloadIsRefused(before: seq<byte>, f: RawFrame, m: nat)
    requires |f.payload| < MAX_PAYLOAD && 9 <= m < |FrameBytes(f)|
    ensures FrameAt(before + FrameBytes(f)[..m], |before|) == Err(Truncated)
  {
    LengthFieldReads(|f.payload|);
    CutField(before, f.tag, Encode(Decimal.Pad8(|f.payload|)), f.payload, m);
  }

  lemma {:induction false} ZeroIff(s: string)
    requires forall i :: 0 <= i < |s| ==> Decimal.IsDigit(s[i])
    ensures Decimal.Value(s) == 0 <==> forall i :: 0 <= i < |s| ==> s[i] == '0'
  {
    if s != "" {
      ZeroIff(s[..|s| - 1]);
    }
  }

  lemma EncodedPart(s: string, k: nat)
    requires k <= |s| && |Encode(s[..k])| == k
    ensures |Encode(s)| >= k && Encode(s)[..k] == Encode(s[..k])
  {
    assert s == s[..k] + s[k..];
    EncodeConcat(s[..k], s[k..]);
  }

  lemma PartOfField(field: string, k: nat)
    requires 0 < k <= |field| <= 8 && forall i :: 0 <= i < |field| ==> Decimal.IsDigit(field[i])
    ensures |Encode(field)| == |field|
    ensures ParseIntBytes(Encode(field)[..k]) == Some(Decimal.Value(field[..k]))
  {
    AsciiBytes(field);
    AsciiBytes(field[..k]);
    EncodedPart(field, k);
    Decimal.ParseDigits(field[..k]);
  }

  lemma CutInField(before: seq<byte>, tag: byte, field: seq<byte>, payload: seq<byte>, m: nat)
    requires |field| == 8 && 0 < m < 9
    ensures var data, i := before + ([tag] + field + payload)[..m], |before|;
            && |data| == i + m && data[i] == tag
            && Slice(data, i + 1, i + 9) == field[..m - 1]
  {
    var data, i := before + ([tag] + field + payload)[..m], |before|;
    assert data[i + 1..] == field[..m - 1];
  }

  /** A stream that ends inside a frame's length is read as if the frame were whole and empty exactly when
      some of the length arrived and all of that is zeros; otherwise it is refused. */
  lemma TornLengthIff(before: seq<byte>, f: RawFrame, m: nat)
    requires |f.payload| < MAX_PAYLOAD && 0 < m < 9 && m <= |FrameBytes(f)|
    ensures var got, field := FrameAt(before + FrameBytes(f)[..m], |before|), Decimal.Pad8(|f.payload|);
            && (got.Ok? <==> m > 1 && forall i :: 0 <= i < m - 1 ==> field[i] == '0')
            && (got.Ok? ==> got.value == RawFrame(f.tag, []))
  {
    Decimal.Pad8Reads(|f.payload|);
    CutFieldReads(before, f.tag, Decimal.Pad8(|f.payload|), f.payload, m);
  }

  lemma CutFieldReads(before: seq<byte>, tag: byte, field: string, payload: seq<byte>, m: nat)
    requires |field| == 8 && 0 < m < 9 && forall i :: 0 <= i < 8 ==> Decimal.IsDigit(field[i])
    ensures |Encode(field)| == 8
    ensures var got := FrameAt(before + ([tag] + Encode(field) + payload)[..m], |before|);
            && (got.Ok? <==> m > 1 && forall i :: 0 <= i < m - 1 ==> field[i] == '0')
            && (got.Ok? ==> got.value == RawFrame(tag, []))
  {
    PartOfField(field, 8);
    CutInField(before, tag, Encode(field), payload, m);
    var data := before + ([tag] + Encode(field) + payload)[..m];
    if m > 1 {
      PartOfField(field, m - 1);
      ZeroPrefixIff(field, m - 1);
      LengthThenNothing(data, |before|, Decimal.Value(field[..m - 1]));
    } else {
      NoLengthAtAll(data, |before|);
    }
  }

  lemma ZeroPrefixIff(field: string, k: nat)
    requires k <= |field| && forall i :: 0 <= i < |field| ==> Decimal.IsDigit(field[i])
    ensures Decimal.Value(field[..k]) == 0 <==> forall i :: 0 <= i < k ==> field[i] == '0'
  {
    ZeroIff(field[..k]);
  }

  lemma LengthThenNothing(data: seq<byte>, i: nat, n: nat)
    requires i < |data| <= i + 9 && ParseIntBytes(Slice(data, i + 1, i + 9)) == Some(n)
    ensures FrameAt(data, i) == if n == 0 then Ok(RawFrame(data[i], [])) else Err(Truncated)
  {
  }

  lemma NoLengthAtAll(data: seq<byte>, i: nat)
    requires |data| == i + 1
    ensures FrameAt(data, i) == Err(BadLength)
  {
    assert Slice(data, i + 1, i + 9) == [];
  }

  /** A tool use whose input is not JSON is handed on without one; one that is not text fails the stream. */
  lemma ToolUseLoads(id: string, name: string, raw: seq<byte>, loads: seq<byte> -> Loaded)
    requires UNIT_SEPARATOR !in Encode(id) && UNIT_SEPARATOR !in Encode(name)
    ensures InterpretToolUse(Encode(id) + [UNIT_SEPARATOR] + (Encode(name) + [UNIT_SEPARATOR] + raw), loads)
            == match loads(raw)
               case Loaded(value) => Ok(ToolUse(id, name, Some(value)))
               case NotJson => Ok(ToolUse(id, name, None))
               case NotUnicode => Err(BadUnicode)
  {
    FindSeparator(Encode(id), UNIT_SEPARATOR, Encode(name) + [UNIT_SEPARATOR] + raw);
    FindSeparator(Encode(name), UNIT_SEPARATOR, raw);
    StrictRoundTrip(id);
    StrictRoundTrip(name);
  }
}
