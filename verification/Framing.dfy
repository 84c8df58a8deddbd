/** Frame streams from the bridge and argument framing towards tools: agent.py, decode_frames and
    the wire form PiAgent._dispatch builds. */
module Framing {
  import opened Wrappers
  import opened Utf8
  import Decimal

  const MAX_PAYLOAD := 100_000_000
  const UNIT_SEPARATOR: byte := 0x1F
  const PIPE_BYTE: byte := 0x7C

  datatype Json =
    | Null
    | Bool(b: bool)
    | Number(text: string)
    | String(s: string)
    | Array(items: seq<Json>)
    | Object(fields: seq<(string, Json)>)

  /** What json.loads makes of raw bytes. */
  datatype Loaded = Loaded(value: Json) | NotJson | NotUnicode

  datatype Block =
    | Text(text: string)
    | Usage(inputTokens: int, outputTokens: int)
    | ToolUse(id: string, name: string, input: Option<Json>)
    | Other(raw: string)

  datatype FrameError = BadLength | Truncated | BadUnicode | BadToolUse

  function Latin1(b: seq<byte>): string {
    if b == [] then [] else [b[0] as char] + Latin1(b[1..])
  }

  /** int() applied to bytes. */
  function ParseIntBytes(b: seq<byte>): Option<int> {
    Decimal.ParseInt(Latin1(b))
  }

  /** Python's b[from:to] for 0 <= from <= to: bounds past the end are clamped. */
  function Slice(b: seq<byte>, from: nat, to: nat): (s: seq<byte>)
    requires from <= to
    ensures |s| <= to - from
  {
    if |b| <= from then [] else if |b| <= to then b[from..] else b[from..to]
  }

  /** The index of the first `x` in `s`, or |s|. */
  function Find<T(==)>(s: seq<T>, x: T): (i: nat)
    ensures i <= |s| && (i < |s| ==> s[i] == x) && forall j :: 0 <= j < i ==> s[j] != x
  {
    if s == [] || s[0] == x then 0 else 1 + Find(s[1..], x)
  }

  function DecodeOther(payload: seq<byte>): Result<Block, FrameError> {
    match DecodeStrict(payload)
    case None => Err(BadUnicode)
    case Some(s) => Ok(Other(s))
  }

  function InterpretUsage(payload: seq<byte>): Result<Block, FrameError> {
    var p := Find(payload, PIPE_BYTE);
    if p == |payload| then
      DecodeOther(payload)
    else
      match (ParseIntBytes(payload[..p]), ParseIntBytes(payload[p + 1..]))
      case (Some(a), Some(b)) => if a < 0 || b < 0 then DecodeOther(payload) else Ok(Usage(a, b))
      case _ => DecodeOther(payload)
  }

  function InterpretToolUse(payload: seq<byte>, loads: seq<byte> -> Loaded)
    : Result<Block, FrameError>
  {
    var p := Find(payload, UNIT_SEPARATOR);
    if p == |payload| then Err(BadToolUse) else
    var rest := payload[p + 1..];
    var q := Find(rest, UNIT_SEPARATOR);
    if q == |rest| then Err(BadToolUse) else
    var loaded := loads(rest[q + 1..]);
    if loaded.NotUnicode? then Err(BadUnicode) else
    match (DecodeStrict(payload[..p]), DecodeStrict(rest[..q]))
    case (Some(id), Some(name)) =>
      Ok(ToolUse(id, name, if loaded.Loaded? then Some(loaded.value) else None))
    case _ => Err(BadUnicode)
  }

  /** The block one frame stands for. */
  function Interpret(tag: byte, payload: seq<byte>, loads: seq<byte> -> Loaded)
    : Result<Block, FrameError>
  {
    if tag == 't' as int then
      match DecodeStrict(payload)
      case None => Err(BadUnicode)
      case Some(s) => Ok(Text(s))
    else if tag == 'g' as int then InterpretUsage(payload)
    else if tag == 'u' as int then InterpretToolUse(payload, loads)
    else DecodeOther(payload)
  }

  /** A usage payload counts exactly when both of its numbers are there and neither is negative; any other
      is kept as text and never folded into the totals. */
  lemma UsageCountsIff(input: seq<byte>, output: seq<byte>)
    requires PIPE_BYTE !in input
    ensures var payload := input + [PIPE_BYTE] + output;
            var a, b := ParseIntBytes(input), ParseIntBytes(output);
            InterpretUsage(payload) ==
              if a.Some? && b.Some? && !(a.value < 0) && !(b.value < 0) then Ok(Usage(a.value, b.value))
              else DecodeOther(payload)
  {
    var payload := input + [PIPE_BYTE] + output;
    assert payload[|input|] == PIPE_BYTE;
    assert forall i :: 0 <= i < |input| ==> payload[i] == input[i];
    assert Find(payload, PIPE_BYTE) == |input|;
    assert payload[..|input|] == input && payload[|input| + 1..] == output;
  }

  datatype RawFrame = RawFrame(tag: byte, payload: seq<byte>)

  /** The frame at index i: its tag and its payload. */
  function FrameAt(data: seq<byte>, i: nat): Result<RawFrame, FrameError> {
    var length := ParseIntBytes(Slice(data, i + 1, i + 9));
    if |data| <= i || length.None? then Err(BadLength)
    else if length.value < 0 then Err(Truncated)
    else
      var payload := Slice(data, i + 9, i + 9 + length.value);
      if |payload| != length.value then Err(Truncated) else Ok(RawFrame(data[i], payload))
  }

  /** How a stream is read: the frame at an index, and the block a frame stands for. */
  datatype Reader = Reader(frame: (seq<byte>, nat) -> Result<RawFrame, FrameError>,
                           block: RawFrame -> Result<Block, FrameError>)

  /** The reader decode_frames is. */
  function HostReader(loads: seq<byte> -> Loaded): Reader {
    Reader(FrameAt, (f: RawFrame) => Interpret(f.tag, f.payload, loads))
  }

  /** What the bytes from index i on add to the blocks read so far. */
  function Decoded(blocks: seq<Block>, data: seq<byte>, i: nat, read: Reader)
    : Result<seq<Block>, FrameError>
    decreases |data| - i
  {
    if |data| <= i then Ok(blocks) else
    match read.frame(data, i)
    case Err(e) => Err(e)
    case Ok(frame) =>
      match read.block(frame)
      case Err(e) => Err(e)
      case Ok(block) => Decoded(blocks + [block], data, i + 9 + |frame.payload|, read)
  }

  /** The loop of decode_frames: one pass with a running index. Every turn consumes at least the
      nine header bytes, whatever the length field says, so it ends on every input. */
  method DecodeWith(data: seq<byte>, read: Reader) returns (r: Result<seq<Block>, FrameError>)
    ensures r == Decoded([], data, 0, read)
  {
    var blocks: seq<Block> := [];
    var i := 0;
    while i < |data|
      invariant 0 <= i
      invariant Decoded(blocks, data, i, read) == Decoded([], data, 0, read)
      decreases |data| - i
    {
      var frame := read.frame(data, i);
      if frame.Err? {
        return Err(frame.error);
      }
      var block := read.block(frame.value);
      if block.Err? {
        return Err(block.error);
      }
      blocks := blocks + [block.value];
      i := i + 9 + |frame.value.payload|;
    }
    r := Ok(blocks);
  }

  method DecodeFrames(data: seq<byte>, loads: seq<byte> -> Loaded)
    returns (r: Result<seq<Block>, FrameError>)
    ensures r == Decoded([], data, 0, HostReader(loads))
  {
    r := DecodeWith(data, HostReader(loads));
  }

  /** The wire form of one frame: a tag, the payload length in eight digits, the payload. */
  function FrameBytes(f: RawFrame): seq<byte> {
    [f.tag] + Encode(Decimal.Pad8(|f.payload|)) + f.payload
  }

  function StreamBytes(frames: seq<RawFrame>): seq<byte> {
    if frames == [] then [] else FrameBytes(frames[0]) + StreamBytes(frames[1..])
  }

  /** The blocks a list of frames adds, the first unreadable one failing the whole. */
  function Interpreted(blocks: seq<Block>, frames: seq<RawFrame>, read: Reader)
    : Result<seq<Block>, FrameError>
    decreases |frames|
  {
    if frames == [] then Ok(blocks) else
    match read.block(frames[0])
    case Err(e) => Err(e)
    case Ok(block) => Interpreted(blocks + [block], frames[1..], read)
  }

  lemma {:induction false} AsciiBytes(s: string)
    requires forall i :: 0 <= i < |s| ==> s[i] < '\U{80}'
    ensures |Encode(s)| == |s| && Latin1(Encode(s)) == s
  {
    if s != [] {
      AsciiBytes(s[1..]);
      assert Encode(s) == [s[0] as int] + Encode(s[1..]);
    }
  }

  lemma LengthFieldReads(n: nat)
    requires n < MAX_PAYLOAD
    ensures |Encode(Decimal.Pad8(n))| == 8 && ParseIntBytes(Encode(Decimal.Pad8(n))) == Some(n)
  {
    var field := Decimal.Pad8(n);
    Decimal.Pad8Reads(n);
    AsciiBytes(field);
    Decimal.ParseDigits(field);
  }

  lemma FrameSlices(before: seq<byte>, tag: byte, field: seq<byte>, payload: seq<byte>, rest: seq<byte>)
    requires |field| == 8
    ensures var data := before + ([tag] + field + payload) + rest;
            var i := |before|;
            && data[i] == tag
            && Slice(data, i + 1, i + 9) == field
            && Slice(data, i + 9, i + 9 + |payload|) == payload
  {
    var data := before + ([tag] + field + payload) + rest;
    var i := |before|;
    assert data[i + 1..i + 9] == field;
    assert data[i + 9..i + 9 + |payload|] == payload;
  }

  /** The reader gets every frame back, wherever it stands. */
  ghost predicate ReadsFrames(read: Reader) {
    forall before, f: RawFrame, rest :: |f.payload| < MAX_PAYLOAD ==>
      read.frame(before + FrameBytes(f) + rest, |before|) == Ok(f)
  }

  lemma FrameAtReadsBack(before: seq<byte>, f: RawFrame, rest: seq<byte>)
    requires |f.payload| < MAX_PAYLOAD
    ensures FrameAt(before + FrameBytes(f) + rest, |before|) == Ok(f)
  {
    LengthFieldReads(|f.payload|);
    FrameSlices(before, f.tag, Encode(Decimal.Pad8(|f.payload|)), f.payload, rest);
  }

  lemma HostReadsFrames(loads: seq<byte> -> Loaded)
    ensures ReadsFrames(HostReader(loads))
  {
    forall before, f: RawFrame, rest | |f.payload| < MAX_PAYLOAD
      ensures HostReader(loads).frame(before + FrameBytes(f) + rest, |before|) == Ok(f)
    {
      FrameAtReadsBack(before, f, rest);
    }
  }

  lemma FrameBytesLength(f: RawFrame)
    requires |f.payload| < MAX_PAYLOAD
    ensures |FrameBytes(f)| == 9 + |f.payload|
  {
    LengthFieldReads(|f.payload|);
  }

  lemma Reassociate(a: seq<byte>, b: seq<byte>, c: seq<byte>)
    ensures a + (b + c) == a + b + c
  {
  }

  /** Decoding a concatenation of frames reads exactly those frames, in order, whatever bytes the
      payloads hold: no payload can be mistaken for a frame boundary. */
  lemma {:induction false} FramesRoundTrip(blocks: seq<Block>, before: seq<byte>,
      frames: seq<RawFrame>, read: Reader)
    requires ReadsFrames(read)
    requires forall f :: f in frames ==> |f.payload| < MAX_PAYLOAD
    ensures Decoded(blocks, before + StreamBytes(frames), |before|, read)
            == Interpreted(blocks, frames, read)
    decreases |frames|
  {
    if frames == [] {
      assert before + [] == before;
    } else {
      var f, rest := frames[0], StreamBytes(frames[1..]);
      FrameBytesLength(f);
      Reassociate(before, FrameBytes(f), rest);
      assert read.frame(before + FrameBytes(f) + rest, |before|) == Ok(f);
      var r := read.block(f);
      if r.Ok? {
        FramesRoundTrip(blocks + [r.value], before + FrameBytes(f), frames[1..], read);
      }
    }
  }

  // Block-level round trip: what the guest encodes is what the host reads.

  predicate HasFrame(b: Block) {
    && (b.Usage? ==> b.inputTokens >= 0 && b.outputTokens >= 0)
    && (b.ToolUse? ==> b.input.Some?)
  }

  ghost predicate Encodable(b: Block, loads: seq<byte> -> Loaded, dumps: Json -> seq<byte>) {
    match b
    case Text(_) => true
    case Other(_) => true
    case Usage(a, b) =>
      && 0 <= a && |Decimal.Digits(a)| <= Decimal.MAX_STR_DIGITS
      && 0 <= b && |Decimal.Digits(b)| <= Decimal.MAX_STR_DIGITS
    case ToolUse(id, name, input) =>
      && UNIT_SEPARATOR !in Encode(id) && UNIT_SEPARATOR !in Encode(name)
      && input.Some? && loads(dumps(input.value)) == Loaded(input.value)
  }

  function FrameOf(b: Block, dumps: Json -> seq<byte>): RawFrame
    requires HasFrame(b)
  {
    match b
    case Text(s) => RawFrame('t' as int, Encode(s))
    case Usage(x, y) =>
      RawFrame('g' as int, Encode(Decimal.Digits(x)) + [PIPE_BYTE] + Encode(Decimal.Digits(y)))
    case ToolUse(id, name, input) =>
      RawFrame('u' as int,
               Encode(id) + [UNIT_SEPARATOR] + (Encode(name) + [UNIT_SEPARATOR] + dumps(input.value)))
    case Other(s) => RawFrame('o' as int, Encode(s))
  }

  lemma FindSeparator<T>(a: seq<T>, x: T, rest: seq<T>)
    requires x !in a
    ensures Find(a + [x] + rest, x) == |a|
    ensures (a + [x] + rest)[..|a|] == a && (a + [x] + rest)[|a| + 1..] == rest
  {
    var s := a + [x] + rest;
    assert s[|a|] == x;
    assert forall j :: 0 <= j < |a| ==> s[j] == a[j];
  }

  lemma {:induction false} Latin1At(b: seq<byte>, i: nat)
    requires i < |b|
    ensures |Latin1(b)| == |b| && Latin1(b)[i] == b[i] as char
  {
    if |b| > 1 {
      Latin1At(b[1..], if i == 0 then 0 else i - 1);
    }
  }

  lemma NoPipe(d: string)
    requires forall i :: 0 <= i < |d| ==> Decimal.IsDigit(d[i])
    ensures PIPE_BYTE !in Encode(d)
  {
    AsciiBytes(d);
    forall i | 0 <= i < |Encode(d)|
      ensures Encode(d)[i] != PIPE_BYTE
    {
      Latin1At(Encode(d), i);
    }
  }

  lemma DigitBytes(n: nat)
    requires |Decimal.Digits(n)| <= Decimal.MAX_STR_DIGITS
    ensures ParseIntBytes(Encode(Decimal.Digits(n))) == Some(n)
    ensures PIPE_BYTE !in Encode(Decimal.Digits(n))
  {
    AsciiBytes(Decimal.Digits(n));
    Decimal.ValueOfDigits(n);
    Decimal.ParseDigits(Decimal.Digits(n));
    NoPipe(Decimal.Digits(n));
  }

  lemma UsageReads(x: nat, y: nat)
    requires |Decimal.Digits(x)| <= Decimal.MAX_STR_DIGITS && |Decimal.Digits(y)| <= Decimal.MAX_STR_DIGITS
    ensures InterpretUsage(Encode(Decimal.Digits(x)) + [PIPE_BYTE] + Encode(Decimal.Digits(y)))
            == Ok(Usage(x, y))
  {
    DigitBytes(x);
    DigitBytes(y);
    FindSeparator(Encode(Decimal.Digits(x)), PIPE_BYTE, Encode(Decimal.Digits(y)));
  }

  lemma ToolUseReads(id: string, name: string, body: seq<byte>, loads: seq<byte> -> Loaded)
    requires UNIT_SEPARATOR !in Encode(id) && UNIT_SEPARATOR !in Encode(name) && loads(body).Loaded?
    ensures InterpretToolUse(
              Encode(id) + [UNIT_SEPARATOR] + (Encode(name) + [UNIT_SEPARATOR] + body), loads)
            == Ok(ToolUse(id, name, Some(loads(body).value)))
  {
    var tail := Encode(name) + [UNIT_SEPARATOR] + body;
    FindSeparator(Encode(id), UNIT_SEPARATOR, tail);
    FindSeparator(Encode(name), UNIT_SEPARATOR, body);
    StrictRoundTrip(id);
    StrictRoundTrip(name);
  }

  lemma InterpretFrameOf(b: Block, loads: seq<byte> -> Loaded, dumps: Json -> seq<byte>)
    requires HasFrame(b) && Encodable(b, loads, dumps)
    ensures var f := FrameOf(b, dumps); Interpret(f.tag, f.payload, loads) == Ok(b)
  {
    match b
    case Text(s) => StrictRoundTrip(s);
    case Other(s) => StrictRoundTrip(s);
    case Usage(x, y) => UsageReads(x, y);
    case ToolUse(id, name, input) => ToolUseReads(id, name, dumps(input.value), loads);
  }

  function FramesOf(blocks: seq<Block>, dumps: Json -> seq<byte>): seq<RawFrame>
    requires forall b :: b in blocks ==> HasFrame(b)
  {
    if blocks == [] then [] else [FrameOf(blocks[0], dumps)] + FramesOf(blocks[1..], dumps)
  }

  lemma InterpretedCons(before: seq<Block>, f: RawFrame, rest: seq<RawFrame>, read: Reader, b: Block)
    requires read.block(f) == Ok(b)
    ensures Interpreted(before, [f] + rest, read) == Interpreted(before + [b], rest, read)
  {
    assert ([f] + rest)[1..] == rest;
  }

  ghost predicate ReadsBack(b: Block, read: Reader, dumps: Json -> seq<byte>) {
    HasFrame(b) && read.block(FrameOf(b, dumps)) == Ok(b)
  }

  lemma {:induction false} BlocksInterpret(before: seq<Block>, blocks: seq<Block>,
      read: Reader, dumps: Json -> seq<byte>)
    requires forall b :: b in blocks ==> ReadsBack(b, read, dumps)
    requires forall b :: b in blocks ==> HasFrame(b)
    ensures Interpreted(before, FramesOf(blocks, dumps), read) == Ok(before + blocks)
    decreases |blocks|
  {
    if blocks == [] {
      assert before + blocks == before;
    } else {
      var b, rest := blocks[0], blocks[1..];
      assert ReadsBack(b, read, dumps);
      BlocksInterpret(before + [b], rest, read, dumps);
      InterpretedCons(before, FrameOf(b, dumps), FramesOf(rest, dumps), read, b);
      assert before + [b] + rest == before + blocks;
    }
  }

  lemma {:induction false} FramesOfEach(blocks: seq<Block>, dumps: Json -> seq<byte>)
    requires forall b :: b in blocks ==> HasFrame(b) && |FrameOf(b, dumps).payload| < MAX_PAYLOAD
    ensures forall f :: f in FramesOf(blocks, dumps) ==> |f.payload| < MAX_PAYLOAD
  {
    if blocks != [] {
      FramesOfEach(blocks[1..], dumps);
    }
  }

  /** The host reads back exactly the blocks that were framed. */
  lemma BlocksRoundTrip(blocks: seq<Block>,
      loads: seq<byte> -> Loaded, dumps: Json -> seq<byte>)
    requires forall b :: b in blocks ==>
      HasFrame(b) && Encodable(b, loads, dumps) && |FrameOf(b, dumps).payload| < MAX_PAYLOAD
    ensures Decoded([], StreamBytes(FramesOf(blocks, dumps)), 0, HostReader(loads)) == Ok(blocks)
  {
    var stream := StreamBytes(FramesOf(blocks, dumps));
    var read := HostReader(loads);
    forall b | b in blocks
      ensures ReadsBack(b, read, dumps)
    {
      InterpretFrameOf(b, loads, dumps);
    }
    BlocksInterpret([], blocks, read, dumps);
    FramesOfEach(blocks, dumps);
    HostReadsFrames(loads);
    FramesRoundTrip([], [], FramesOf(blocks, dumps), read);
    assert [] + stream == stream;
    assert [] + blocks == blocks;
  }

  // Arguments towards a tool.

  datatype Wire = Len8 | Pipes

  function JoinLen8(args: seq<string>): string {
    if args == [] then [] else Decimal.Pad8(|Encode(args[0])|) + args[0] + JoinLen8(args[1..])
  }

  function JoinPipes(args: seq<string>): string {
    if args == [] then []
    else if |args| == 1 then args[0]
    else args[0] + "|" + JoinPipes(args[1..])
  }

  predicate PipeSafe(args: seq<string>) {
    forall i :: 0 <= i < |args| - 1 ==> '|' !in args[i]
  }

  /** The input text _dispatch hands a tool; None is its refusal. */
  function WireInput(wire: Wire, args: seq<string>): Option<string> {
    match wire
    case Len8 => Some(JoinLen8(args))
    case Pipes => if PipeSafe(args) then Some(JoinPipes(args)) else None
  }

  /** How many characters at the head of `s` encode to exactly n bytes. */
  function CharsFor(s: string, n: nat): (r: Option<nat>)
    ensures r.Some? ==> r.value <= |s|
  {
    if n == 0 then Some(0)
    else if s == [] || |EncodeChar(s[0])| > n then None
    else match CharsFor(s[1..], n - |EncodeChar(s[0])|)
         case None => None
         case Some(k) => Some(k + 1)
  }

  lemma {:induction false} CharsForConcat(s: string, rest: string)
    ensures CharsFor(s + rest, |Encode(s)|) == Some(|s|)
  {
    if s != [] {
      assert (s + rest)[1..] == s[1..] + rest;
      CharsForConcat(s[1..], rest);
    }
  }

  /** One argument off the front of len8 text, and what follows it. */
  function TakeArgument(s: string): (r: Option<(string, string)>)
    ensures r.Some? ==> |r.value.1| < |s|
  {
    if |s| < 8 || exists i :: 0 <= i < 8 && !Decimal.IsDigit(s[i]) then None else
    match CharsFor(s[8..], Decimal.Value(s[..8]))
    case None => None
    case Some(k) => Some((s[8..8 + k], s[8 + k..]))
  }

  /** The reader of len8 text: an eight-digit byte count, then that many bytes of characters. */
  function SplitLen8(s: string): Option<seq<string>>
    decreases |s|
  {
    if s == [] then Some([]) else
    match TakeArgument(s)
    case None => None
    case Some((a, rest)) =>
      match SplitLen8(rest)
      case None => None
      case Some(more) => Some([a] + more)
  }

  lemma TakeFirstArgument(field: string, a: string, tail: string)
    requires |field| == 8 && forall i :: 0 <= i < 8 ==> Decimal.IsDigit(field[i])
    requires Decimal.Value(field) == |Encode(a)|
    ensures TakeArgument(field + a + tail) == Some((a, tail))
  {
    var s := field + a + tail;
    assert s[..8] == field;
    assert s[8..] == a + tail by {
      assert field + a + tail == field + (a + tail);
    }
    CharsForConcat(a, tail);
    assert s[8..8 + |a|] == a;
    assert s[8 + |a|..] == tail;
  }

  /** What the framing of one argument reads as: its length field, cut at eight digits. */
  lemma {:induction false} PrefixIsLess(s: string, k: nat)
    requires forall i :: 0 <= i < |s| ==> Decimal.IsDigit(s[i])
    requires k < |s| && s[0] != '0' && k > 0
    ensures Decimal.Value(s[..k]) < Decimal.Value(s)
    decreases |s|
  {
    var n := |s| - 1;
    var front := s[..n];
    DigitsArePositive(front);
    if k < n {
      PrefixIsLess(front, k);
      assert front[..k] == s[..k];
    }
  }

  lemma {:induction false} DigitsArePositive(s: string)
    requires forall i :: 0 <= i < |s| ==> Decimal.IsDigit(s[i])
    requires s != [] && s[0] != '0'
    ensures Decimal.Value(s) > 0
  {
    if |s| > 1 {
      DigitsArePositive(s[..|s| - 1]);
    } else {
      assert s[..0] == [];
    }
  }

  lemma {:induction false} NoLeadingZero(n: nat)
    requires n > 0
    ensures Decimal.Digits(n)[0] != '0'
  {
    if n >= 10 {
      NoLeadingZero(n / 10);
    }
  }

  /** A length beyond eight digits is read as a smaller one. */
  lemma LongLengthMisread(n: nat)
    requires n >= MAX_PAYLOAD
    ensures |Decimal.Pad8(n)| > 8 && Decimal.Value(Decimal.Pad8(n)[..8]) < n
  {
    Decimal.DigitsBeyond(n, 8);
    Decimal.ValueOfDigits(n);
    NoLeadingZero(n);
    PrefixIsLess(Decimal.Digits(n), 8);
  }

  lemma CharsForBytes(s: string, n: nat)
    ensures CharsFor(s, n).Some? ==> |Encode(s[..CharsFor(s, n).value])| == n
  {
    if n > 0 && s != [] && |EncodeChar(s[0])| <= n {
      CharsForBytes(s[1..], n - |EncodeChar(s[0])|);
      if CharsFor(s, n).Some? {
        var k := CharsFor(s, n).value;
        assert s[..k] == [s[0]] + s[1..][..k - 1];
      }
    } else {
      assert s[..0] == [];
    }
  }

  /** Where it starts with an argument of 10^8 bytes or more, the reader takes a shorter one. */
  lemma LongArgumentMisread(a: string, tail: string)
    requires |Encode(a)| >= MAX_PAYLOAD
    ensures var taken := TakeArgument(Decimal.Pad8(|Encode(a)|) + a + tail); taken.Some? ==> taken.value.0 != a
  {
    var field := Decimal.Pad8(|Encode(a)|);
    var s := field + a + tail;
    LongLengthMisread(|Encode(a)|);
    assert s[..8] == field[..8];
    CharsForBytes(s[8..], Decimal.Value(field[..8]));
    var k := CharsFor(s[8..], Decimal.Value(field[..8]));
    if k.Some? {
      assert s[8..][..k.value] == s[8..8 + k.value];
    }
  }

  /** len8 text is read back exactly for arguments under 10^8 bytes, whatever they contain: a longer
      one's length has nine digits, of which the reader takes eight. */
  lemma {:induction false} Len8RoundTripIff(args: seq<string>)
    ensures SplitLen8(JoinLen8(args)) == Some(args) <==> forall a :: a in args ==> |Encode(a)| < MAX_PAYLOAD
  {
    if args != [] {
      var tail := JoinLen8(args[1..]);
      Len8RoundTripIff(args[1..]);
      if |Encode(args[0])| < MAX_PAYLOAD {
        Decimal.Pad8Reads(|Encode(args[0])|);
        TakeFirstArgument(Decimal.Pad8(|Encode(args[0])|), args[0], tail);
        SplitTakes(args, tail);
        assert forall a :: a in args <==> a == args[0] || a in args[1..];
      } else {
        LongArgumentMisread(args[0], tail);
        SplitMisses(JoinLen8(args), args);
        assert args[0] in args;
      }
    }
  }

  lemma SplitTakes(args: seq<string>, tail: string)
    requires args != [] && TakeArgument(JoinLen8(args)) == Some((args[0], tail)) && JoinLen8(args) != []
    ensures SplitLen8(JoinLen8(args)) == Some(args) <==> SplitLen8(tail) == Some(args[1..])
  {
    var rest := SplitLen8(tail);
    if rest.Some? {
      assert ([args[0]] + rest.value)[1..] == rest.value;
      assert [args[0]] + args[1..] == args;
    }
  }

  lemma SplitMisses(s: string, args: seq<string>)
    requires s != [] && args != []
    requires TakeArgument(s).Some? ==> TakeArgument(s).value.0 != args[0]
    ensures SplitLen8(s) != Some(args)
  {
  }

  lemma SameText(d: string, p: string, q: string, r: string, inner: string)
    ensures d + "0" + (p + q + r) + inner + "" == d + ("0" + p) + q + (r + inner)
  {
  }

  lemma LongAndShort(n: nat, k: nat)
    requires n == MAX_PAYLOAD && k == 10_000_000
    ensures Decimal.Pad8(n) == Decimal.Pad8(k) + "0"
    ensures |Decimal.Pad8(n - k + 1)| == 8 && |Decimal.Pad8(0)| == 8
  {
    PowersOfTen();
    Decimal.DigitsBeyond(k, 7);
    Decimal.DigitsBeyond(n, 8);
    Decimal.Pad8Reads(0);
    Decimal.Pad8Reads(n - k + 1);
    assert Decimal.Digits(n) == Decimal.Digits(k) + "0";
  }

  lemma PlainLength(s: string)
    requires forall i :: 0 <= i < |s| ==> Decimal.IsDigit(s[i])
    ensures |Encode(s)| == |s|
  {
    AsciiBytes(s);
  }

  ghost predicate SameWire(a: seq<string>, b: seq<string>) {
    |a| == |b| && a != b && JoinLen8(a) == JoinLen8(b)
  }

  lemma PairsCollide(n: nat, k: nat, p: string, q: string, r: string, inner: string)
    requires |Encode(p + q + r)| == n && |Encode("0" + p)| == k
    requires Decimal.Pad8(n) == Decimal.Pad8(k) + "0" && n != k
    requires q == Decimal.Pad8(|Encode(r + inner)|) && inner == Decimal.Pad8(0)
    ensures SameWire([p + q + r, ""], ["0" + p, r + inner])
  {
    TwoArguments(p + q + r, "");
    TwoArguments("0" + p, r + inner);
    SameText(Decimal.Pad8(k), p, q, r, inner);
    assert [p + q + r, ""][0] != ["0" + p, r + inner][0];
  }

  lemma ZerosBetween(i: nat, q: string, j: nat)
    requires forall i :: 0 <= i < |q| ==> Decimal.IsDigit(q[i])
    ensures |Encode(Decimal.Zeros(i) + q + Decimal.Zeros(j))| == i + |q| + j
  {
    PlainLength(Decimal.Zeros(i) + q + Decimal.Zeros(j));
  }

  lemma ZerosBefore(i: nat, q: string)
    requires forall i :: 0 <= i < |q| ==> Decimal.IsDigit(q[i])
    ensures |Encode(Decimal.Zeros(i) + q)| == i + |q| && |Encode("0" + Decimal.Zeros(i))| == i + 1
  {
    PlainLength(Decimal.Zeros(i) + q);
    PlainLength("0" + Decimal.Zeros(i));
  }

  /** The bound is needed for two arguments to keep apart: one of 10^8 bytes and an empty one are framed
      as another pair is. */
  lemma Len8Collides()
    ensures exists a, b :: SameWire(a, b) && |a| == 2
  {
    var n, k := MAX_PAYLOAD, 10_000_000;
    var q, inner := Decimal.Pad8(n - k + 1), Decimal.Pad8(0);
    LongAndShort(n, k);
    ZerosCollide(n, k, q, inner);
  }

  lemma ZerosCollide(n: nat, k: nat, q: string, inner: string)
    requires 0 < k && k + 7 <= n && Decimal.Pad8(n) == Decimal.Pad8(k) + "0"
    requires q == Decimal.Pad8(n - k + 1) && inner == Decimal.Pad8(0) && |q| == 8 && |inner| == 8
    ensures exists a, b :: SameWire(a, b) && |a| == 2
  {
    var p, r := ZerosAround(n, k, q, inner);
    PairsCollide(n, k, p, q, r, inner);
    assert SameWire([p + q + r, ""], ["0" + p, r + inner]);
  }

  lemma ZerosAround(n: nat, k: nat, q: string, inner: string) returns (p: string, r: string)
    requires 0 < k && k + 7 <= n && |q| == 8 && |inner| == 8
    requires forall i :: 0 <= i < 8 ==> Decimal.IsDigit(q[i]) && Decimal.IsDigit(inner[i])
    ensures |Encode(p + q + r)| == n && |Encode("0" + p)| == k && |Encode(r + inner)| == n - k + 1
  {
    p, r := Decimal.Zeros(k - 1), Decimal.Zeros(n - k - 7);
    ZerosBetween(k - 1, q, n - k - 7);
    ZerosBefore(k - 1, q);
    ZerosBefore(n - k - 7, inner);
  }

  lemma PowersOfTen()
    ensures Decimal.Pow10(7) == 10_000_000 && Decimal.Pow10(8) == MAX_PAYLOAD
  {
    assert Decimal.Pow10(4) == 10_000;
  }

  lemma TwoArguments(a: string, b: string)
    ensures JoinLen8([a, b])
            == Decimal.Pad8(|Encode(a)|) + a + Decimal.Pad8(|Encode(b)|) + b
  {
    JoinHead(a, [b]);
    JoinHead(b, []);
    JoinTexts(Decimal.Pad8(|Encode(a)|) + a, Decimal.Pad8(|Encode(b)|), b);
    assert [a] + [b] == [a, b] && [b] + [] == [b];
  }

  lemma JoinHead(a: string, rest: seq<string>)
    ensures JoinLen8([a] + rest) == Decimal.Pad8(|Encode(a)|) + a + JoinLen8(rest)
  {
  }

  lemma JoinTexts(front: string, field: string, b: string)
    ensures front + (field + b + []) == front + field + b
  {
  }

  /** The reader of pipe text for a tool of n arguments: cut at the first n - 1 pipes. */
  function SplitPipes(s: string, n: nat): (parts: seq<string>)
    requires n >= 1
    ensures forall i :: 0 <= i < |parts| - 1 ==> '|' !in parts[i]
    ensures 1 <= |parts| <= n
  {
    var p := Find(s, '|');
    if n == 1 || p == |s| then [s] else [s[..p]] + SplitPipes(s[p + 1..], n - 1)
  }

  lemma SplitFirstPipe(a: string, tail: string, n: nat)
    requires n >= 2 && '|' !in a
    ensures SplitPipes(a + "|" + tail, n) == [a] + SplitPipes(tail, n - 1)
  {
    FindSeparator(a, '|', tail);
  }

  lemma TailIsPipeSafe(args: seq<string>)
    requires args != [] && PipeSafe(args)
    ensures PipeSafe(args[1..])
  {
    forall i | 0 <= i < |args[1..]| - 1
      ensures '|' !in args[1..][i]
    {
      assert args[1..][i] == args[i + 1];
    }
  }

  lemma {:induction false} PipeSafeSplits(args: seq<string>)
    requires args != [] && PipeSafe(args)
    ensures SplitPipes(JoinPipes(args), |args|) == args
  {
    if |args| > 1 {
      SplitFirstPipe(args[0], JoinPipes(args[1..]), |args|);
      TailIsPipeSafe(args);
      PipeSafeSplits(args[1..]);
      assert [args[0]] + args[1..] == args;
    }
  }

  /** Pipe text is read back correctly exactly for the argument lists _dispatch does not refuse. */
  lemma PipesRoundTripIff(args: seq<string>)
    requires args != []
    ensures SplitPipes(JoinPipes(args), |args|) == args <==> WireInput(Pipes, args).Some?
  {
    if PipeSafe(args) {
      PipeSafeSplits(args);
    }
  }

  /** Accepted calls of one tool never collide on the wire. */
  lemma WireInputIsInjective(wire: Wire, a: seq<string>, b: seq<string>)
    requires |a| == |b|
    requires wire.Len8? ==> forall x :: x in a + b ==> |Encode(x)| < MAX_PAYLOAD
    requires WireInput(wire, a).Some? && WireInput(wire, a) == WireInput(wire, b)
    ensures a == b
  {
    match wire
    case Len8 =>
      Len8RoundTripIff(a);
      Len8RoundTripIff(b);
      assert forall x :: x in a || x in b ==> x in a + b;
    case Pipes =>
      if a != [] {
        PipeSafeSplits(a);
        PipeSafeSplits(b);
      }
  }
}
