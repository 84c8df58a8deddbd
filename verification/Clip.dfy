/** Bounding one tool result: agent.py, clip_tool_result. */
module Clip {
  import opened Utf8
  import Decimal

  function Notice(shown: int, total: nat): string {
    "\n" + ['\U{2026}'] + ("[clipped: " + Decimal.Text(shown))
    + (" of " + Decimal.Text(total) + " bytes shown]")
  }

  function AtLeastZero(n: int): nat {
    if n < 0 then 0 else n
  }

  /** The room left for the head once the worst-case notice is set aside. */
  function Keep(total: nat, limit: int): int {
    limit - |Encode(Notice(limit, total))|
  }

  function ClipToolResult(text: string, limit: int): string {
    var raw := Encode(text);
    if |raw| <= limit then
      text
    else if Keep(|raw|, limit) < 0 then
      DecodeIgnore(raw[..AtLeastZero(limit)])
    else
      var head := DecodeIgnore(raw[..Keep(|raw|, limit)]);
      head + Notice(|Encode(head)|, |raw|)
  }

  /** `head` is the longest run of whole characters of `text` that encodes within `room` bytes. */
  ghost predicate LongestWholePrefix(head: string, text: string, room: nat) {
    && head <= text
    && |Encode(head)| <= room
    && forall other :: other <= text && |Encode(other)| <= room ==> |other| <= |head|
  }

  lemma LongerPrefixIsLarger(text: string, short: string, long: string)
    requires short <= text && long <= text && |short| < |long|
    ensures |Encode(short)| + |EncodeChar(text[|short|])| <= |Encode(long)|
  {
    assert long == short + [text[|short|]] + long[|short| + 1..];
    EncodeConcat(short + [text[|short|]], long[|short| + 1..]);
    EncodeConcat(short, [text[|short|]]);
    EncodeSingle(text[|short|]);
  }

  lemma DecodedHeadIsLongest(text: string, room: nat)
    requires room <= |Encode(text)|
    ensures var head := DecodeIgnore(Encode(text)[..room]);
            && LongestWholePrefix(head, text, room)
            && room - 3 <= |Encode(head)|
  {
    DecodePrefix(text, room);
    var head := DecodeIgnore(Encode(text)[..room]);
    forall other | other <= text && |head| < |other|
      ensures |Encode(other)| > room
    {
      LongerPrefixIsLarger(text, head, other);
    }
  }

  ghost predicate Ascii(s: string) {
    forall i :: 0 <= i < |s| ==> s[i] < '\U{80}'
  }

  lemma {:induction false} AsciiLength(s: string)
    requires Ascii(s)
    ensures |Encode(s)| == |s|
  {
    if s != [] {
      AsciiLength(s[1..]);
    }
  }

  lemma PartsLength(head: string, c: char, a: string, b: string)
    requires Ascii(head) && Ascii(a) && Ascii(b)
    ensures |Encode(head + [c] + a + b)| == |head| + |EncodeChar(c)| + |a| + |b|
  {
    EncodeConcat(head + [c] + a, b);
    EncodeConcat(head + [c], a);
    EncodeConcat(head, [c]);
    EncodeSingle(c);
    AsciiLength(head);
    AsciiLength(a);
    AsciiLength(b);
  }

  lemma NoticeLength(shown: nat, total: nat)
    ensures |Encode(Notice(shown, total))| == 31 + |Decimal.Digits(shown)| + |Decimal.Digits(total)|
  {
    var a := "[clipped: " + Decimal.Digits(shown);
    var b := " of " + Decimal.Digits(total) + " bytes shown]";
    PartsLength("\n", '\U{2026}', a, b);
  }

  /** The whole contract of a clip, at every limit: the byte budget holds unconditionally, a text
      within it is untouched, and a clipped text is the longest whole-character head that fits the
      room beside the notice, followed by a notice whose figure is exactly that head's size. */
  lemma ClipIsExact(text: string, limit: int)
    ensures |Encode(ClipToolResult(text, limit))| <= AtLeastZero(limit)
    ensures |Encode(text)| <= limit ==> ClipToolResult(text, limit) == text
    ensures |Encode(text)| > limit && Keep(|Encode(text)|, limit) < 0 ==>
              LongestWholePrefix(ClipToolResult(text, limit), text, AtLeastZero(limit))
    ensures |Encode(text)| > limit && Keep(|Encode(text)|, limit) >= 0 ==>
              exists head ::
                && LongestWholePrefix(head, text, Keep(|Encode(text)|, limit))
                && ClipToolResult(text, limit) == head + Notice(|Encode(head)|, |Encode(text)|)
                && Keep(|Encode(text)|, limit) - |Encode(head)| <= 3
  {
    var total := |Encode(text)|;
    if total > limit {
      if Keep(total, limit) < 0 {
        DecodedHeadIsLongest(text, AtLeastZero(limit));
      } else {
        var keep := Keep(total, limit);
        DecodedHeadIsLongest(text, keep);
        var head := DecodeIgnore(Encode(text)[..keep]);
        NoticeLength(limit, total);
        NoticeLength(|Encode(head)|, total);
        Decimal.LongerIfLarger(|Encode(head)|, limit);
        EncodeConcat(head, Notice(|Encode(head)|, total));
      }
    }
  }

  /** Clipping a clipped result changes nothing. */
  lemma ClipIsIdempotent(text: string, limit: int)
    ensures ClipToolResult(ClipToolResult(text, limit), limit) == ClipToolResult(text, limit)
  {
    ClipIsExact(text, limit);
    ClipIsExact(ClipToolResult(text, limit), limit);
  }
}
