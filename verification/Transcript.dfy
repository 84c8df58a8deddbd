/** The bounded transcript: agent.py, history_bytes, segment_starts and compact. */
module Transcript {
  import opened Wrappers
  import opened Framing

  datatype Content = TextPart(text: string) | ToolUsePart(id: string, name: string, input: Option<Json>)

  datatype ToolResult = ToolResult(toolUseId: string, content: string, isError: bool)

  /** A user message with string content is a real user turn; one carrying tool results is not. */
  datatype Message =
    | User(question: string)
    | Results(results: seq<ToolResult>)
    | Assistant(content: seq<Content>)

  /** The serialized size of each message on its own. */
  type Sizes = Message -> nat

  function TotalSize(messages: seq<Message>, size: Sizes): nat {
    if messages == [] then 0 else size(messages[0]) + TotalSize(messages[1..], size)
  }

  /** A JSON list: two brackets, the items, and two characters between neighbours. */
  function HistoryBytes(messages: seq<Message>, size: Sizes): nat {
    2 + TotalSize(messages, size) + (if messages == [] then 0 else 2 * (|messages| - 1))
  }

  /** The items of a JSON list as json.dumps joins them. */
  function JsonItems(messages: seq<Message>, render: Message -> string): string {
    if messages == [] then ""
    else if |messages| == 1 then render(messages[0])
    else render(messages[0]) + ", " + JsonItems(messages[1..], render)
  }

  /** history_bytes is the length of the list written out. */
  lemma {:induction false} HistoryBytesIsJson(messages: seq<Message>, render: Message -> string)
    ensures HistoryBytes(messages, m => |render(m)|) == |"[" + JsonItems(messages, render) + "]"|
  {
    if messages != [] {
      HistoryBytesIsJson(messages[1..], render);
    }
  }

  predicate TurnStart(messages: seq<Message>, i: int) {
    0 <= i < |messages| && messages[i].User?
  }

  /** segment_starts, over the messages from index i on. */
  function StartsFrom(messages: seq<Message>, i: nat): (starts: seq<nat>)
    requires i <= |messages|
    ensures forall k :: 0 <= k < |starts| ==> i <= starts[k] && TurnStart(messages, starts[k])
    decreases |messages| - i
  {
    if i == |messages| then []
    else if messages[i].User? then [i] + StartsFrom(messages, i + 1)
    else StartsFrom(messages, i + 1)
  }

  function SegmentStarts(messages: seq<Message>): (starts: seq<nat>)
    ensures forall k :: 0 <= k < |starts| ==> TurnStart(messages, starts[k])
  {
    StartsFrom(messages, 0)
  }

  predicate Fits(messages: seq<Message>, cut: int, limit: nat, size: Sizes)
    requires 0 <= cut <= |messages|
  {
    HistoryBytes(messages[cut..], size) <= limit
  }

  /** The first of `cuts` whose suffix fits, or `last` when none does. */
  function FirstFit(messages: seq<Message>, cuts: seq<nat>, last: nat, limit: nat, size: Sizes): (cut: nat)
    requires forall k :: 0 <= k < |cuts| ==> TurnStart(messages, cuts[k])
    requires TurnStart(messages, last)
    ensures TurnStart(messages, cut)
  {
    if cuts == [] then last else
    assert TurnStart(messages, cuts[0]);
    if Fits(messages, cuts[0], limit, size) then cuts[0]
    else FirstFit(messages, cuts[1..], last, limit, size)
  }

  function Compact(messages: seq<Message>, limit: nat, size: Sizes): seq<Message> {
    if messages == [] || HistoryBytes(messages, size) <= limit then
      messages
    else
      var starts := SegmentStarts(messages);
      if starts == [] then
        messages
      else
        messages[FirstFit(messages, starts[1..], starts[|starts| - 1], limit, size)..]
  }

  // What a transcript must be for the Messages API to accept it.

  function ToolUseIds(content: seq<Content>): seq<string> {
    if content == [] then []
    else if content[0].ToolUsePart? then [content[0].id] + ToolUseIds(content[1..])
    else ToolUseIds(content[1..])
  }

  function ResultIds(results: seq<ToolResult>): seq<string> {
    if results == [] then [] else [results[0].toolUseId] + ResultIds(results[1..])
  }

  /** An assistant message is never empty, its tool uses are answered one for one by the next
      message, and results stand only behind the tool uses they answer. */
  ghost predicate GoodAt(messages: seq<Message>, i: nat)
    requires i < |messages|
  {
    match messages[i]
    case User(_) => true
    case Assistant(content) =>
      && content != []
      && (ToolUseIds(content) != [] ==>
            && i + 1 < |messages| && messages[i + 1].Results?
            && ResultIds(messages[i + 1].results) == ToolUseIds(content))
    case Results(results) =>
      && results != []
      && i > 0 && messages[i - 1].Assistant?
      && ToolUseIds(messages[i - 1].content) == ResultIds(results)
  }

  ghost predicate WellFormed(messages: seq<Message>) {
    && (messages != [] ==> messages[0].User?)
    && forall i :: 0 <= i < |messages| ==> GoodAt(messages, i)
  }

  /** The question of the newest real user turn. */
  function LastQuestion(messages: seq<Message>): Option<string> {
    if messages == [] then None
    else if messages[|messages| - 1].User? then Some(messages[|messages| - 1].question)
    else LastQuestion(messages[..|messages| - 1])
  }

  // Properties of compact.

  lemma {:induction false} StartsFromComplete(messages: seq<Message>, i: nat, c: int)
    requires i <= c && TurnStart(messages, c)
    ensures c in StartsFrom(messages, i)
    decreases |messages| - i
  {
    if i < c {
      StartsFromComplete(messages, i + 1, c);
    }
  }

  ghost predicate Ascending(s: seq<nat>) {
    forall j, k :: 0 <= j < k < |s| ==> s[j] < s[k]
  }

  lemma AscendingCons(i: nat, rest: seq<nat>)
    requires Ascending(rest) && forall k :: 0 <= k < |rest| ==> i < rest[k]
    ensures Ascending([i] + rest)
  {
  }

  lemma {:induction false} StartsFromAscending(messages: seq<Message>, i: nat)
    requires i <= |messages|
    ensures Ascending(StartsFrom(messages, i))
    decreases |messages| - i
  {
    if i < |messages| {
      StartsFromAscending(messages, i + 1);
      if messages[i].User? {
        AscendingCons(i, StartsFrom(messages, i + 1));
      }
    }
  }

  ghost predicate FitsFirst(messages: seq<Message>, cut: int, limit: nat, size: Sizes) {
    && TurnStart(messages, cut) && Fits(messages, cut, limit, size)
    && forall c :: TurnStart(messages, c) && c < cut ==> !Fits(messages, c, limit, size)
  }

  ghost predicate NewestAndNoneFits(messages: seq<Message>, cut: int, limit: nat, size: Sizes) {
    && TurnStart(messages, cut)
    && forall c :: TurnStart(messages, c) ==> c <= cut && !Fits(messages, c, limit, size)
  }

  lemma {:induction false} FirstFitSearches(messages: seq<Message>, cuts: seq<nat>, last: nat,
      limit: nat, size: Sizes)
    requires forall k :: 0 <= k < |cuts| ==> TurnStart(messages, cuts[k])
    requires TurnStart(messages, last) && Ascending(cuts)
    ensures var cut := FirstFit(messages, cuts, last, limit, size);
            && (forall c: nat :: c in cuts && c < cut ==> !Fits(messages, c, limit, size))
            && (!Fits(messages, cut, limit, size) ==>
                  cut == last && forall c: nat :: c in cuts ==> !Fits(messages, c, limit, size))
  {
    if cuts != [] && !Fits(messages, cuts[0], limit, size) {
      FirstFitSearches(messages, cuts[1..], last, limit, size);
      assert forall c: nat :: c in cuts ==> c == cuts[0] || c in cuts[1..];
    }
  }

  lemma AscendingTail(s: seq<nat>)
    requires s != [] && Ascending(s)
    ensures Ascending(s[1..])
  {
  }

  lemma PlaceInAscending(s: seq<nat>, c: nat)
    requires Ascending(s) && c in s
    ensures c <= s[|s| - 1] && (c == s[0] || c in s[1..])
  {
    var k :| 0 <= k < |s| && s[k] == c;
    if k > 0 {
      assert s[1..][k - 1] == c;
    }
  }

  /** The cuts compact tries are exactly the later turn starts, in order. */
  lemma StartsAreTheTurns(messages: seq<Message>)
    requires messages != [] && messages[0].User?
    ensures var starts := SegmentStarts(messages);
            && starts != [] && Ascending(starts[1..])
            && forall c: nat :: TurnStart(messages, c) ==>
                 c <= starts[|starts| - 1] && (c == 0 || c in starts[1..])
  {
    var starts := SegmentStarts(messages);
    StartsFromAscending(messages, 0);
    assert starts[0] == 0;
    AscendingTail(starts);
    forall c: nat | TurnStart(messages, c)
      ensures c <= starts[|starts| - 1] && (c == 0 || c in starts[1..])
    {
      StartsFromComplete(messages, 0, c);
      PlaceInAscending(starts, c);
    }
  }

  /** On a transcript that opens on a user turn, compact returns the longest suffix opening on a real
      user turn that fits the limit; when none fits, exactly the newest turn. */
  lemma CompactIsLongestFit(messages: seq<Message>, limit: nat, size: Sizes)
    requires messages != [] && messages[0].User?
    ensures exists cut ::
              && TurnStart(messages, cut)
              && Compact(messages, limit, size) == messages[cut..]
              && (FitsFirst(messages, cut, limit, size) || NewestAndNoneFits(messages, cut, limit, size))
  {
    assert messages[0..] == messages;
    if HistoryBytes(messages, size) <= limit {
      assert FitsFirst(messages, 0, limit, size);
    } else {
      var starts := SegmentStarts(messages);
      StartsAreTheTurns(messages);
      var cut := FirstFit(messages, starts[1..], starts[|starts| - 1], limit, size);
      FirstFitSearches(messages, starts[1..], starts[|starts| - 1], limit, size);
      if Fits(messages, cut, limit, size) {
        assert FitsFirst(messages, cut, limit, size);
      } else {
        assert NewestAndNoneFits(messages, cut, limit, size);
      }
    }
  }

  /** Cutting at a real user turn never separates a tool use from its result. */
  lemma SuffixWellFormed(messages: seq<Message>, cut: int)
    requires WellFormed(messages) && TurnStart(messages, cut)
    ensures WellFormed(messages[cut..])
  {
    var suffix := messages[cut..];
    forall i | 0 <= i < |suffix|
      ensures GoodAt(suffix, i)
    {
      assert GoodAt(messages, cut + i);
      assert suffix[i] == messages[cut + i];
    }
  }

  lemma {:induction false} SuffixKeepsLastQuestion(messages: seq<Message>, cut: int)
    requires TurnStart(messages, cut)
    ensures LastQuestion(messages[cut..]) == LastQuestion(messages)
    decreases |messages|
  {
    var n := |messages| - 1;
    if !messages[n].User? {
      assert cut < n;
      SuffixKeepsLastQuestion(messages[..n], cut);
      assert messages[..n][cut..] == messages[cut..][..n - cut];
    }
  }

  /** compact keeps a transcript well formed, non-empty and on the same newest question. */
  lemma CompactPreserves(messages: seq<Message>, limit: nat, size: Sizes)
    requires WellFormed(messages)
    ensures WellFormed(Compact(messages, limit, size))
    ensures messages != [] ==> Compact(messages, limit, size) != []
    ensures LastQuestion(Compact(messages, limit, size)) == LastQuestion(messages)
  {
    if messages != [] {
      CompactIsLongestFit(messages, limit, size);
      var cut :| TurnStart(messages, cut) && Compact(messages, limit, size) == messages[cut..];
      SuffixWellFormed(messages, cut);
      SuffixKeepsLastQuestion(messages, cut);
    }
  }

  ghost predicate SingleTurn(messages: seq<Message>) {
    forall i :: 0 < i < |messages| ==> !messages[i].User?
  }

  /** What compact returns is within the limit or is one single turn, and compacting it again changes
      nothing. */
  lemma CompactIsBoundedAndIdempotent(messages: seq<Message>, limit: nat, size: Sizes)
    requires WellFormed(messages) && messages != []
    ensures HistoryBytes(Compact(messages, limit, size), size) <= limit
            || SingleTurn(Compact(messages, limit, size))
    ensures Compact(Compact(messages, limit, size), limit, size) == Compact(messages, limit, size)
  {
    CompactIsLongestFit(messages, limit, size);
    var r := Compact(messages, limit, size);
    var cut :| && TurnStart(messages, cut) && r == messages[cut..]
               && (FitsFirst(messages, cut, limit, size) || NewestAndNoneFits(messages, cut, limit, size));
    if NewestAndNoneFits(messages, cut, limit, size) {
      forall i | 0 < i < |r|
        ensures !r[i].User?
      {
        assert r[i] == messages[cut + i];
        assert !TurnStart(messages, cut + i);
      }
      CompactSingleTurn(r, limit, size);
    }
  }

  lemma CompactSingleTurn(messages: seq<Message>, limit: nat, size: Sizes)
    requires messages != [] && messages[0].User? && SingleTurn(messages)
    ensures Compact(messages, limit, size) == messages
  {
    CompactIsLongestFit(messages, limit, size);
    var cut :| TurnStart(messages, cut) && Compact(messages, limit, size) == messages[cut..];
    assert cut == 0;
  }
}
