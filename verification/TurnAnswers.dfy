/** What a turn's messages say, in terms of what the model asked for and the tools returned: agent.py,
    PiAgent._turn_locked. */
module TurnAnswers {
  import opened Wrappers
  import opened Framing
  import opened Transcript
  import opened TurnLoop

  predicate Permits(allowed: Tools, name: string) {
    allowed.None? || name in allowed.value
  }

  // One reply, block by block.

  /** Where the tool uses stand, from index i on. */
  function UsesFrom(blocks: seq<Block>, i: nat): (at: seq<nat>)
    ensures forall j :: 0 <= j < |at| ==> i <= at[j] < |blocks| && blocks[at[j]].ToolUse?
    decreases |blocks| - i
  {
    if |blocks| <= i then []
    else if blocks[i].ToolUse? then [i] + UsesFrom(blocks, i + 1)
    else UsesFrom(blocks, i + 1)
  }

  /** Where the walk ends: at a tool the caller may use whose dispatch raises, or behind the last block. */
  function StopsAt(blocks: seq<Block>, i: nat, tools: nat -> Dispatched, allowed: Tools): (stop: nat)
    requires i <= |blocks|
    ensures i <= stop <= |blocks|
    decreases |blocks| - i
  {
    if i == |blocks| then i
    else if blocks[i].ToolUse? && Permits(allowed, blocks[i].name) && tools(i).Raised? then i
    else StopsAt(blocks, i + 1, tools, allowed)
  }

  /** What the model is to hear of a block again: its texts and its tool uses. */
  function PartOf(block: Block): seq<Content> {
    match block
    case Text(text) => [TextPart(text)]
    case ToolUse(id, name, input) => [ToolUsePart(id, name, input)]
    case _ => []
  }

  function PartsFrom(blocks: seq<Block>, i: nat): seq<Content>
    decreases |blocks| - i
  {
    if |blocks| <= i then [] else PartOf(blocks[i]) + PartsFrom(blocks, i + 1)
  }

  function TextsFrom(blocks: seq<Block>, i: nat): seq<string>
    decreases |blocks| - i
  {
    if |blocks| <= i then []
    else if blocks[i].Text? then [blocks[i].text] + TextsFrom(blocks, i + 1)
    else TextsFrom(blocks, i + 1)
  }

  /** The tokens the usage blocks between two indices report. */
  function TokensIn(blocks: seq<Block>, i: nat, stop: nat): (int, int)
    requires i <= stop <= |blocks|
    decreases stop - i
  {
    if i == stop then (0, 0)
    else
      var (input, output) := TokensIn(blocks, i + 1, stop);
      match blocks[i]
      case Usage(a, b) => (input + a, output + b)
      case _ => (input, output)
  }

  /** The result answers the tool use: by the refusal when the caller may not use the tool, and by
      exactly what its dispatch returned when it may. */
  predicate Answers(result: ToolResult, block: Block, dispatched: Dispatched, allowed: Tools)
    requires block.ToolUse?
  {
    && result.toolUseId == block.id
    && if Permits(allowed, block.name) then dispatched == Returned(result.content, result.isError)
       else result.content == "tool not authorized: " + block.name && result.isError
  }

  ghost predicate AnsweredFrom(results: seq<ToolResult>, blocks: seq<Block>, i: nat, tools: nat -> Dispatched,
                               allowed: Tools)
  {
    var at := UsesFrom(blocks, i);
    && |results| == |at|
    && forall j :: 0 <= j < |at| ==> Answers(results[j], blocks[at[j]], tools(at[j]), allowed)
  }

  lemma AnsweredCons(first: ToolResult, results: seq<ToolResult>, blocks: seq<Block>, i: nat,
                     tools: nat -> Dispatched, allowed: Tools)
    requires i < |blocks| && blocks[i].ToolUse? && Answers(first, blocks[i], tools(i), allowed)
    requires AnsweredFrom(results, blocks, i + 1, tools, allowed)
    ensures AnsweredFrom([first] + results, blocks, i, tools, allowed)
  {
  }

  lemma {:induction false} GatherStops(g: Gathered, blocks: seq<Block>, i: nat, tools: nat -> Dispatched,
                                       allowed: Tools)
    requires !g.raised && i <= |blocks|
    ensures var end, stop := GatherFrom(g, blocks, i, tools, allowed), StopsAt(blocks, i, tools, allowed);
            && (end.raised <==> stop < |blocks|)
            && end.usage.input == g.usage.input + TokensIn(blocks, i, stop).0
            && end.usage.output == g.usage.output + TokensIn(blocks, i, stop).1
    decreases |blocks| - i
  {
    if i < |blocks| && StopsAt(blocks, i, tools, allowed) != i {
      GatherStops(GatherBlock(g, blocks[i], tools(i), allowed), blocks, i + 1, tools, allowed);
    }
  }

  lemma BlockAdds(g: Gathered, block: Block, dispatched: Dispatched, allowed: Tools)
    ensures var next := GatherBlock(g, block, dispatched, allowed);
            && next.content == g.content + PartOf(block)
            && next.texts == g.texts + (if block.Text? then [block.text] else [])
  {
  }

  lemma Joins<T>(a: seq<T>, b: seq<T>, c: seq<T>)
    ensures a + b + c == a + (b + c)
  {
  }

  lemma {:induction false} GatherSays(g: Gathered, blocks: seq<Block>, i: nat, tools: nat -> Dispatched,
                                      allowed: Tools)
    requires !g.raised && i <= |blocks|
    ensures var end := GatherFrom(g, blocks, i, tools, allowed);
            !end.raised ==>
              end.content == g.content + PartsFrom(blocks, i) && end.texts == g.texts + TextsFrom(blocks, i)
    decreases |blocks| - i
  {
    if i < |blocks| {
      var next := GatherBlock(g, blocks[i], tools(i), allowed);
      if !next.raised {
        BlockAdds(g, blocks[i], tools(i), allowed);
        GatherSays(next, blocks, i + 1, tools, allowed);
        Joins(g.content, PartOf(blocks[i]), PartsFrom(blocks, i + 1));
        Joins(g.texts, if blocks[i].Text? then [blocks[i].text] else [], TextsFrom(blocks, i + 1));
      }
    }
  }

  lemma BlockAnswers(g: Gathered, block: Block, dispatched: Dispatched, allowed: Tools)
    requires !g.raised
    ensures var next := GatherBlock(g, block, dispatched, allowed);
            && (!block.ToolUse? ==> next.results == g.results && !next.raised)
            && (block.ToolUse? && !next.raised ==>
                  && |next.results| == |g.results| + 1
                  && next.results == g.results + [next.results[|g.results|]]
                  && Answers(next.results[|g.results|], block, dispatched, allowed))
  {
  }

  /** Until a dispatch raises, every tool use is answered, in its place. */
  lemma {:induction false} GatherAnswers(g: Gathered, blocks: seq<Block>, i: nat, tools: nat -> Dispatched,
                                         allowed: Tools) returns (results: seq<ToolResult>)
    requires !g.raised && i <= |blocks| && !GatherFrom(g, blocks, i, tools, allowed).raised
    ensures GatherFrom(g, blocks, i, tools, allowed).results == g.results + results
    ensures AnsweredFrom(results, blocks, i, tools, allowed)
    decreases |blocks| - i
  {
    results := [];
    if i < |blocks| {
      var next := GatherBlock(g, blocks[i], tools(i), allowed);
      BlockAnswers(g, blocks[i], tools(i), allowed);
      results := GatherAnswers(next, blocks, i + 1, tools, allowed);
      if blocks[i].ToolUse? {
        var first := next.results[|g.results|];
        AnsweredCons(first, results, blocks, i, tools, allowed);
        Joins(g.results, [first], results);
        results := [first] + results;
      }
    }
  }

  // Whole turns.

  /** The message and the results behind it are one reply of the model and what its tool uses came to. */
  ghost predicate FromReply(content: seq<Content>, results: seq<ToolResult>, w: StepWorld, allowed: Tools) {
    && w.reply.Blocks? && content == PartsFrom(w.reply.blocks, 0)
    && AnsweredFrom(results, w.reply.blocks, 0, w.reply.tools, allowed)
  }

  ghost predicate SomeReply(content: seq<Content>, results: seq<ToolResult>, world: nat -> StepWorld,
                            allowed: Tools)
  {
    exists k: nat :: FromReply(content, results, world(k), allowed)
  }

  /** No question stands at index i or behind: the message belongs to the turn under way. */
  ghost predicate InThisTurn(messages: seq<Message>, i: nat) {
    forall j :: i <= j < |messages| ==> !messages[j].User?
  }

  /** Everything the model said in this turn is there as it said it, and every tool use is answered by the
      next message: by its dispatch's result where the caller may use the tool, else by the refusal. */
  ghost predicate SaidAt(messages: seq<Message>, i: nat, world: nat -> StepWorld, allowed: Tools)
    requires i < |messages|
  {
    InThisTurn(messages, i) && messages[i].Assistant? ==>
      var results := if i + 1 < |messages| && messages[i + 1].Results? then messages[i + 1].results else [];
      SomeReply(messages[i].content, results, world, allowed)
  }

  ghost predicate Said(messages: seq<Message>, world: nat -> StepWorld, allowed: Tools) {
    forall i :: 0 <= i < |messages| ==> SaidAt(messages, i, world, allowed)
  }

  lemma QuestionSaysNothing(messages: seq<Message>, question: string, world: nat -> StepWorld, allowed: Tools)
    ensures Said(messages + [User(question)], world, allowed)
  {
    var m := messages + [User(question)];
    assert m[|messages|].User?;
  }

  lemma SuffixSays(messages: seq<Message>, cut: nat, world: nat -> StepWorld, allowed: Tools)
    requires cut <= |messages| && Said(messages, world, allowed)
    ensures Said(messages[cut..], world, allowed)
  {
    var m := messages[cut..];
    forall i | 0 <= i < |m|
      ensures SaidAt(m, i, world, allowed)
    {
      assert SaidAt(messages, cut + i, world, allowed);
      if InThisTurn(m, i) {
        forall j | cut + i <= j < |messages|
          ensures !messages[j].User?
        {
          assert m[j - cut] == messages[j];
        }
      }
    }
  }

  lemma CompactSays(messages: seq<Message>, limit: nat, size: Sizes, world: nat -> StepWorld, allowed: Tools)
    requires Said(messages, world, allowed)
    ensures Said(Compact(messages, limit, size), world, allowed)
  {
    if messages != [] && HistoryBytes(messages, size) > limit && SegmentStarts(messages) != [] {
      var starts := SegmentStarts(messages);
      SuffixSays(messages, FirstFit(messages, starts[1..], starts[|starts| - 1], limit, size), world, allowed);
    }
  }

  lemma StillInThisTurn(messages: seq<Message>, m: Message, i: nat)
    requires i < |messages| && InThisTurn(messages + [m], i)
    ensures InThisTurn(messages, i)
  {
    forall j | i <= j < |messages|
      ensures !messages[j].User?
    {
      assert (messages + [m])[j] == messages[j];
    }
  }

  /** An answer that is not followed by results is not followed by them later either. */
  lemma SpeechSays(messages: seq<Message>, content: seq<Content>, world: nat -> StepWorld, allowed: Tools)
    requires Said(messages, world, allowed) && SomeReply(content, [], world, allowed)
    ensures Said(messages + [Assistant(content)], world, allowed)
  {
    var m := messages + [Assistant(content)];
    forall i | 0 <= i < |m|
      ensures SaidAt(m, i, world, allowed)
    {
      if i < |messages| {
        assert SaidAt(messages, i, world, allowed);
        if InThisTurn(m, i) {
          StillInThisTurn(messages, Assistant(content), i);
        }
      }
    }
  }

  lemma ToolStepSays(messages: seq<Message>, content: seq<Content>, results: seq<ToolResult>,
                     world: nat -> StepWorld, allowed: Tools)
    requires Said(messages, world, allowed) && SomeReply(content, results, world, allowed)
    ensures Said(messages + [Assistant(content)] + [Results(results)], world, allowed)
  {
    var m := messages + [Assistant(content)] + [Results(results)];
    forall i | 0 <= i < |m|
      ensures SaidAt(m, i, world, allowed)
    {
      if i < |messages| {
        assert SaidAt(messages, i, world, allowed);
        if InThisTurn(m, i) {
          StillInThisTurn(messages + [Assistant(content)], Results(results), i);
          StillInThisTurn(messages, Assistant(content), i);
        }
      }
    }
  }

  lemma ReplySays(cfg: Config, allowed: Tools, world: nat -> StepWorld, k: nat, usage: TurnLoop.Usage)
    requires world(k).reply.Blocks?
    requires !GatherFrom(Gathered([], [], [], usage, false), world(k).reply.blocks, 0, world(k).reply.tools,
                         allowed).raised
    ensures var g := GatherFrom(Gathered([], [], [], usage, false), world(k).reply.blocks, 0,
                                world(k).reply.tools, allowed);
            SomeReply(g.content, g.results, world, allowed)
  {
    var g0, w := Gathered([], [], [], usage, false), world(k);
    GatherSays(g0, w.reply.blocks, 0, w.reply.tools, allowed);
    var results := GatherAnswers(g0, w.reply.blocks, 0, w.reply.tools, allowed);
    var g := GatherFrom(g0, w.reply.blocks, 0, w.reply.tools, allowed);
    assert [] + results == results && [] + PartsFrom(w.reply.blocks, 0) == PartsFrom(w.reply.blocks, 0);
    assert FromReply(g.content, g.results, w, allowed);
  }

  lemma StepSays(cfg: Config, allowed: Tools, world: nat -> StepWorld, k: nat, p: Progress)
    requires Said(p.messages, world, allowed)
    ensures Said(Step(cfg, allowed, world(k), p).progress.messages, world, allowed)
  {
    var w := world(k);
    CompactSays(p.messages, cfg.limit, cfg.size, world, allowed);
    if !w.abort && !w.late && w.reply.Blocks? {
      var sent := Compact(p.messages, cfg.limit, cfg.size);
      var g := GatherFrom(Gathered([], [], [], p.usage, false), w.reply.blocks, 0, w.reply.tools, allowed);
      if !g.raised {
        ReplySays(cfg, allowed, world, k, p.usage);
        GatherPairs(Gathered([], [], [], p.usage, false), w.reply.blocks, 0, w.reply.tools, allowed);
        if g.results != [] {
          ToolStepSays(sent, g.content, g.results, world, allowed);
        } else if g.content != [] {
          SpeechSays(sent, g.content, world, allowed);
        }
      }
    }
  }

  ghost predicate AllSaid(p: Progress, world: nat -> StepWorld, allowed: Tools) {
    Said(p.messages, world, allowed)
    && forall i :: 0 <= i < |p.payloads| ==> Said(p.payloads[i], world, allowed)
  }

  lemma StepKeepsSaid(cfg: Config, allowed: Tools, world: nat -> StepWorld, k: nat, p: Progress)
    requires AllSaid(p, world, allowed)
    ensures AllSaid(Step(cfg, allowed, world(k), p).progress, world, allowed)
  {
    StepSays(cfg, allowed, world, k, p);
    StepSends(cfg, allowed, world(k), p);
    CompactSays(p.messages, cfg.limit, cfg.size, world, allowed);
  }

  /** In every payload a turn sends and in the transcript it saves, what the model said in this turn stands
      as it said it, every use of a tool the caller may not use is answered by the refusal, as an error,
      and every other by exactly what its dispatch returned. */
  lemma EveryToolUseIsAnswered(cfg: Config, allowed: Tools, stored: seq<Message>, question: string,
                               world: nat -> StepWorld)
    ensures var t := Turn(cfg, allowed, stored, question, world);
            && Said(t.saved, world, allowed)
            && forall i :: 0 <= i < |t.payloads| ==> Said(t.payloads[i], world, allowed)
  {
    var good := (q: Progress) => AllSaid(q, world, allowed);
    forall j: nat, q | good(q)
      ensures good(Step(cfg, allowed, world(j), q).progress)
    {
      StepKeepsSaid(cfg, allowed, world, j, q);
    }
    QuestionSaysNothing(stored, question, world, allowed);
    StepsKeep(cfg, allowed, world, 0, Opening(stored, question), good);
    CompactSays(StepsFrom(cfg, allowed, world, 0, Opening(stored, question)).0.messages, cfg.limit, cfg.size,
                world, allowed);
  }

  /** What one step's reply reports. */
  function StepTokens(w: StepWorld, allowed: Tools): (int, int) {
    if w.abort || w.late || w.reply.ReplyRaised? then (0, 0)
    else TokensIn(w.reply.blocks, 0, StopsAt(w.reply.blocks, 0, w.reply.tools, allowed))
  }

  /** What the steps from k up to n report together. */
  function TokensOf(world: nat -> StepWorld, allowed: Tools, k: nat, n: nat): (int, int)
    requires k <= n
    decreases n - k
  {
    if k == n then (0, 0)
    else
      var (a, b) := StepTokens(world(k), allowed);
      var (c, d) := TokensOf(world, allowed, k + 1, n);
      (a + c, b + d)
  }

  lemma {:induction false} StepsMeter(cfg: Config, allowed: Tools, world: nat -> StepWorld, k: nat, p: Progress)
      returns (n: nat)
    ensures k <= n && (k <= cfg.maxSteps ==> n <= cfg.maxSteps)
    ensures var after := StepsFrom(cfg, allowed, world, k, p).0.usage;
            var tokens := TokensOf(world, allowed, k, n);
            after == TokenUsage(p.usage.input + tokens.0, p.usage.output + tokens.1)
    decreases cfg.maxSteps - k
  {
    n := k;
    if k < cfg.maxSteps {
      StepMeters(cfg, allowed, world(k), p);
      var end := Step(cfg, allowed, world(k), p);
      n := k + 1;
      if end.GoesOn? {
        n := StepsMeter(cfg, allowed, world, k + 1, end.progress);
      }
    }
  }

  /** A turn is charged exactly what the replies of the steps it took reported. */
  lemma TurnMeters(cfg: Config, allowed: Tools, stored: seq<Message>, question: string, world: nat -> StepWorld)
      returns (n: nat)
    ensures n <= cfg.maxSteps
    ensures var tokens := TokensOf(world, allowed, 0, n);
            Turn(cfg, allowed, stored, question, world).usage == TokenUsage(tokens.0, tokens.1)
  {
    n := StepsMeter(cfg, allowed, world, 0, Opening(stored, question));
  }

  // What the caller may not use is never asked.

  predicate MayAsk(block: Block, allowed: Tools) {
    block.ToolUse? && Permits(allowed, block.name)
  }

  /** The same step but for what tools outside the caller's set would have come to. */
  ghost predicate SameButForbidden(a: StepWorld, b: StepWorld, allowed: Tools) {
    && a.abort == b.abort && a.late == b.late && a.progressFails == b.progressFails
    && (a.reply.Blocks? <==> b.reply.Blocks?)
    && (a.reply.Blocks? ==>
          && a.reply.blocks == b.reply.blocks
          && forall i: nat :: i < |a.reply.blocks| && MayAsk(a.reply.blocks[i], allowed) ==>
               a.reply.tools(i) == b.reply.tools(i))
  }

  lemma {:induction false} ForbiddenNotGathered(g: Gathered, blocks: seq<Block>, i: nat, a: nat -> Dispatched,
                                                b: nat -> Dispatched, allowed: Tools)
    requires forall j: nat :: j < |blocks| && MayAsk(blocks[j], allowed) ==> a(j) == b(j)
    ensures GatherFrom(g, blocks, i, a, allowed) == GatherFrom(g, blocks, i, b, allowed)
    decreases |blocks| - i
  {
    if !g.raised && i < |blocks| {
      assert GatherBlock(g, blocks[i], a(i), allowed) == GatherBlock(g, blocks[i], b(i), allowed);
      ForbiddenNotGathered(GatherBlock(g, blocks[i], a(i), allowed), blocks, i + 1, a, b, allowed);
    }
  }

  lemma ForbiddenNotInStep(cfg: Config, allowed: Tools, a: StepWorld, b: StepWorld, p: Progress)
    requires SameButForbidden(a, b, allowed)
    ensures Step(cfg, allowed, a, p) == Step(cfg, allowed, b, p)
  {
    if a.reply.Blocks? {
      ForbiddenNotGathered(Gathered([], [], [], p.usage, false), a.reply.blocks, 0, a.reply.tools, b.reply.tools,
                           allowed);
    }
  }

  lemma {:induction false} ForbiddenNotInSteps(cfg: Config, allowed: Tools, a: nat -> StepWorld,
                                               b: nat -> StepWorld, k: nat, p: Progress)
    requires forall j: nat :: SameButForbidden(a(j), b(j), allowed)
    ensures StepsFrom(cfg, allowed, a, k, p) == StepsFrom(cfg, allowed, b, k, p)
    decreases cfg.maxSteps - k
  {
    if k < cfg.maxSteps {
      ForbiddenNotInStep(cfg, allowed, a(k), b(k), p);
      var end := Step(cfg, allowed, a(k), p);
      if end.GoesOn? {
        ForbiddenNotInSteps(cfg, allowed, a, b, k + 1, end.progress);
      }
    }
  }

  /** Whatever the tools outside the caller's set would have come to, the turn is the same: they are never
      dispatched. */
  lemma ForbiddenToolsChangeNothing(cfg: Config, allowed: Tools, stored: seq<Message>, question: string,
                                    a: nat -> StepWorld, b: nat -> StepWorld)
    requires forall j: nat :: SameButForbidden(a(j), b(j), allowed)
    ensures Turn(cfg, allowed, stored, question, a) == Turn(cfg, allowed, stored, question, b)
  {
    ForbiddenNotInSteps(cfg, allowed, a, b, 0, Opening(stored, question));
  }

  // What the turn comes to.

  function Lines(texts: seq<string>): string {
    if texts == [] then [] else texts[0] + "\n" + Lines(texts[1..])
  }

  lemma {:induction false} JoinedAreLines(texts: seq<string>)
    requires texts != []
    ensures JoinLines(texts) + "\n" == Lines(texts)
  {
    if |texts| > 1 {
      JoinedAreLines(texts[1..]);
      assert texts[0] + "\n" + JoinLines(texts[1..]) + "\n" == texts[0] + "\n" + (JoinLines(texts[1..]) + "\n");
    } else {
      assert Lines(texts[1..]) == [];
    }
  }

  /** A step that replies says the texts of its reply, one to a line, and asked for no tool. */
  lemma RepliedIsSaid(cfg: Config, allowed: Tools, w: StepWorld, p: Progress)
    requires Step(cfg, allowed, w, p).Leaves? && Step(cfg, allowed, w, p).exit.Replied?
    ensures w.reply.Blocks? && UsesFrom(w.reply.blocks, 0) == []
    ensures var texts, reply := TextsFrom(w.reply.blocks, 0), Step(cfg, allowed, w, p).exit.reply;
            if texts == [] then reply == "" else reply + "\n" == Lines(texts)
  {
    var g0 := Gathered([], [], [], p.usage, false);
    GatherSays(g0, w.reply.blocks, 0, w.reply.tools, allowed);
    var results := GatherAnswers(g0, w.reply.blocks, 0, w.reply.tools, allowed);
    assert [] + TextsFrom(w.reply.blocks, 0) == TextsFrom(w.reply.blocks, 0);
    if TextsFrom(w.reply.blocks, 0) != [] {
      JoinedAreLines(TextsFrom(w.reply.blocks, 0));
    }
  }

  /** A step meters the tokens its reply reports, up to a dispatch that raises. */
  lemma StepMeters(cfg: Config, allowed: Tools, w: StepWorld, p: Progress)
    ensures var after := Step(cfg, allowed, w, p).progress.usage;
            if w.abort || w.late || w.reply.ReplyRaised? then after == p.usage
            else
              var tokens := TokensIn(w.reply.blocks, 0, StopsAt(w.reply.blocks, 0, w.reply.tools, allowed));
              after == TokenUsage(p.usage.input + tokens.0, p.usage.output + tokens.1)
  {
    if w.reply.Blocks? {
      GatherStops(Gathered([], [], [], p.usage, false), w.reply.blocks, 0, w.reply.tools, allowed);
    }
  }
}
