/** One agent turn and runs of turns: agent.py, PiAgent._turn_locked over SessionStore. */
module TurnLoop {
  import opened Wrappers
  import opened Framing
  import opened Transcript

  /** What running one tool came to. */
  datatype Dispatched = Returned(content: string, isError: bool) | Raised

  /** What the model answered: the call or the parse raised, or blocks came back, and dispatching
      the tool of the block at an index comes to what `tools` says. */
  datatype Reply = ReplyRaised | Blocks(blocks: seq<Block>, tools: nat -> Dispatched)

  /** The outside world during one step. */
  datatype StepWorld = StepWorld(abort: bool, late: bool, reply: Reply, progressFails: bool)

  datatype Exit =
    | Replied(reply: string)
    | Abandoned
    | DeadlineExceeded
    | StepRaised
    | NoAnswer
    | UnknownTools

  datatype Usage = TokenUsage(input: int, output: int)

  datatype Config = Config(maxSteps: nat, limit: nat, size: Sizes, manifest: set<string>)

  /** The tools a caller may use in this turn; None is all of them. */
  type Tools = Option<set<string>>

  /** The lists one step grows while it walks the blocks of a reply. */
  datatype Gathered = Gathered(content: seq<Content>, results: seq<ToolResult>, texts: seq<string>,
                               usage: Usage, raised: bool)

  function ToolOutcome(name: string, dispatched: Dispatched, allowed: Tools): Dispatched {
    if allowed.Some? && name !in allowed.value
    then Returned("tool not authorized: " + name, true)
    else dispatched
  }

  /** One block's contribution; a raised dispatch stops the walk. */
  function GatherBlock(g: Gathered, block: Block, dispatched: Dispatched, allowed: Tools)
    : Gathered
  {
    match block
    case Text(text) => g.(texts := g.texts + [text], content := g.content + [TextPart(text)])
    case Usage(i, o) => g.(usage := TokenUsage(g.usage.input + i, g.usage.output + o))
    case Other(_) => g
    case ToolUse(id, name, input) =>
      match ToolOutcome(name, dispatched, allowed)
      case Raised => g.(content := g.content + [ToolUsePart(id, name, input)], raised := true)
      case Returned(content, isError) =>
        g.(content := g.content + [ToolUsePart(id, name, input)],
           results := g.results + [ToolResult(id, content, isError)])
  }

  function GatherFrom(g: Gathered, blocks: seq<Block>, i: nat, tools: nat -> Dispatched,
                      allowed: Tools): Gathered
    decreases |blocks| - i
  {
    if g.raised || |blocks| <= i then g
    else GatherFrom(GatherBlock(g, blocks[i], tools(i), allowed), blocks, i + 1, tools, allowed)
  }

  function JoinLines(texts: seq<string>): string {
    if texts == [] then [] else if |texts| == 1 then texts[0] else texts[0] + "\n" + JoinLines(texts[1..])
  }

  /** Where a turn stands: the transcript, everything sent so far, and the tokens metered. */
  datatype Progress = Progress(messages: seq<Message>, payloads: seq<seq<Message>>, usage: Usage)

  /** How one step ends: the turn goes on, or leaves through an exit. */
  datatype StepEnd = GoesOn(progress: Progress) | Leaves(progress: Progress, exit: Exit)

  function Step(cfg: Config, allowed: Tools, w: StepWorld, p: Progress): StepEnd {
    if w.abort then Leaves(p, Abandoned) else
    if w.late then Leaves(p, DeadlineExceeded) else
    var sent := Compact(p.messages, cfg.limit, cfg.size);
    var p1 := p.(messages := sent, payloads := p.payloads + [sent]);
    if w.reply.ReplyRaised? then Leaves(p1, StepRaised) else
    var g := GatherFrom(Gathered([], [], [], p.usage, false), w.reply.blocks, 0, w.reply.tools, allowed);
    var p2 := p1.(usage := g.usage);
    if g.raised then Leaves(p2, StepRaised) else
    var spoken := if g.content == [] then sent else sent + [Assistant(g.content)];
    if g.results == [] then Leaves(p2.(messages := spoken), Replied(JoinLines(g.texts))) else
    var p3 := p2.(messages := spoken + [Results(g.results)]);
    if w.progressFails then Leaves(p3, Abandoned) else GoesOn(p3)
  }

  function StepsFrom(cfg: Config, allowed: Tools, world: nat -> StepWorld, k: nat, p: Progress)
    : (r: (Progress, Exit))
    decreases cfg.maxSteps - k
  {
    if cfg.maxSteps <= k then (p, NoAnswer) else
    match Step(cfg, allowed, world(k), p)
    case Leaves(p', exit) => (p', exit)
    case GoesOn(p') => StepsFrom(cfg, allowed, world, k + 1, p')
  }

  /** Everything a turn does: what it sent, how it left, what it persists, what it metered. */
  datatype TurnResult = TurnResult(saved: seq<Message>, payloads: seq<seq<Message>>, exit: Exit, usage: Usage)

  /** The caller allows a tool the manifest does not know: refused before anything is loaded. */
  predicate Refused(cfg: Config, allowed: Tools) {
    allowed.Some? && !(allowed.value <= cfg.manifest)
  }

  function Opening(stored: seq<Message>, question: string): Progress {
    Progress(stored + [User(question)], [], TokenUsage(0, 0))
  }

  function Turn(cfg: Config, allowed: Tools, stored: seq<Message>, question: string, world: nat -> StepWorld)
    : TurnResult
  {
    var (p, exit) := StepsFrom(cfg, allowed, world, 0, Opening(stored, question));
    TurnResult(Compact(p.messages, cfg.limit, cfg.size), p.payloads, exit, p.usage)
  }

  /** The host: durable transcripts by session, and the running token totals. */
  class PiAgent {
    const cfg: Config
    var store: map<string, seq<Message>>
    var usageTotal: Usage

    constructor (cfg: Config)
      ensures this.cfg == cfg && store == map[] && usageTotal == TokenUsage(0, 0)
    {
      this.cfg := cfg;
      store := map[];
      usageTotal := TokenUsage(0, 0);
    }

    function Load(session: string): seq<Message>
      reads this
    {
      if session in store then store[session] else []
    }

    /** The inner loop of a step: the lists grow block by block. */
    method GatherBlocks(allowed: Tools, usage: Usage, blocks: seq<Block>, tools: nat -> Dispatched)
      returns (g: Gathered)
      ensures g == GatherFrom(Gathered([], [], [], usage, false), blocks, 0, tools, allowed)
    {
      g := Gathered([], [], [], usage, false);
      var i := 0;
      while i < |blocks| && !g.raised
        invariant 0 <= i <= |blocks|
        invariant GatherFrom(g, blocks, i, tools, allowed)
                  == GatherFrom(Gathered([], [], [], usage, false), blocks, 0, tools, allowed)
      {
        g := GatherBlock(g, blocks[i], tools(i), allowed);
        i := i + 1;
      }
    }

    /** One step of the loop over the turn's own message list. */
    method RunStep(allowed: Tools, w: StepWorld, p: Progress) returns (end: StepEnd)
      ensures end == Step(cfg, allowed, w, p)
    {
      if w.abort {
        return Leaves(p, Abandoned);
      }
      if w.late {
        return Leaves(p, DeadlineExceeded);
      }
      var messages := Compact(p.messages, cfg.limit, cfg.size);
      var payloads := p.payloads + [messages];
      if w.reply.ReplyRaised? {
        return Leaves(Progress(messages, payloads, p.usage), StepRaised);
      }
      var g := GatherBlocks(allowed, p.usage, w.reply.blocks, w.reply.tools);
      if g.raised {
        return Leaves(Progress(messages, payloads, g.usage), StepRaised);
      }
      if g.content != [] {
        messages := messages + [Assistant(g.content)];
      }
      if g.results == [] {
        return Leaves(Progress(messages, payloads, g.usage), Replied(JoinLines(g.texts)));
      }
      messages := messages + [Results(g.results)];
      var p' := Progress(messages, payloads, g.usage);
      end := if w.progressFails then Leaves(p', Abandoned) else GoesOn(p');
    }

    /** _turn_locked: an unknown allowed tool changes nothing; otherwise, whatever the exit, exactly the
        turn's transcript is persisted for this session, every other session is left alone, and the
        turn's tokens join the totals. */
    method TurnLocked(session: string, question: string, allowed: Tools, world: nat -> StepWorld)
      returns (exit: Exit, ghost payloads: seq<seq<Message>>)
      modifies this
      ensures Refused(cfg, allowed) ==>
                exit == UnknownTools && payloads == [] && store == old(store) && usageTotal == old(usageTotal)
      ensures !Refused(cfg, allowed) ==>
              var stored := if session in old(store) then old(store)[session] else [];
              var t := Turn(cfg, allowed, stored, question, world);
              && store == old(store)[session := t.saved]
              && exit == t.exit && payloads == t.payloads
              && usageTotal == TokenUsage(old(usageTotal).input + t.usage.input,
                                          old(usageTotal).output + t.usage.output)
      ensures store == Serve(cfg, old(store), Request(session, question, allowed, world))
    {
      if allowed.Some? && !(allowed.value <= cfg.manifest) {
        return UnknownTools, [];
      }
      var p := Opening(Load(session), question);
      ghost var start := p;
      exit := NoAnswer;
      var k := 0;
      var running := true;
      while running && k < cfg.maxSteps
        invariant 0 <= k <= cfg.maxSteps
        invariant store == old(store) && usageTotal == old(usageTotal)
        invariant running ==>
          exit == NoAnswer && StepsFrom(cfg, allowed, world, k, p) == StepsFrom(cfg, allowed, world, 0, start)
        invariant !running ==> (p, exit) == StepsFrom(cfg, allowed, world, 0, start)
      {
        var end := RunStep(allowed, world(k), p);
        p := end.progress;
        if end.Leaves? {
          exit := end.exit;
          running := false;
        }
        k := k + 1;
      }
      payloads := p.payloads;
      store := store[session := Compact(p.messages, cfg.limit, cfg.size)];
      usageTotal := TokenUsage(usageTotal.input + p.usage.input, usageTotal.output + p.usage.output);
    }
  }

  // Every exit leaves well-formed transcripts behind.

  lemma {:induction false} ToolUseIdsAppend(content: seq<Content>, last: Content)
    ensures ToolUseIds(content + [last])
            == ToolUseIds(content) + (if last.ToolUsePart? then [last.id] else [])
  {
    if content == [] {
      assert [last][1..] == [];
    } else {
      assert (content + [last])[1..] == content[1..] + [last];
      ToolUseIdsAppend(content[1..], last);
    }
  }

  lemma {:induction false} ResultIdsAppend(results: seq<ToolResult>, last: ToolResult)
    ensures ResultIds(results + [last]) == ResultIds(results) + [last.toolUseId]
  {
    if results == [] {
      assert [last][1..] == [];
    } else {
      assert (results + [last])[1..] == results[1..] + [last];
      ResultIdsAppend(results[1..], last);
    }
  }

  /** Until a dispatch raises, every tool use gathered has its result, in order. */
  ghost predicate Paired(g: Gathered) {
    && (!g.raised ==> ToolUseIds(g.content) == ResultIds(g.results))
    && (g.results != [] ==> g.content != [])
  }

  lemma GatherBlockPairs(g: Gathered, block: Block, dispatched: Dispatched, allowed: Tools)
    requires Paired(g) && !g.raised
    ensures Paired(GatherBlock(g, block, dispatched, allowed))
  {
    match block
    case Usage(_, _) =>
    case Other(_) =>
    case Text(text) => ToolUseIdsAppend(g.content, TextPart(text));
    case ToolUse(id, name, input) =>
      ToolUseIdsAppend(g.content, ToolUsePart(id, name, input));
      var outcome := ToolOutcome(name, dispatched, allowed);
      if outcome.Returned? {
        ResultIdsAppend(g.results, ToolResult(id, outcome.content, outcome.isError));
      }
  }

  lemma {:induction false} GatherPairs(g: Gathered, blocks: seq<Block>, i: nat, tools: nat -> Dispatched,
      allowed: Tools)
    requires Paired(g)
    ensures Paired(GatherFrom(g, blocks, i, tools, allowed))
    decreases |blocks| - i
  {
    if !g.raised && i < |blocks| {
      GatherBlockPairs(g, blocks[i], tools(i), allowed);
      GatherPairs(GatherBlock(g, blocks[i], tools(i), allowed), blocks, i + 1, tools, allowed);
    }
  }

  lemma AppendQuestion(messages: seq<Message>, question: string)
    requires WellFormed(messages)
    ensures WellFormed(messages + [User(question)])
    ensures LastQuestion(messages + [User(question)]) == Some(question)
  {
    var m := messages + [User(question)];
    forall i | 0 <= i < |m|
      ensures GoodAt(m, i)
    {
      if i < |messages| {
        assert GoodAt(messages, i);
      }
    }
  }

  lemma AppendKeepsLastQuestion(messages: seq<Message>, m: Message)
    requires !m.User?
    ensures LastQuestion(messages + [m]) == LastQuestion(messages)
  {
    assert (messages + [m])[..|messages|] == messages;
  }

  lemma AppendSpeech(messages: seq<Message>, content: seq<Content>)
    requires WellFormed(messages) && messages != []
    requires content != [] && ToolUseIds(content) == []
    ensures WellFormed(messages + [Assistant(content)])
  {
    var m := messages + [Assistant(content)];
    forall i | 0 <= i < |m|
      ensures GoodAt(m, i)
    {
      if i < |messages| {
        assert GoodAt(messages, i);
      }
    }
  }

  lemma AppendToolStep(messages: seq<Message>, content: seq<Content>, results: seq<ToolResult>)
    requires WellFormed(messages) && messages != []
    requires content != [] && results != [] && ToolUseIds(content) == ResultIds(results)
    ensures WellFormed(messages + [Assistant(content)] + [Results(results)])
  {
    var m := messages + [Assistant(content)] + [Results(results)];
    forall i | 0 <= i < |m|
      ensures GoodAt(m, i)
    {
      if i < |messages| {
        assert GoodAt(messages, i);
        assert m[i] == messages[i];
        if i + 1 < |messages| {
          assert m[i + 1] == messages[i + 1];
        }
      }
    }
  }

  /** A transcript fit to be sent or saved while answering `question`. */
  ghost predicate Answering(messages: seq<Message>, question: string) {
    WellFormed(messages) && LastQuestion(messages) == Some(question)
  }

  ghost predicate GoodProgress(p: Progress, question: string) {
    && Answering(p.messages, question)
    && forall i :: 0 <= i < |p.payloads| ==> Answering(p.payloads[i], question)
  }

  lemma StepKeepsAnswering(cfg: Config, allowed: Tools, w: StepWorld, p: Progress, question: string)
    requires Answering(p.messages, question)
    ensures Answering(Step(cfg, allowed, w, p).progress.messages, question)
  {
    var sent := Compact(p.messages, cfg.limit, cfg.size);
    CompactPreserves(p.messages, cfg.limit, cfg.size);
    if !w.abort && !w.late && w.reply.Blocks? {
      var g0 := Gathered([], [], [], p.usage, false);
      GatherPairs(g0, w.reply.blocks, 0, w.reply.tools, allowed);
      var g := GatherFrom(g0, w.reply.blocks, 0, w.reply.tools, allowed);
      AppendKeepsLastQuestion(sent, Assistant(g.content));
      if !g.raised {
        if g.results != [] {
          AppendToolStep(sent, g.content, g.results);
          AppendKeepsLastQuestion(sent + [Assistant(g.content)], Results(g.results));
        } else if g.content != [] {
          AppendSpeech(sent, g.content);
        }
      }
    }
  }

  lemma StepSends(cfg: Config, allowed: Tools, w: StepWorld, p: Progress)
    ensures var sent := Step(cfg, allowed, w, p).progress.payloads;
            sent == p.payloads || sent == p.payloads + [Compact(p.messages, cfg.limit, cfg.size)]
  {
  }

  lemma StepKeepsGood(cfg: Config, allowed: Tools, w: StepWorld, p: Progress, question: string)
    requires GoodProgress(p, question)
    ensures GoodProgress(Step(cfg, allowed, w, p).progress, question)
  {
    StepKeepsAnswering(cfg, allowed, w, p, question);
    StepSends(cfg, allowed, w, p);
    CompactPreserves(p.messages, cfg.limit, cfg.size);
  }

  /** Whatever every step keeps, a whole turn keeps. */
  lemma {:induction false} StepsKeep(cfg: Config, allowed: Tools, world: nat -> StepWorld, k: nat, p: Progress,
      good: Progress -> bool)
    requires forall j: nat, q :: good(q) ==> good(Step(cfg, allowed, world(j), q).progress)
    requires good(p)
    ensures good(StepsFrom(cfg, allowed, world, k, p).0)
    decreases cfg.maxSteps - k
  {
    if k < cfg.maxSteps {
      var end := Step(cfg, allowed, world(k), p);
      assert good(end.progress);
      if end.GoesOn? {
        StepsKeep(cfg, allowed, world, k + 1, end.progress, good);
      }
    }
  }

  lemma StepsKeepGood(cfg: Config, allowed: Tools, world: nat -> StepWorld, p: Progress, question: string)
    requires GoodProgress(p, question)
    ensures GoodProgress(StepsFrom(cfg, allowed, world, 0, p).0, question)
  {
    var good := (q: Progress) => GoodProgress(q, question);
    forall w, q | good(q)
      ensures good(Step(cfg, allowed, w, q).progress)
    {
      StepKeepsGood(cfg, allowed, w, q, question);
    }
    StepsKeep(cfg, allowed, world, 0, p, good);
  }

  /** One turn over a well-formed stored transcript, whatever the model, the tools, the caller and the
      clock do: every payload sent and the transcript saved are well formed, and each still holds the
      question being answered as its newest real user turn. */
  lemma TurnIsSound(cfg: Config, allowed: Tools, stored: seq<Message>, question: string,
      world: nat -> StepWorld)
    requires WellFormed(stored)
    ensures var t := Turn(cfg, allowed, stored, question, world);
            && Answering(t.saved, question)
            && forall i :: 0 <= i < |t.payloads| ==> Answering(t.payloads[i], question)
  {
    AppendQuestion(stored, question);
    StepsKeepGood(cfg, allowed, world, Opening(stored, question), question);
    var (p, exit) := StepsFrom(cfg, allowed, world, 0, Opening(stored, question));
    CompactPreserves(p.messages, cfg.limit, cfg.size);
  }

  /** What a turn persists is within the limit, or is its own turn alone. */
  lemma SavedIsBounded(cfg: Config, allowed: Tools, stored: seq<Message>, question: string,
      world: nat -> StepWorld)
    requires WellFormed(stored)
    ensures var saved := Turn(cfg, allowed, stored, question, world).saved;
            HistoryBytes(saved, cfg.size) <= cfg.limit || SingleTurn(saved)
  {
    AppendQuestion(stored, question);
    StepsKeepGood(cfg, allowed, world, Opening(stored, question), question);
    var (p, exit) := StepsFrom(cfg, allowed, world, 0, Opening(stored, question));
    CompactIsBoundedAndIdempotent(p.messages, cfg.limit, cfg.size);
  }

  // Runs of turns over many sessions.

  datatype Request = Request(session: string, question: string, allowed: Tools, world: nat -> StepWorld)

  function Serve(cfg: Config, store: map<string, seq<Message>>, r: Request): map<string, seq<Message>> {
    if Refused(cfg, r.allowed) then store else
    var stored := if r.session in store then store[r.session] else [];
    store[r.session := Turn(cfg, r.allowed, stored, r.question, r.world).saved]
  }

  function ServeAll(cfg: Config, store: map<string, seq<Message>>, requests: seq<Request>)
    : map<string, seq<Message>>
    decreases |requests|
  {
    if requests == [] then store else ServeAll(cfg, Serve(cfg, store, requests[0]), requests[1..])
  }

  /** A longer run serves its last turn on what the others left. */
  lemma {:induction false} ServeAllAppends(cfg: Config, store: map<string, seq<Message>>, requests: seq<Request>,
      last: Request)
    ensures ServeAll(cfg, store, requests + [last]) == Serve(cfg, ServeAll(cfg, store, requests), last)
    decreases |requests|
  {
    if requests == [] {
      assert ([] + [last])[1..] == [];
    } else {
      assert (requests + [last])[1..] == requests[1..] + [last];
      ServeAllAppends(cfg, Serve(cfg, store, requests[0]), requests[1..], last);
    }
  }

  ghost predicate SoundStore(cfg: Config, store: map<string, seq<Message>>) {
    forall s :: s in store ==>
      WellFormed(store[s]) && (HistoryBytes(store[s], cfg.size) <= cfg.limit || SingleTurn(store[s]))
  }

  lemma ServeKeepsSound(cfg: Config, store: map<string, seq<Message>>, r: Request)
    requires SoundStore(cfg, store)
    ensures SoundStore(cfg, Serve(cfg, store, r))
  {
    var stored := if r.session in store then store[r.session] else [];
    TurnIsSound(cfg, r.allowed, stored, r.question, r.world);
    SavedIsBounded(cfg, r.allowed, stored, r.question, r.world);
  }

  /** After any sequence of turns of any sessions, ending in any way, every persisted transcript is
      still well formed and bounded. */
  lemma {:induction false} EveryStoredTranscriptIsSound(cfg: Config, store: map<string, seq<Message>>,
      requests: seq<Request>)
    requires SoundStore(cfg, store)
    ensures SoundStore(cfg, ServeAll(cfg, store, requests))
    decreases |requests|
  {
    if requests != [] {
      ServeKeepsSound(cfg, store, requests[0]);
      EveryStoredTranscriptIsSound(cfg, Serve(cfg, store, requests[0]), requests[1..]);
    }
  }

  /** Wherever a turn stands in such a run, everything it sends is well formed and asks its own
      question. */
  lemma EveryPayloadIsSound(cfg: Config, store: map<string, seq<Message>>, requests: seq<Request>, k: nat)
    requires SoundStore(cfg, store) && k < |requests|
    ensures var before := ServeAll(cfg, store, requests[..k]);
            var r := requests[k];
            var stored := if r.session in before then before[r.session] else [];
            var t := Turn(cfg, r.allowed, stored, r.question, r.world);
            forall i :: 0 <= i < |t.payloads| ==> Answering(t.payloads[i], r.question)
  {
    EveryStoredTranscriptIsSound(cfg, store, requests[..k]);
    var before, r := ServeAll(cfg, store, requests[..k]), requests[k];
    TurnIsSound(cfg, r.allowed, if r.session in before then before[r.session] else [], r.question, r.world);
  }
}
