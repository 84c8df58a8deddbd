/** One forging endpoint over a succession of killable compilers: runtime_client.py,
    SupervisedRuntime and the reusable-versus-dead split of ProductionSigilMCP._request. */
module Runtime {
  import opened Wrappers

  // How one request ends.

  /** What came back on the stream. */
  datatype Response =
    | WriteFails
    | NothingInTime
    | StreamClosed
    | NotJson
    | Frame(versionOk: bool, idMatches: bool, hasError: bool, hasResult: bool, resultUsable: bool)

  datatype Outcome =
    | Answered
    | Refused
    | TimedOut(budgetExpired: bool)
    | Broken

  /** _request and _tool: `budget` is the caller's remaining turn budget, `base` the client's own
      watchdog; the smaller of the two is waited for. */
  function RequestOutcome(response: Response, budget: Option<real>, base: real): Outcome {
    var timeout := if budget.Some? && budget.value < base then budget.value else base;
    var callers := budget.Some? && budget.value <= base;
    if response.WriteFails? then Broken
    else if timeout <= 0.0 then TimedOut(callers)
    else match response
      case WriteFails => Broken
      case NothingInTime => TimedOut(callers)
      case StreamClosed => Broken
      case NotJson => Broken
      case Frame(versionOk, idMatches, hasError, hasResult, resultUsable) =>
        if !versionOk || !idMatches then Broken
        else if hasError || !hasResult || !resultUsable then Refused
        else Answered
  }

  /** A connection is kept exactly when the request's own frame was read off the stream in time, so
      the next caller cannot be handed somebody else's answer. */
  lemma KeptIffOwnFrameConsumed(response: Response, budget: Option<real>, base: real)
    ensures var o := RequestOutcome(response, budget, base);
            (o.Answered? || o.Refused?) <==>
              && response.Frame? && response.versionOk && response.idMatches
              && base > 0.0 && (budget.Some? ==> budget.value > 0.0)
  {
  }

  /** The frame that answers this request came back before any clock ran out. */
  predicate AnsweredInTime(response: Response, budget: Option<real>, base: real) {
    && response.Frame? && response.versionOk && response.idMatches
    && 0.0 < base && (budget.Some? ==> 0.0 < budget.value)
  }

  /** The request was written and a clock ran out on it, at once when none had anything left. */
  predicate OutOfTime(response: Response, budget: Option<real>, base: real) {
    !response.WriteFails? &&
    (response.NothingInTime? || base <= 0.0 || (budget.Some? && budget.value <= 0.0))
  }

  /** The caller's clock is the one that runs out first, or together with the watchdog. */
  predicate CallersClock(budget: Option<real>, base: real) {
    budget.Some? && !(base < budget.value)
  }

  /** A request is answered exactly by its own frame with a usable result and no error, and refused
      exactly by its own frame without. It times out exactly when a clock runs out on it, and then it is
      excused exactly when that clock is the caller's. */
  lemma OutcomeMeans(response: Response, budget: Option<real>, base: real)
    ensures var o := RequestOutcome(response, budget, base);
            && (o.Answered? <==> AnsweredInTime(response, budget, base) &&
                                 !response.hasError && response.hasResult && response.resultUsable)
            && (o.Refused? <==> AnsweredInTime(response, budget, base) &&
                                (response.hasError || !response.hasResult || !response.resultUsable))
            && (o.TimedOut? <==> OutOfTime(response, budget, base))
            && (o.TimedOut? ==> (o.budgetExpired <==> CallersClock(budget, base)))
  {
  }

  // The failure ledger.

  /** `watchdog` is the client's own limit on one request. */
  datatype Config = Config(unhealthyBudget: nat, unhealthyWindow: real, watchdog: real)

  datatype Ledger = Ledger(unhealthy: seq<real>, replacements: nat, unrecoverable: bool)

  /** The marks still inside the window: older ones leave from the front. */
  function Trim(unhealthy: seq<real>, now: real, window: real): seq<real> {
    if unhealthy != [] && now - unhealthy[0] > window then Trim(unhealthy[1..], now, window) else unhealthy
  }

  function Mark(l: Ledger, now: real, cfg: Config): Ledger {
    var recent := Trim(l.unhealthy + [now], now, cfg.unhealthyWindow);
    Ledger(recent, l.replacements + 1, l.unrecoverable || |recent| > cfg.unhealthyBudget)
  }

  /** What retiring a compiler does to the ledger: only a failure that was not the caller's own
      expired budget counts. */
  function AfterFailure(l: Ledger, outcome: Outcome, now: real, cfg: Config): Ledger {
    if outcome == TimedOut(true) then l else Mark(l, now, cfg)
  }

  // The endpoint as steps of many threads.

  datatype Pc =
    // a thread calling forge, or starting the first compiler eagerly
    | Wants(eager: bool)
    | Entered(eager: bool)
    | MustStart
    | Spawned(process: nat)
    | Installed(process: nat)
    | Forging
    | Reaping(process: nat)
    | Retiring(process: nat)
    | Leaving
    // a thread calling close
    | Closing
    | CloseHolds(taken: Option<nat>)
    | CloseLeaves
    | CloseSaw(seen: Option<nat>)

  datatype State = State(closed: bool, lock: Option<nat>, client: Option<nat>, generation: nat,
                         live: set<nat>, spawned: nat, threads: map<nat, Pc>, closeReturned: bool,
                         ledger: Ledger, marks: seq<real>, now: real)

  datatype Action =
    | Call(eager: bool)
    | TakeLock
    | LookIn
    | RefuseStart
    | Spawn
    | SpawnFails
    | HandshakeOk
    | HandshakeFails
    | LookClosed(residueLeft: bool)
    | ForgeEnds(response: Response, budget: Option<real>)
    | Dispose
    | Release
    | CallClose
    | CloseTakesLock
    | CloseTimesOut
    | CloseKills
    | CloseReleases
    | CloseDisposes
    | ProcessDies(process: nat)
    | TimePasses(later: real)

  predicate Enabled(s: State, t: nat, a: Action) {
    match a
    case Call(_) => t !in s.threads
    case TakeLock => t in s.threads && s.threads[t].Wants? && s.lock == None
    case LookIn => t in s.threads && s.threads[t].Entered?
    case RefuseStart => t in s.threads && s.threads[t].MustStart?
    case Spawn => t in s.threads && s.threads[t].MustStart? && !s.ledger.unrecoverable
    case SpawnFails => t in s.threads && s.threads[t].MustStart? && !s.ledger.unrecoverable
    case HandshakeOk => t in s.threads && s.threads[t].Spawned?
    case HandshakeFails => t in s.threads && s.threads[t].Spawned?
    case LookClosed(_) => t in s.threads && s.threads[t].Installed?
    case ForgeEnds(_, _) => t in s.threads && s.threads[t].Forging? && s.client.Some?
    case Dispose => t in s.threads && (s.threads[t].Reaping? || s.threads[t].Retiring?)
    case Release => t in s.threads && s.threads[t].Leaving?
    case CallClose => t !in s.threads
    case CloseTakesLock => t in s.threads && s.threads[t].Closing? && s.lock == None
    case CloseTimesOut => t in s.threads && s.threads[t].Closing?
    case CloseKills => t in s.threads && s.threads[t].CloseHolds?
    case CloseReleases => t in s.threads && s.threads[t].CloseLeaves?
    case CloseDisposes => t in s.threads && s.threads[t].CloseSaw?
    case ProcessDies(_) => true
    case TimePasses(later) => s.now <= later
  }

  function Only(process: Option<nat>): set<nat> {
    if process.Some? then {process.value} else {}
  }

  function Next(s: State, t: nat, a: Action, cfg: Config): State
    requires Enabled(s, t, a)
  {
    match a
    case Call(eager) => s.(threads := s.threads[t := Wants(eager)])
    case TakeLock => s.(lock := Some(t), threads := s.threads[t := Entered(s.threads[t].eager)])
    case LookIn =>
      s.(threads := s.threads[t :=
           if s.threads[t].eager then MustStart
           else if s.closed then Leaving
           else if s.client.Some? then Forging
           else MustStart])
    case RefuseStart => s.(threads := s.threads[t := Leaving])
    case Spawn =>
      s.(live := s.live + {s.spawned}, spawned := s.spawned + 1,
         threads := s.threads[t := Spawned(s.spawned)])
    case SpawnFails => s.(threads := s.threads[t := Leaving])
    case HandshakeOk =>
      s.(client := Some(s.threads[t].process), generation := s.generation + 1,
         threads := s.threads[t := Installed(s.threads[t].process)])
    case HandshakeFails =>
      s.(live := s.live - {s.threads[t].process}, threads := s.threads[t := Leaving],
         ledger := Mark(s.ledger, s.now, cfg), marks := s.marks + [s.now])
    case LookClosed(residueLeft) =>
      if s.closed then
        s.(client := None, threads := s.threads[t := Reaping(s.threads[t].process)])
      else
        s.(threads := s.threads[t := if residueLeft then Forging else Leaving])
    case ForgeEnds(response, budget) =>
      var outcome := RequestOutcome(response, budget, cfg.watchdog);
      if outcome.Answered? || outcome.Refused? then s.(threads := s.threads[t := Leaving]) else
      s.(client := None, threads := s.threads[t := Retiring(s.client.value)],
         ledger := AfterFailure(s.ledger, outcome, s.now, cfg),
         marks := if outcome == TimedOut(true) then s.marks else s.marks + [s.now])
    case Dispose =>
      s.(live := s.live - {s.threads[t].process}, threads := s.threads[t := Leaving])
    case Release => s.(lock := None, threads := s.threads - {t})
    case CallClose => s.(closed := true, threads := s.threads[t := Closing])
    case CloseTakesLock =>
      s.(lock := Some(t), client := None, threads := s.threads[t := CloseHolds(s.client)])
    case CloseTimesOut => s.(threads := s.threads[t := CloseSaw(s.client)])
    case CloseKills => s.(live := s.live - Only(s.threads[t].taken), threads := s.threads[t := CloseLeaves])
    case CloseReleases => s.(lock := None, threads := s.threads - {t}, closeReturned := true)
    case CloseDisposes =>
      s.(live := s.live - Only(s.threads[t].seen), threads := s.threads - {t}, closeReturned := true)
    case ProcessDies(process) => s.(live := s.live - {process})
    case TimePasses(later) => s.(now := later)
  }

  const START: State :=
    State(false, None, None, 0, {}, 0, map[], false, Ledger([], 0, false), [], 0.0)

  /** The endpoint's own fields. Each method is one step's work on them, `s` being the state of all
      threads before that step and `t` the thread that takes it. */
  class SupervisedRuntime {
    const cfg: Config
    var client: Option<nat>
    var generation: nat
    var unhealthy: seq<real>
    var replacements: nat
    var unrecoverable: bool
    var closed: bool

    constructor (cfg: Config)
      ensures this.cfg == cfg && Shows(START)
    {
      this.cfg := cfg;
      client := None;
      generation := 0;
      unhealthy := [];
      replacements := 0;
      unrecoverable := false;
      closed := false;
    }

    function Books(): Ledger
      reads this
    {
      Ledger(unhealthy, replacements, unrecoverable)
    }

    ghost predicate Shows(s: State)
      reads this
    {
      s.client == client && s.generation == generation && s.closed == closed && s.ledger == Books()
    }

    method MarkUnhealthy(now: real)
      modifies `unhealthy, `replacements, `unrecoverable
      ensures Books() == Mark(old(Books()), now, cfg)
    {
      unhealthy := unhealthy + [now];
      while unhealthy != [] && now - unhealthy[0] > cfg.unhealthyWindow
        invariant Trim(unhealthy, now, cfg.unhealthyWindow)
                  == Trim(old(unhealthy) + [now], now, cfg.unhealthyWindow)
        invariant replacements == old(replacements) && unrecoverable == old(unrecoverable)
        decreases |unhealthy|
      {
        unhealthy := unhealthy[1..];
      }
      replacements := replacements + 1;
      if |unhealthy| > cfg.unhealthyBudget {
        unrecoverable := true;
      }
    }

    /** _retire, up to disposing of the compiler it hands back. */
    method Retire(outcome: Outcome, now: real, ghost response: Response, ghost budget: Option<real>,
                  ghost s: State, ghost t: nat) returns (dead: Option<nat>)
      requires Shows(s) && Enabled(s, t, ForgeEnds(response, budget)) && s.now == now
      requires outcome == RequestOutcome(response, budget, cfg.watchdog)
      requires !outcome.Answered? && !outcome.Refused?
      modifies `client, `unhealthy, `replacements, `unrecoverable
      ensures dead == old(client) && client == None
      ensures Books() == AfterFailure(old(Books()), outcome, now, cfg)
      ensures var s' := Next(s, t, ForgeEnds(response, budget), cfg);
              Shows(s') && s'.threads[t] == Retiring(dead.value)
    {
      dead := client;
      client := None;
      var benign := outcome.TimedOut? && outcome.budgetExpired;
      if !benign {
        MarkUnhealthy(now);
      }
    }

    /** A handshake that fails always counts, even on the caller's own budget. */
    method HandshakeFailed(now: real, ghost s: State, ghost t: nat)
      requires Shows(s) && Enabled(s, t, HandshakeFails) && s.now == now
      modifies `unhealthy, `replacements, `unrecoverable
      ensures Shows(Next(s, t, HandshakeFails, cfg))
    {
      MarkUnhealthy(now);
    }

    /** The tail of _start_generation installs first... */
    method Install(process: nat, ghost s: State, ghost t: nat)
      requires Shows(s) && Enabled(s, t, HandshakeOk) && s.threads[t].process == process
      modifies `client, `generation
      ensures client == Some(process) && generation == old(generation) + 1
      ensures Shows(Next(s, t, HandshakeOk, cfg))
    {
      client := Some(process);
      generation := generation + 1;
    }

    /** ...and only then looks whether close came by; what it withdraws it reaps itself. */
    method LookWhetherClosed(residueLeft: bool, ghost s: State, ghost t: nat) returns (keep: bool)
      requires Shows(s) && Enabled(s, t, LookClosed(residueLeft))
      modifies `client
      ensures keep == !closed && client == if keep then old(client) else None
      ensures var s' := Next(s, t, LookClosed(residueLeft), cfg);
              Shows(s') && (keep <==> !s'.threads[t].Reaping?)
    {
      keep := !closed;
      if closed {
        client := None;
      }
    }

    /** What a thread does first under the lock. */
    method Decide(eager: bool, ghost s: State, ghost t: nat) returns (next: Pc)
      requires Shows(s) && Enabled(s, t, LookIn) && s.threads[t].eager == eager
      ensures Next(s, t, LookIn, cfg).threads[t] == next
    {
      if eager {
        return MustStart;
      }
      if closed {
        return Leaving;
      }
      next := if client.None? then MustStart else Forging;
    }

    /** close sets its flag without the lock... */
    method BeginClose(ghost s: State, ghost t: nat)
      requires Shows(s) && Enabled(s, t, CallClose)
      modifies `closed
      ensures Shows(Next(s, t, CallClose, cfg))
    {
      closed := true;
    }

    /** ...and takes the compiler away only with it; without it the compiler is killed where it is. */
    method FinishClose(acquired: bool, ghost s: State, ghost t: nat) returns (doomed: Option<nat>)
      requires Shows(s) && Enabled(s, t, if acquired then CloseTakesLock else CloseTimesOut)
      modifies `client
      ensures doomed == old(client) && client == if acquired then None else old(client)
      ensures var s' := Next(s, t, if acquired then CloseTakesLock else CloseTimesOut, cfg);
              Shows(s') && s'.threads[t] == if acquired then CloseHolds(doomed) else CloseSaw(doomed)
    {
      doomed := client;
      if acquired {
        client := None;
      }
    }
  }

  // Who may be alive.

  predicate HoldsLock(pc: Pc) {
    !pc.Wants? && !pc.Closing? && !pc.CloseSaw?
  }

  /** Processes only the lock holder knows of. */
  function InHand(s: State): set<nat> {
    if s.lock.None? || s.lock.value !in s.threads then {} else
    match s.threads[s.lock.value]
    case Spawned(p) => {p}
    case Reaping(p) => {p}
    case Retiring(p) => {p}
    case CloseHolds(taken) => Only(taken)
    case _ => {}
  }

  predicate ClientFits(pc: Pc, client: Option<nat>) {
    match pc
    case MustStart => client == None
    case Spawned(_) => client == None
    case Installed(p) => client == Some(p)
    case Forging => client.Some?
    case Reaping(_) => client == None
    case Retiring(_) => client == None
    case CloseHolds(_) => client == None
    case CloseLeaves => client == None
    case _ => true
  }

  /** The handshake window: installed, and still going to look whether close() came by. */
  predicate WillLook(s: State) {
    s.lock.Some? && s.lock.value in s.threads && s.threads[s.lock.value].Installed?
  }

  /** A live client that no holder is going to reap by itself. */
  predicate Exposed(s: State) {
    s.client.Some? && s.client.value in s.live && !WillLook(s)
  }

  predicate LockView(s: State, t: nat)
    requires t in s.threads
  {
    var pc := s.threads[t];
    (HoldsLock(pc) <==> s.lock == Some(t)) && (HoldsLock(pc) ==> ClientFits(pc, s.client))
  }

  predicate CloseView(s: State, t: nat)
    requires t in s.threads
  {
    var pc := s.threads[t];
    && ((pc.Closing? || pc.CloseSaw? || pc.CloseHolds? || pc.CloseLeaves?) ==> s.closed)
    && (pc.CloseSaw? && Exposed(s) ==> pc.seen == s.client)
  }

  predicate ThreadSound(s: State, t: nat)
    requires t in s.threads
  {
    LockView(s, t) && CloseView(s, t)
  }

  ghost predicate ThreadsSound(s: State) {
    && (s.lock.Some? ==> s.lock.value in s.threads)
    && forall t :: t in s.threads ==> ThreadSound(s, t)
  }

  ghost predicate LiveSound(s: State) {
    && s.live <= Only(s.client) + InHand(s)
    && (s.closeReturned ==> s.closed && !Exposed(s))
  }

  /** An eager start, as entering the endpoint's context does, finds no compiler yet. */
  predicate EntersEmpty(s: State, t: nat, a: Action) {
    a.LookIn? && t in s.threads && s.threads[t].Entered? && s.threads[t].eager ==> s.client == None
  }

  lemma NextKeepsThreads(s: State, t: nat, a: Action, cfg: Config)
    requires ThreadsSound(s) && LiveSound(s) && Enabled(s, t, a) && EntersEmpty(s, t, a)
    ensures ThreadsSound(Next(s, t, a, cfg))
  {
    var s' := Next(s, t, a, cfg);
    forall u | u in s'.threads
      ensures ThreadSound(s', u)
    {
      if u == t {
        OwnThreadStaysSound(s, t, a, cfg);
      } else {
        OtherThreadStaysSound(s, t, a, u, cfg);
      }
    }
    LockHolderStays(s, t, a, cfg);
  }

  lemma LockHolderStays(s: State, t: nat, a: Action, cfg: Config)
    requires ThreadsSound(s) && Enabled(s, t, a)
    ensures var s' := Next(s, t, a, cfg); s'.lock.Some? ==> s'.lock.value in s'.threads
  {
    if t in s.threads {
      assert ThreadSound(s, t);
    }
  }

  lemma OwnThreadStaysSound(s: State, t: nat, a: Action, cfg: Config)
    requires ThreadsSound(s) && LiveSound(s) && Enabled(s, t, a) && EntersEmpty(s, t, a)
    ensures t in Next(s, t, a, cfg).threads ==> ThreadSound(Next(s, t, a, cfg), t)
  {
    OwnLockView(s, t, a, cfg);
    OwnCloseView(s, t, a, cfg);
  }

  lemma OwnLockView(s: State, t: nat, a: Action, cfg: Config)
    requires ThreadsSound(s) && Enabled(s, t, a) && EntersEmpty(s, t, a)
    ensures var s' := Next(s, t, a, cfg); t in s'.threads ==> LockView(s', t)
  {
    if t in s.threads {
      assert ThreadSound(s, t);
    }
  }

  lemma OwnCloseView(s: State, t: nat, a: Action, cfg: Config)
    requires ThreadsSound(s) && LiveSound(s) && Enabled(s, t, a)
    ensures var s' := Next(s, t, a, cfg); t in s'.threads ==> CloseView(s', t)
  {
    if t in s.threads {
      assert ThreadSound(s, t);
    }
  }

  lemma OtherThreadStaysSound(s: State, t: nat, a: Action, u: nat, cfg: Config)
    requires ThreadsSound(s) && LiveSound(s) && Enabled(s, t, a) && u != t && u in s.threads
    ensures u in Next(s, t, a, cfg).threads && ThreadSound(Next(s, t, a, cfg), u)
  {
    OtherLockView(s, t, a, u, cfg);
    OtherCloseView(s, t, a, u, cfg);
  }

  lemma OtherLockView(s: State, t: nat, a: Action, u: nat, cfg: Config)
    requires ThreadsSound(s) && Enabled(s, t, a) && u != t && u in s.threads
    ensures u in Next(s, t, a, cfg).threads && LockView(Next(s, t, a, cfg), u)
  {
    if t in s.threads {
      assert ThreadSound(s, t);
    }
    assert ThreadSound(s, u);
  }

  lemma OtherCloseView(s: State, t: nat, a: Action, u: nat, cfg: Config)
    requires ThreadsSound(s) && LiveSound(s) && Enabled(s, t, a) && u != t && u in s.threads
    ensures u in Next(s, t, a, cfg).threads && CloseView(Next(s, t, a, cfg), u)
  {
    if TakesInHand(a) {
      HolderKeepsCloseView(s, t, a, u, cfg);
    } else {
      if t in s.threads {
        assert ThreadSound(s, t);
      }
      assert ThreadSound(s, u);
    }
  }

  lemma HolderKeepsCloseView(s: State, t: nat, a: Action, u: nat, cfg: Config)
    requires ThreadsSound(s) && LiveSound(s) && Enabled(s, t, a) && u != t && u in s.threads && TakesInHand(a)
    ensures u in Next(s, t, a, cfg).threads && CloseView(Next(s, t, a, cfg), u)
  {
    assert ThreadSound(s, t) && ThreadSound(s, u);
  }

  lemma NextKeepsLive(s: State, t: nat, a: Action, cfg: Config)
    requires ThreadsSound(s) && LiveSound(s) && Enabled(s, t, a)
    ensures LiveSound(Next(s, t, a, cfg))
  {
    LiveStaysKnown(s, t, a, cfg);
    ClosedStaysClosed(s, t, a, cfg);
  }

  lemma LiveStaysKnown(s: State, t: nat, a: Action, cfg: Config)
    requires ThreadsSound(s) && LiveSound(s) && Enabled(s, t, a)
    ensures var s' := Next(s, t, a, cfg); s'.live <= Only(s'.client) + InHand(s')
  {
    if t in s.threads {
      assert ThreadSound(s, t);
    }
    if TakesInHand(a) {
      HolderKeepsLiveKnown(s, t, a, cfg);
    }
  }

  /** Steps by which the lock holder takes a process in hand or lets go of it. */
  predicate TakesInHand(a: Action) {
    a.Spawn? || a.HandshakeOk? || a.HandshakeFails? || a.LookClosed? || a.ForgeEnds? || a.Dispose?
  }

  lemma HolderKeepsLiveKnown(s: State, t: nat, a: Action, cfg: Config)
    requires ThreadsSound(s) && LiveSound(s) && Enabled(s, t, a) && TakesInHand(a)
    ensures var s' := Next(s, t, a, cfg); s'.live <= Only(s'.client) + InHand(s')
  {
    assert ThreadSound(s, t);
  }

  lemma ClosedStaysClosed(s: State, t: nat, a: Action, cfg: Config)
    requires ThreadsSound(s) && LiveSound(s) && Enabled(s, t, a)
    ensures var s' := Next(s, t, a, cfg); s'.closeReturned ==> s'.closed && !Exposed(s')
  {
    if t in s.threads {
      assert ThreadSound(s, t);
    }
  }

  // The latch.

  predicate Ordered(marks: seq<real>) {
    forall i, j :: 0 <= i <= j < |marks| ==> marks[i] <= marks[j]
  }

  /** `budget` + 1 marks, the last of them mark k, lie within one window. */
  predicate Burst(marks: seq<real>, k: int, cfg: Config) {
    cfg.unhealthyBudget <= k < |marks| && marks[k] - marks[k - cfg.unhealthyBudget] <= cfg.unhealthyWindow
  }

  ghost predicate HasBurst(marks: seq<real>, cfg: Config) {
    exists k :: Burst(marks, k, cfg)
  }

  predicate TooOld(marks: seq<real>, i: int, window: real)
    requires 0 <= i < |marks|
  {
    marks[|marks| - 1] - marks[i] > window
  }

  /** The ledger's deque is what the whole history of marks leaves inside the window that ends at
      the newest mark. */
  predicate KeepsWindow(unhealthy: seq<real>, marks: seq<real>, window: real) {
    && |unhealthy| <= |marks|
    && unhealthy == marks[|marks| - |unhealthy|..]
    && (forall i :: 0 <= i < |marks| - |unhealthy| ==> TooOld(marks, i, window))
    && (unhealthy != [] ==> !TooOld(marks, |marks| - |unhealthy|, window))
  }

  ghost predicate BooksMatch(l: Ledger, marks: seq<real>, cfg: Config) {
    && KeepsWindow(l.unhealthy, marks, cfg.unhealthyWindow)
    && l.replacements == |marks|
    && (l.unrecoverable <==> HasBurst(marks, cfg))
  }

  lemma {:induction false} TrimCutsFront(u: seq<real>, now: real, window: real) returns (d: nat)
    ensures d <= |u| && Trim(u, now, window) == u[d..] && CutsAt(u, now, window, d)
  {
    if u != [] && now - u[0] > window {
      var e := TrimCutsFront(u[1..], now, window);
      d := e + 1;
      assert u[1..][e..] == u[d..];
      forall i | 0 <= i < d
        ensures Expired(u, i, now, window)
      {
        if i > 0 {
          assert Expired(u[1..], i - 1, now, window);
        }
      }
      assert d < |u| ==> !Expired(u[1..], e, now, window);
    } else {
      d := 0;
    }
  }

  lemma DropTwice(all: seq<real>, c: nat, u: seq<real>, d: nat)
    requires c <= |all| && u == all[c..] && d <= |u|
    ensures u[d..] == all[c + d..]
  {
  }

  /** d elements are too old for a window ending at `now`, and no more. */
  predicate CutsAt(u: seq<real>, now: real, window: real, d: nat)
    requires d <= |u|
  {
    (forall i :: 0 <= i < d ==> Expired(u, i, now, window)) && (d < |u| ==> !Expired(u, d, now, window))
  }

  predicate Expired(u: seq<real>, i: nat, now: real, window: real)
    requires i < |u|
  {
    now - u[i] > window
  }

  lemma AgesOn(marks: seq<real>, i: nat, now: real, window: real)
    requires i < |marks| && marks[|marks| - 1] <= now && TooOld(marks, i, window)
    ensures TooOld(marks + [now], i, window)
  {
  }

  lemma ExpiredIsTooOld(all: seq<real>, c: nat, u: seq<real>, i: nat, window: real)
    requires c <= |all| && u == all[c..] && i < |u|
    ensures Expired(u, i, all[|all| - 1], window) <==> TooOld(all, c + i, window)
  {
  }

  lemma MarkKeepsWindow(u: seq<real>, marks: seq<real>, now: real, window: real, d: nat)
    requires KeepsWindow(u, marks, window) && d <= |u| + 1 && CutsAt(u + [now], now, window, d)
    requires marks != [] ==> marks[|marks| - 1] <= now
    ensures KeepsWindow((u + [now])[d..], marks + [now], window)
  {
    var c := |marks| - |u|;
    var all, more := marks + [now], u + [now];
    assert more == all[c..];
    DropTwice(all, c, more, d);
    forall i | 0 <= i < c + d
      ensures TooOld(all, i, window)
    {
      CutIsTooOld(u, marks, now, window, d, i);
    }
    if d < |more| {
      ExpiredIsTooOld(all, c, more, d, window);
    }
    WindowFrom(all, c + d, window);
  }

  lemma WindowFrom(all: seq<real>, c: nat, window: real)
    requires c <= |all| && (forall i :: 0 <= i < c ==> TooOld(all, i, window))
    requires c < |all| ==> !TooOld(all, c, window)
    ensures KeepsWindow(all[c..], all, window)
  {
  }

  lemma CutIsTooOld(u: seq<real>, marks: seq<real>, now: real, window: real, d: nat, i: nat)
    requires KeepsWindow(u, marks, window) && d <= |u| + 1 && CutsAt(u + [now], now, window, d)
    requires marks != [] ==> marks[|marks| - 1] <= now
    requires i < |marks| - |u| + d
    ensures TooOld(marks + [now], i, window)
  {
    var c := |marks| - |u|;
    if i < c {
      AgesOn(marks, i, now, window);
    } else {
      assert Expired(u + [now], i - c, now, window);
      assert u + [now] == (marks + [now])[c..];
      ExpiredIsTooOld(marks + [now], c, u + [now], i - c, window);
    }
  }

  /** Only the newest mark can complete a burst that was not there before. */
  lemma BurstIsOldOrNew(marks: seq<real>, now: real, cfg: Config)
    ensures HasBurst(marks + [now], cfg) <==> HasBurst(marks, cfg) || Burst(marks + [now], |marks|, cfg)
  {
    var all := marks + [now];
    if HasBurst(all, cfg) {
      var k :| Burst(all, k, cfg);
      if k < |marks| {
        assert Burst(marks, k, cfg);
      }
    }
    if HasBurst(marks, cfg) {
      var k :| Burst(marks, k, cfg);
      assert Burst(all, k, cfg);
    }
  }

  lemma FullWindowIsBurst(u: seq<real>, marks: seq<real>, cfg: Config)
    requires KeepsWindow(u, marks, cfg.unhealthyWindow) && Ordered(marks) && marks != []
    ensures |u| > cfg.unhealthyBudget <==> Burst(marks, |marks| - 1, cfg)
  {
    var k := |marks| - 1;
    var b := k - cfg.unhealthyBudget;
    var c := |marks| - |u|;
    if |u| > cfg.unhealthyBudget {
      assert !TooOld(marks, c, cfg.unhealthyWindow);
      assert marks[c] <= marks[b];
    } else if 0 <= b {
      assert TooOld(marks, b, cfg.unhealthyWindow);
    }
  }

  predicate Past(marks: seq<real>, now: real) {
    Ordered(marks) && (marks != [] ==> marks[|marks| - 1] <= now)
  }

  lemma PastExtends(marks: seq<real>, now: real)
    requires Past(marks, now)
    ensures Past(marks + [now], now)
  {
    var all := marks + [now];
    forall i, j | 0 <= i <= j < |all|
      ensures all[i] <= all[j]
    {
      if i < |marks| {
        assert marks[i] <= marks[|marks| - 1];
      }
    }
  }

  lemma MarkLatches(l: Ledger, u: seq<real>, marks: seq<real>, now: real, cfg: Config)
    requires l.unrecoverable <==> HasBurst(marks, cfg)
    requires KeepsWindow(u, marks + [now], cfg.unhealthyWindow) && Ordered(marks + [now])
    ensures l.unrecoverable || |u| > cfg.unhealthyBudget <==> HasBurst(marks + [now], cfg)
  {
    FullWindowIsBurst(u, marks + [now], cfg);
    BurstIsOldOrNew(marks, now, cfg);
  }

  lemma MarkKeepsBooks(l: Ledger, marks: seq<real>, now: real, cfg: Config)
    requires BooksMatch(l, marks, cfg) && Past(marks, now)
    ensures BooksMatch(Mark(l, now, cfg), marks + [now], cfg)
  {
    PastExtends(marks, now);
    var d := TrimCutsFront(l.unhealthy + [now], now, cfg.unhealthyWindow);
    MarkKeepsWindow(l.unhealthy, marks, now, cfg.unhealthyWindow, d);
    MarkLatches(l, Trim(l.unhealthy + [now], now, cfg.unhealthyWindow), marks, now, cfg);
  }

  /** Steps that use, make or install a compiler. */
  predicate Works(a: Action) {
    a.Spawn? || a.SpawnFails? || a.HandshakeOk? || a.HandshakeFails? || a.LookClosed? || a.ForgeEnds?
  }

  predicate Busy(pc: Pc) {
    pc.Spawned? || pc.Installed? || pc.Forging?
  }

  /** A latched endpoint has no compiler and nobody at work on one. */
  ghost predicate LatchSound(s: State) {
    s.ledger.unrecoverable ==>
      s.client == None && (s.lock.Some? && s.lock.value in s.threads ==> !Busy(s.threads[s.lock.value]))
  }

  ghost predicate LedgerSound(s: State, cfg: Config) {
    Past(s.marks, s.now) && BooksMatch(s.ledger, s.marks, cfg)
  }

  /** Steps that speak against the compiler: a failed handshake, and a forge whose own answer did not
      come, unless it was the caller's clock that ran out. */
  predicate Blames(a: Action, cfg: Config) {
    || a.HandshakeFails?
    || (a.ForgeEnds? && !AnsweredInTime(a.response, a.budget, cfg.watchdog)
        && !(OutOfTime(a.response, a.budget, cfg.watchdog) && CallersClock(a.budget, cfg.watchdog)))
  }

  /** Every step either leaves ledger and history alone or adds one mark to both, and it adds one
      exactly for a failed handshake or a forge failure that is not the caller's own budget. */
  lemma MarksOnlyFaults(s: State, t: nat, a: Action, cfg: Config)
    requires Enabled(s, t, a)
    ensures var s' := Next(s, t, a, cfg);
            if Blames(a, cfg) then
              s'.marks == s.marks + [s.now] && s'.ledger == Mark(s.ledger, s.now, cfg) && s'.now == s.now
            else s'.marks == s.marks && s'.ledger == s.ledger && s.now <= s'.now
  {
    if a.ForgeEnds? {
      OutcomeMeans(a.response, a.budget, cfg.watchdog);
    }
  }

  /** Only a compiler whose stream is no longer in position is given up: a refusal keeps it. */
  lemma RefusalKeepsCompiler(s: State, t: nat, response: Response, budget: Option<real>, cfg: Config)
    requires Enabled(s, t, ForgeEnds(response, budget))
    ensures Next(s, t, ForgeEnds(response, budget), cfg).client == s.client <==>
              AnsweredInTime(response, budget, cfg.watchdog)
    ensures Next(s, t, ForgeEnds(response, budget), cfg).live == s.live
  {
    OutcomeMeans(response, budget, cfg.watchdog);
  }

  /** A forge that waited in vain marks exactly when it waited for the watchdog: the caller gave no
      budget, or a longer one. */
  lemma HangMarksIff(s: State, t: nat, budget: Option<real>, cfg: Config)
    requires Enabled(s, t, ForgeEnds(NothingInTime, budget))
    ensures Next(s, t, ForgeEnds(NothingInTime, budget), cfg).marks == s.marks + [s.now] <==>
              (budget.Some? ==> cfg.watchdog < budget.value)
  {
    MarksOnlyFaults(s, t, ForgeEnds(NothingInTime, budget), cfg);
    assert |s.marks + [s.now]| != |s.marks|;
  }

  lemma NextKeepsLedger(s: State, t: nat, a: Action, cfg: Config)
    requires LedgerSound(s, cfg) && Enabled(s, t, a)
    ensures LedgerSound(Next(s, t, a, cfg), cfg)
  {
    MarksOnlyFaults(s, t, a, cfg);
    if Blames(a, cfg) {
      PastExtends(s.marks, s.now);
      MarkKeepsBooks(s.ledger, s.marks, s.now, cfg);
    }
  }

  lemma NextKeepsLatch(s: State, t: nat, a: Action, cfg: Config)
    requires ThreadsSound(s) && LatchSound(s) && Enabled(s, t, a)
    ensures LatchSound(Next(s, t, a, cfg))
  {
    if t in s.threads {
      assert ThreadSound(s, t);
    }
  }

  lemma LatchedDoesNothing(s: State, t: nat, a: Action, cfg: Config)
    requires ThreadsSound(s) && LatchSound(s) && Enabled(s, t, a) && s.ledger.unrecoverable
    ensures !Works(a)
    ensures var s' := Next(s, t, a, cfg);
            && s'.ledger == s.ledger && s'.marks == s.marks && s'.client == None
            && s'.generation == s.generation && s'.spawned == s.spawned && s'.live <= s.live
  {
    if t in s.threads {
      assert ThreadSound(s, t);
    }
  }

  // Whole runs.

  datatype Move = Move(thread: nat, action: Action)

  predicate CanRun(s: State, moves: seq<Move>, cfg: Config)
    decreases |moves|
  {
    moves == []
    || (Enabled(s, moves[0].thread, moves[0].action)
        && CanRun(Next(s, moves[0].thread, moves[0].action, cfg), moves[1..], cfg))
  }

  function Run(s: State, moves: seq<Move>, cfg: Config): State
    requires CanRun(s, moves, cfg)
    decreases |moves|
  {
    if moves == [] then s
    else Run(Next(s, moves[0].thread, moves[0].action, cfg), moves[1..], cfg)
  }

  /** Process numbers are not used twice. */
  predicate Numbered(s: State) {
    forall p :: p in s.live ==> p < s.spawned
  }

  ghost predicate Inv(s: State, cfg: Config) {
    ThreadsSound(s) && LiveSound(s) && LedgerSound(s, cfg) && LatchSound(s) && Numbered(s)
  }

  /** Every eager start of the run finds no compiler yet. */
  predicate EntersEmptyRun(s: State, moves: seq<Move>, cfg: Config)
    requires CanRun(s, moves, cfg)
    decreases |moves|
  {
    moves == []
    || (EntersEmpty(s, moves[0].thread, moves[0].action)
        && EntersEmptyRun(Next(s, moves[0].thread, moves[0].action, cfg), moves[1..], cfg))
  }

  lemma NextKeepsNumbers(s: State, t: nat, a: Action, cfg: Config)
    requires Numbered(s) && Enabled(s, t, a)
    ensures Numbered(Next(s, t, a, cfg))
  {
  }

  lemma NextKeepsInv(s: State, t: nat, a: Action, cfg: Config)
    requires Inv(s, cfg) && Enabled(s, t, a) && EntersEmpty(s, t, a)
    ensures Inv(Next(s, t, a, cfg), cfg)
  {
    NextKeepsThreads(s, t, a, cfg);
    NextKeepsLive(s, t, a, cfg);
    NextKeepsLedger(s, t, a, cfg);
    NextKeepsLatch(s, t, a, cfg);
    NextKeepsNumbers(s, t, a, cfg);
  }

  lemma {:induction false} RunKeepsInv(s: State, moves: seq<Move>, cfg: Config)
    requires Inv(s, cfg) && CanRun(s, moves, cfg) && EntersEmptyRun(s, moves, cfg)
    ensures Inv(Run(s, moves, cfg), cfg)
    decreases |moves|
  {
    if moves != [] {
      NextKeepsInv(s, moves[0].thread, moves[0].action, cfg);
      RunKeepsInv(Next(s, moves[0].thread, moves[0].action, cfg), moves[1..], cfg);
    }
  }

  lemma StartSound(cfg: Config)
    ensures Inv(START, cfg)
  {
    assert !HasBurst([], cfg);
  }

  /** However forging and closing threads interleave, and whether or not a close got the lock in
      time: with the lock free at most the installed compiler is alive, and once a close has returned
      none is. */
  lemma NoOrphans(moves: seq<Move>, cfg: Config)
    requires CanRun(START, moves, cfg) && EntersEmptyRun(START, moves, cfg)
    ensures var s := Run(START, moves, cfg);
            s.lock == None ==> s.live <= Only(s.client) && (s.closeReturned ==> s.closed && s.live == {})
  {
    StartSound(cfg);
    RunKeepsInv(START, moves, cfg);
  }

  lemma {:induction false} RunKeepsLedger(s: State, moves: seq<Move>, cfg: Config)
    requires LedgerSound(s, cfg) && CanRun(s, moves, cfg)
    ensures LedgerSound(Run(s, moves, cfg), cfg)
    decreases |moves|
  {
    if moves != [] {
      NextKeepsLedger(s, moves[0].thread, moves[0].action, cfg);
      RunKeepsLedger(Next(s, moves[0].thread, moves[0].action, cfg), moves[1..], cfg);
    }
  }

  /** The endpoint is unrecoverable exactly when some `budget` + 1 of its marks fell within one
      window, and then it has no compiler. */
  lemma LatchIsExact(moves: seq<Move>, cfg: Config)
    requires CanRun(START, moves, cfg)
    ensures var s := Run(START, moves, cfg);
            && (s.ledger.unrecoverable <==> exists k :: Burst(s.marks, k, cfg))
            && s.ledger.replacements == |s.marks|
            && (EntersEmptyRun(START, moves, cfg) && s.ledger.unrecoverable ==> s.client == None)
  {
    StartSound(cfg);
    RunKeepsLedger(START, moves, cfg);
    if EntersEmptyRun(START, moves, cfg) {
      RunKeepsInv(START, moves, cfg);
    }
  }

  lemma {:induction false} LatchHoldsOver(s: State, moves: seq<Move>, cfg: Config)
    requires Inv(s, cfg) && s.ledger.unrecoverable && CanRun(s, moves, cfg) && EntersEmptyRun(s, moves, cfg)
    ensures forall i :: 0 <= i < |moves| ==> !Works(moves[i].action)
    ensures var s' := Run(s, moves, cfg);
            && s'.ledger == s.ledger && s'.client == None && s'.generation == s.generation
            && s'.spawned == s.spawned && s'.live <= s.live
    decreases |moves|
  {
    if moves != [] {
      var m := moves[0];
      LatchedDoesNothing(s, m.thread, m.action, cfg);
      NextKeepsInv(s, m.thread, m.action, cfg);
      LatchHoldsOver(Next(s, m.thread, m.action, cfg), moves[1..], cfg);
      forall i | 0 <= i < |moves|
        ensures !Works(moves[i].action)
      {
        if i > 0 {
          assert moves[i] == moves[1..][i - 1];
        }
      }
    }
  }

  /** After any run that latched it, no later run of the endpoint spawns, installs or uses a compiler
      again. */
  lemma LatchIsFinal(before: seq<Move>, after: seq<Move>, cfg: Config)
    requires CanRun(START, before, cfg) && EntersEmptyRun(START, before, cfg)
    requires CanRun(Run(START, before, cfg), after, cfg) && EntersEmptyRun(Run(START, before, cfg), after, cfg)
    requires Run(START, before, cfg).ledger.unrecoverable
    ensures forall i :: 0 <= i < |after| ==> !Works(after[i].action)
    ensures var s, s' := Run(START, before, cfg), Run(Run(START, before, cfg), after, cfg);
            && s'.ledger.unrecoverable && s'.client == None
            && s'.spawned == s.spawned && s'.generation == s.generation
  {
    StartSound(cfg);
    RunKeepsInv(START, before, cfg);
    LatchHoldsOver(Run(START, before, cfg), after, cfg);
  }

  function Faults(moves: seq<Move>, cfg: Config): nat {
    if moves == [] then 0 else (if Blames(moves[0].action, cfg) then 1 else 0) + Faults(moves[1..], cfg)
  }

  /** A forge on which the watchdog ran out, and no earlier clock of the caller's. */
  predicate Hangs(a: Action, cfg: Config) {
    a.ForgeEnds? && a.response.NothingInTime? && (a.budget.Some? ==> cfg.watchdog < a.budget.value)
  }

  function HangCount(moves: seq<Move>, cfg: Config): nat {
    if moves == [] then 0 else (if Hangs(moves[0].action, cfg) then 1 else 0) + HangCount(moves[1..], cfg)
  }

  lemma {:induction false} HangsAreFaults(moves: seq<Move>, cfg: Config)
    ensures HangCount(moves, cfg) <= Faults(moves, cfg)
  {
    if moves != [] {
      HangsAreFaults(moves[1..], cfg);
    }
  }

  /** n marks more, none from before `since` or after `until`. */
  predicate AddsMarks(before: seq<real>, after: seq<real>, n: nat, since: real, until: real) {
    && |after| == |before| + n && since <= until
    && forall i :: |before| <= i < |after| ==> since <= after[i] <= until
  }

  lemma AddsOn(a: seq<real>, b: seq<real>, c: seq<real>, m: nat, n: nat, t: real, u: real, v: real)
    requires AddsMarks(a, b, m, t, u) && AddsMarks(b, c, n, u, v) && b <= c
    ensures AddsMarks(a, c, m + n, t, v)
  {
    forall i | |a| <= i < |c|
      ensures t <= c[i] <= v
    {
      if i < |b| {
        assert c[i] == b[i];
      }
    }
  }

  lemma MarksOfStep(s: State, t: nat, a: Action, cfg: Config)
    requires Enabled(s, t, a)
    ensures var s' := Next(s, t, a, cfg);
            && s.marks <= s'.marks
            && AddsMarks(s.marks, s'.marks, if Blames(a, cfg) then 1 else 0, s.now, s'.now)
  {
    MarksOnlyFaults(s, t, a, cfg);
  }

  /** The marks of a run stand behind those from before, one for each fault, none before the run began. */
  lemma {:induction false} MarksOfRun(s: State, moves: seq<Move>, cfg: Config)
    requires CanRun(s, moves, cfg)
    ensures var s' := Run(s, moves, cfg);
            s.marks <= s'.marks && AddsMarks(s.marks, s'.marks, Faults(moves, cfg), s.now, s'.now)
    decreases |moves|
  {
    if moves != [] {
      var next := Next(s, moves[0].thread, moves[0].action, cfg);
      MarksOfStep(s, moves[0].thread, moves[0].action, cfg);
      MarksOfRun(next, moves[1..], cfg);
      var s' := Run(next, moves[1..], cfg);
      AddsOn(s.marks, next.marks, s'.marks, if Blames(moves[0].action, cfg) then 1 else 0,
             Faults(moves[1..], cfg), s.now, next.now, s'.now);
    }
  }

  /** More hung compilers within one window than the budget allows latch the endpoint, whatever the
      callers' budgets beyond the watchdog were. */
  lemma HangsLatch(before: seq<Move>, moves: seq<Move>, cfg: Config)
    requires CanRun(START, before, cfg) && CanRun(Run(START, before, cfg), moves, cfg)
    requires HangCount(moves, cfg) > cfg.unhealthyBudget
    requires Run(Run(START, before, cfg), moves, cfg).now - Run(START, before, cfg).now <= cfg.unhealthyWindow
    ensures Run(Run(START, before, cfg), moves, cfg).ledger.unrecoverable
  {
    StartSound(cfg);
    RunKeepsLedger(START, before, cfg);
    var s := Run(START, before, cfg);
    HangsAreFaults(moves, cfg);
    MarksOfRun(s, moves, cfg);
    RunKeepsLedger(s, moves, cfg);
    assert Burst(Run(s, moves, cfg).marks, |Run(s, moves, cfg).marks| - 1, cfg);
  }

  /** The replacements an endpoint reports are its failed handshakes and unexcused forge failures,
      each counted once. */
  lemma {:induction false} ReplacementsCountFaults(s: State, moves: seq<Move>, cfg: Config)
    requires CanRun(s, moves, cfg)
    ensures Run(s, moves, cfg).ledger.replacements == s.ledger.replacements + Faults(moves, cfg)
    decreases |moves|
  {
    if moves != [] {
      MarksOnlyFaults(s, moves[0].thread, moves[0].action, cfg);
      ReplacementsCountFaults(Next(s, moves[0].thread, moves[0].action, cfg), moves[1..], cfg);
    }
  }

  /** An eager start, alone on an idle endpoint, up to letting go of the lock. */
  function EagerStart(): seq<Action> {
    [Call(true), TakeLock, LookIn, Spawn, HandshakeOk, LookClosed(false), Release]
  }

  function Restarted(s: State): State {
    s.(client := Some(s.spawned), generation := s.generation + 1, live := s.live + {s.spawned},
       spawned := s.spawned + 1)
  }

  function By(t: nat, actions: seq<Action>): seq<Move> {
    if actions == [] then [] else [Move(t, actions[0])] + By(t, actions[1..])
  }

  lemma RunOne(s: State, t: nat, a: Action, rest: seq<Action>, cfg: Config)
    requires Enabled(s, t, a) && CanRun(Next(s, t, a, cfg), By(t, rest), cfg)
    ensures CanRun(s, By(t, [a] + rest), cfg)
    ensures Run(s, By(t, [a] + rest), cfg) == Run(Next(s, t, a, cfg), By(t, rest), cfg)
  {
    var actions := [a] + rest;
    assert actions[1..] == rest;
    assert By(t, actions)[1..] == By(t, rest);
  }

  lemma LastSteps(s: State, t: nat, cfg: Config)
    requires t in s.threads && s.threads[t].Installed? && !s.closed
    ensures var rest := [LookClosed(false), Release];
            && CanRun(s, By(t, rest), cfg)
            && Run(s, By(t, rest), cfg) == s.(lock := None, threads := s.threads - {t})
  {
    var s1 := Next(s, t, LookClosed(false), cfg);
    var s2 := Next(s1, t, Release, cfg);
    assert By(t, []) == [];
    RunOne(s1, t, Release, [], cfg);
    RunOne(s, t, LookClosed(false), [Release], cfg);
    assert s2.threads == s.threads - {t};
  }

  lemma SecondHalf(s: State, t: nat, cfg: Config)
    requires t in s.threads && s.threads[t] == MustStart && !s.closed && !s.ledger.unrecoverable
    ensures var rest := [Spawn, HandshakeOk, LookClosed(false), Release];
            && CanRun(s, By(t, rest), cfg)
            && Run(s, By(t, rest), cfg) == Restarted(s).(lock := None, threads := s.threads - {t})
  {
    var s1 := Next(s, t, Spawn, cfg);
    var s2 := Next(s1, t, HandshakeOk, cfg);
    LastSteps(s2, t, cfg);
    RunOne(s1, t, HandshakeOk, [LookClosed(false), Release], cfg);
    RunOne(s, t, Spawn, [HandshakeOk, LookClosed(false), Release], cfg);
    assert s2.threads - {t} == s.threads - {t};
  }

  // Whole calls.

  /** A caller of forge that finds the compiler installed, up to letting go of the lock. */
  function Forge(response: Response, budget: Option<real>): seq<Action> {
    [Call(false), TakeLock, LookIn, ForgeEnds(response, budget), Release]
  }

  /** Alone on an open endpoint with a compiler, a call that is answered or refused is served by that very
      compiler: nothing is spawned or replaced, and everything is as it was. */
  lemma ForgeUsesInstalled(s: State, t: nat, response: Response, budget: Option<real>, cfg: Config)
    requires s.lock == None && t !in s.threads && !s.closed && s.client.Some?
    requires AnsweredInTime(response, budget, cfg.watchdog)
    ensures CanRun(s, By(t, Forge(response, budget)), cfg)
    ensures Run(s, By(t, Forge(response, budget)), cfg) == s
  {
    var s1 := Next(s, t, Call(false), cfg);
    var s2 := Next(s1, t, TakeLock, cfg);
    var s3 := Next(s2, t, LookIn, cfg);
    var rest := [ForgeEnds(response, budget), Release];
    ForgeServed(s3, t, response, budget, cfg);
    RunOne(s2, t, LookIn, rest, cfg);
    RunOne(s1, t, TakeLock, [LookIn] + rest, cfg);
    RunOne(s, t, Call(false), [TakeLock] + ([LookIn] + rest), cfg);
    assert Forge(response, budget) == [Call(false)] + ([TakeLock] + ([LookIn] + rest));
    assert s3.threads - {t} == s.threads;
  }

  lemma ForgeServed(s: State, t: nat, response: Response, budget: Option<real>, cfg: Config)
    requires t in s.threads && s.threads[t].Forging? && s.client.Some?
    requires AnsweredInTime(response, budget, cfg.watchdog)
    ensures var rest := [ForgeEnds(response, budget), Release];
            && CanRun(s, By(t, rest), cfg)
            && Run(s, By(t, rest), cfg) == s.(lock := None, threads := s.threads - {t})
  {
    OutcomeMeans(response, budget, cfg.watchdog);
    var ended := Next(s, t, ForgeEnds(response, budget), cfg);
    assert By(t, []) == [];
    RunOne(ended, t, Release, [], cfg);
    RunOne(s, t, ForgeEnds(response, budget), [Release], cfg);
    assert ended.threads - {t} == s.threads - {t};
  }

  /** A caller of forge that finds no compiler, starts one and has budget left to use it. */
  function StartAndForge(response: Response, budget: Option<real>): seq<Action> {
    [Call(false), TakeLock, LookIn] + ([Spawn, HandshakeOk, LookClosed(true)] + [ForgeEnds(response, budget), Release])
  }

  lemma RunThree(s: State, t: nat, a: Action, b: Action, c: Action, after: State, rest: seq<Action>, cfg: Config)
    requires Enabled(s, t, a) && Enabled(Next(s, t, a, cfg), t, b)
    requires Enabled(Next(Next(s, t, a, cfg), t, b, cfg), t, c)
    requires after == Next(Next(Next(s, t, a, cfg), t, b, cfg), t, c, cfg) && CanRun(after, By(t, rest), cfg)
    ensures CanRun(s, By(t, [a, b, c] + rest), cfg)
    ensures Run(s, By(t, [a, b, c] + rest), cfg) == Run(after, By(t, rest), cfg)
  {
    var s1 := Next(s, t, a, cfg);
    RunOne(Next(s1, t, b, cfg), t, c, rest, cfg);
    RunOne(s1, t, b, [c] + rest, cfg);
    RunOne(s, t, a, [b] + ([c] + rest), cfg);
    assert [a, b, c] + rest == [a] + ([b] + ([c] + rest));
  }

  lemma StartsOne(s: State, t: nat, cfg: Config)
    requires t in s.threads && s.threads[t] == MustStart && !s.closed && !s.ledger.unrecoverable
    ensures Enabled(s, t, Spawn)
    ensures var s1 := Next(s, t, Spawn, cfg);
            && Enabled(s1, t, HandshakeOk)
            && var s2 := Next(s1, t, HandshakeOk, cfg);
            && Enabled(s2, t, LookClosed(true))
            && Next(s2, t, LookClosed(true), cfg) == Restarted(s).(threads := s.threads[t := Forging])
  {
  }

  lemma GetsLock(s: State, t: nat, cfg: Config)
    requires s.lock == None && t !in s.threads
    ensures Enabled(s, t, Call(false))
    ensures var s1 := Next(s, t, Call(false), cfg);
            && Enabled(s1, t, TakeLock)
            && var s2 := Next(s1, t, TakeLock, cfg);
            && Enabled(s2, t, LookIn)
            && Next(s2, t, LookIn, cfg)
               == s.(lock := Some(t), threads := s.threads[t := if s.closed then Leaving
                                                               else if s.client.Some? then Forging
                                                               else MustStart])
  {
  }

  /** Alone on an open endpoint without a compiler, a call that is answered or refused starts one, is served
      by it, and leaves it installed. */
  lemma ForgeStartsOne(s: State, t: nat, response: Response, budget: Option<real>, cfg: Config)
    requires s.lock == None && t !in s.threads && !s.closed && s.client.None? && !s.ledger.unrecoverable
    requires AnsweredInTime(response, budget, cfg.watchdog)
    ensures CanRun(s, By(t, StartAndForge(response, budget)), cfg)
    ensures Run(s, By(t, StartAndForge(response, budget)), cfg) == Restarted(s)
  {
    var start := s.(lock := Some(t), threads := s.threads[t := MustStart]);
    var forging := Restarted(start).(threads := start.threads[t := Forging]);
    var last := [ForgeEnds(response, budget), Release];
    GetsLock(s, t, cfg);
    StartsOne(start, t, cfg);
    ForgeServed(forging, t, response, budget, cfg);
    RunThree(start, t, Spawn, HandshakeOk, LookClosed(true), forging, last, cfg);
    RunThree(s, t, Call(false), TakeLock, LookIn, start, [Spawn, HandshakeOk, LookClosed(true)] + last, cfg);
    assert forging.threads - {t} == s.threads;
  }

  /** Alone on an open endpoint with a compiler, a call whose answer does not come gives the compiler up and
      kills it, and the lock is free again. */
  lemma ForgeFailureKills(s: State, t: nat, response: Response, budget: Option<real>, cfg: Config)
    requires s.lock == None && t !in s.threads && !s.closed && s.client.Some?
    requires !AnsweredInTime(response, budget, cfg.watchdog)
    ensures var call := [Call(false), TakeLock, LookIn] + [ForgeEnds(response, budget), Dispose, Release];
            && CanRun(s, By(t, call), cfg)
            && var after := Run(s, By(t, call), cfg);
            && after.client == None && after.live == s.live - {s.client.value} && after.lock == None
            && after.threads == s.threads && after.generation == s.generation && after.spawned == s.spawned
            && after.closed == s.closed
  {
    var forging := s.(lock := Some(t), threads := s.threads[t := Forging]);
    GetsLock(s, t, cfg);
    ForgeFails(forging, t, response, budget, cfg);
    RunThree(s, t, Call(false), TakeLock, LookIn, forging, [ForgeEnds(response, budget), Dispose, Release], cfg);
    assert forging.threads - {t} == s.threads;
  }

  lemma ForgeFails(s: State, t: nat, response: Response, budget: Option<real>, cfg: Config)
    requires t in s.threads && s.threads[t].Forging? && s.client.Some?
    requires !AnsweredInTime(response, budget, cfg.watchdog)
    ensures var rest := [ForgeEnds(response, budget), Dispose, Release];
            && CanRun(s, By(t, rest), cfg)
            && var after := Run(s, By(t, rest), cfg);
            && after.client == None && after.live == s.live - {s.client.value} && after.lock == None
            && after.threads == s.threads - {t} && after.generation == s.generation
            && after.spawned == s.spawned && after.closed == s.closed
  {
    OutcomeMeans(response, budget, cfg.watchdog);
    var ended := Next(s, t, ForgeEnds(response, budget), cfg);
    var disposed := Next(ended, t, Dispose, cfg);
    var left := Next(disposed, t, Release, cfg);
    assert left.threads == s.threads - {t};
    assert By(t, []) == [] && CanRun(left, [], cfg);
    assert [ForgeEnds(response, budget), Dispose, Release] + [] == [ForgeEnds(response, budget), Dispose, Release];
    RunThree(s, t, ForgeEnds(response, budget), Dispose, Release, left, [], cfg);
  }

  /** A caller of close that gets the lock, and one that does not. */
  function Close(): seq<Action> {
    [CallClose, CloseTakesLock, CloseKills, CloseReleases]
  }

  function CloseWithoutLock(): seq<Action> {
    [CallClose, CloseTimesOut, CloseDisposes]
  }

  /** A whole close on an idle endpoint takes the compiler away, kills it, and leaves the endpoint closed
      and the lock free. */
  lemma CloseEmpties(s: State, t: nat, cfg: Config)
    requires s.lock == None && t !in s.threads
    ensures CanRun(s, By(t, Close()), cfg)
    ensures Run(s, By(t, Close()), cfg)
            == s.(closed := true, client := None, live := s.live - Only(s.client), closeReturned := true)
  {
    var s1 := Next(s, t, CallClose, cfg);
    var s2 := Next(s1, t, CloseTakesLock, cfg);
    CloseEnds(s2, t, cfg);
    RunOne(s1, t, CloseTakesLock, [CloseKills, CloseReleases], cfg);
    RunOne(s, t, CallClose, [CloseTakesLock] + [CloseKills, CloseReleases], cfg);
    assert Close() == [CallClose] + ([CloseTakesLock] + [CloseKills, CloseReleases]);
    assert s2.threads - {t} == s.threads;
  }

  lemma CloseEnds(s: State, t: nat, cfg: Config)
    requires t in s.threads && s.threads[t].CloseHolds?
    ensures var rest := [CloseKills, CloseReleases];
            && CanRun(s, By(t, rest), cfg)
            && Run(s, By(t, rest), cfg)
               == s.(lock := None, live := s.live - Only(s.threads[t].taken), threads := s.threads - {t},
                     closeReturned := true)
  {
    var s1 := Next(s, t, CloseKills, cfg);
    assert By(t, []) == [];
    RunOne(s1, t, CloseReleases, [], cfg);
    RunOne(s, t, CloseKills, [CloseReleases], cfg);
    assert s1.threads - {t} == s.threads - {t};
  }

  /** A close that does not get the lock in time returns all the same: it kills the compiler it saw where
      it is, and takes nothing out of the holder's hands. */
  lemma CloseNeverWaits(s: State, t: nat, cfg: Config)
    requires t !in s.threads
    ensures CanRun(s, By(t, CloseWithoutLock()), cfg)
    ensures Run(s, By(t, CloseWithoutLock()), cfg)
            == s.(closed := true, live := s.live - Only(s.client), closeReturned := true)
  {
    var s1 := Next(s, t, CallClose, cfg);
    var s2 := Next(s1, t, CloseTimesOut, cfg);
    var s3 := Next(s2, t, CloseDisposes, cfg);
    assert s3.threads == s.threads;
    assert By(t, []) == [];
    RunOne(s2, t, CloseDisposes, [], cfg);
    RunOne(s1, t, CloseTimesOut, [CloseDisposes], cfg);
    RunOne(s, t, CallClose, [CloseTimesOut] + [CloseDisposes], cfg);
    assert CloseWithoutLock() == [CallClose] + ([CloseTimesOut] + [CloseDisposes]);
  }

  /** The endpoint is never stuck: every thread under way can take a step, but for one that wants the lock
      while another thread holds it. */
  lemma NobodyIsStuck(moves: seq<Move>, t: nat, cfg: Config)
    requires CanRun(START, moves, cfg) && EntersEmptyRun(START, moves, cfg)
    requires t in Run(START, moves, cfg).threads
    ensures var s := Run(START, moves, cfg);
            (exists a :: StepOf(a) && Enabled(s, t, a)) ||
            (s.threads[t].Wants? && s.lock.Some? && s.lock.value in s.threads && s.lock.value != t)
  {
    StartSound(cfg);
    RunKeepsInv(START, moves, cfg);
    var s := Run(START, moves, cfg);
    assert ThreadSound(s, t);
    if !(s.threads[t].Wants? && s.lock.Some?) {
      var a := SomeStep(s, t);
    }
  }

  /** A thread's own steps. */
  predicate StepOf(a: Action) {
    !a.ProcessDies? && !a.TimePasses?
  }

  lemma SomeStep(s: State, t: nat) returns (a: Action)
    requires t in s.threads && ThreadSound(s, t) && !(s.threads[t].Wants? && s.lock.Some?)
    ensures StepOf(a) && Enabled(s, t, a)
  {
    match s.threads[t]
    case Wants(_) => a := TakeLock;
    case Entered(_) => a := LookIn;
    case MustStart => a := RefuseStart;
    case Spawned(_) => a := HandshakeFails;
    case Installed(_) => a := LookClosed(false);
    case Forging => a := ForgeEnds(NothingInTime, None);
    case Reaping(_) => a := Dispose;
    case Retiring(_) => a := Dispose;
    case Leaving => a := Release;
    case Closing => a := CloseTimesOut;
    case CloseHolds(_) => a := CloseKills;
    case CloseLeaves => a := CloseReleases;
    case CloseSaw(_) => a := CloseDisposes;
  }

  /** What a call may do once it has looked in: with a compiler it forges, on a closed endpoint it leaves,
      and it starts a compiler exactly when the endpoint is open and has none. */
  lemma LookInMeans(s: State, t: nat, cfg: Config)
    requires Enabled(s, t, LookIn) && s.threads[t] == Entered(false)
    ensures var s' := Next(s, t, LookIn, cfg);
            && (Enabled(s', t, Release) <==> s.closed)
            && ((exists response, budget :: Enabled(s', t, ForgeEnds(response, budget))) <==>
                  !s.closed && s.client.Some?)
            && (Enabled(s', t, RefuseStart) <==> !s.closed && s.client.None?)
            && (Enabled(s', t, Spawn) <==> !s.closed && s.client.None? && !s.ledger.unrecoverable)
  {
    var s' := Next(s, t, LookIn, cfg);
    if !s.closed && s.client.Some? {
      assert Enabled(s', t, ForgeEnds(NothingInTime, None));
    }
  }

  lemma EagerStartRuns(s: State, t: nat, cfg: Config)
    requires s.lock == None && t !in s.threads && !s.closed && !s.ledger.unrecoverable
    ensures CanRun(s, By(t, EagerStart()), cfg)
    ensures Run(s, By(t, EagerStart()), cfg) == Restarted(s)
  {
    var s1 := Next(s, t, Call(true), cfg);
    var s2 := Next(s1, t, TakeLock, cfg);
    var s3 := Next(s2, t, LookIn, cfg);
    var rest := [Spawn, HandshakeOk, LookClosed(false), Release];
    SecondHalf(s3, t, cfg);
    RunOne(s2, t, LookIn, rest, cfg);
    RunOne(s1, t, TakeLock, [LookIn] + rest, cfg);
    RunOne(s, t, Call(true), [TakeLock] + ([LookIn] + rest), cfg);
    assert EagerStart() == [Call(true)] + ([TakeLock] + ([LookIn] + rest));
    assert s3.threads - {t} == s.threads;
  }

  /** Entering the context of an endpoint that is already in use is not guarded: a whole eager start on
      an idle, open endpoint leaves more alive than the compiler it installs exactly when one was
      installed and alive before. */
  lemma EagerStartOrphansIff(s: State, t: nat, cfg: Config)
    requires Inv(s, cfg) && s.lock == None && t !in s.threads && !s.closed && !s.ledger.unrecoverable
    ensures CanRun(s, By(t, EagerStart()), cfg)
    ensures var after := Run(s, By(t, EagerStart()), cfg);
            && after.lock == None && after.client == Some(s.spawned)
            && (after.live <= Only(after.client) <==> !(s.client.Some? && s.client.value in s.live))
  {
    EagerStartRuns(s, t, cfg);
  }

  /** That side is reached: entering a new endpoint's context leaves its compiler installed and alive,
      and entering it again leaves that one running behind another. */
  lemma SecondEagerStartOrphans(t: nat, u: nat, cfg: Config)
    ensures CanRun(START, By(t, EagerStart()), cfg)
    ensures var once := Run(START, By(t, EagerStart()), cfg);
            && once.lock == None && once.client.Some? && once.live == {once.client.value}
            && CanRun(once, By(u, EagerStart()), cfg)
            && var twice := Run(once, By(u, EagerStart()), cfg);
            && twice.lock == None && twice.client.Some? && twice.client != once.client
            && twice.live == {once.client.value, twice.client.value}
  {
    EagerStartRuns(START, t, cfg);
    EagerStartRuns(Restarted(START), u, cfg);
  }
}
