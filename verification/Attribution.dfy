/** Customer files and the registry rows that account for them, while chat turns, scheduled turns,
    retention sweeps and explicit deletions interleave and crash: product_service.py,
    ProductService.dispatch, ProductScheduler.tick, ProductRetentionMonitor.tick and
    ProductDataManager. Every step is one transaction, one lock operation or one file operation. */
module Attribution {
  import opened Sessions
  import opened Wrappers

  datatype Kind = Conversation | Sandbox | Audit

  datatype File = File(kind: Kind, session: SessionId)

  /** What an eraser does next. */
  datatype Stage = RemoveConversation | RemoveSandbox | RemoveAudit | DropRow

  datatype Pc =
    // chat: registered, waiting for the session lock
    | Admitted(session: SessionId, since: real)
    // scheduled: waiting for the session lock, registering only under it
    | Queued(session: SessionId)
    | Rereads(session: SessionId)
    // chat: holds the lock, about to compare the clock with its deadline once more
    | Entered(session: SessionId, since: real)
    // a turn holding the lock; from here on it may write, past its deadline too
    | InTurn(session: SessionId, since: real, scheduled: bool)
    | Settled(session: SessionId)
    // a chat turn that has let go of the lock and not settled yet
    | Unsettled(session: SessionId)
    // a sweep of one candidate (a cutoff) or an explicit deletion (none)
    | Waits(session: SessionId, cutoff: Option<real>)
    | Holds(session: SessionId, cutoff: Option<real>)
    | Erasing(session: SessionId, cutoff: Option<real>, stage: Stage, found: bool)
    | Done(session: SessionId)

  datatype State = State(clock: real, rows: map<SessionId, real>, files: set<File>, locks: map<SessionId, nat>,
                         threads: map<nat, Pc>)

  datatype Config = Config(deadline: real, retention: real)

  datatype Action =
    | TimePasses(later: real)
    | Admit(session: SessionId, now: real)
    | Schedule(session: SessionId)
    | Lock
    | Begin
    | Register(now: real)
    | Write(kind: Kind)
    | GiveUp
    | Settle(live: bool)
    | Unlock
    | BeginSweep(session: SessionId, now: real)
    | BeginDelete(session: SessionId)
    | Recheck(scheduleActive: bool)
    | StartDelete(hadSchedules: bool)
    | Erase
    | Crash

  const START: State := State(0.0, map[], {}, map[], map[])

  predicate Holding(pc: Pc) {
    pc.Rereads? || pc.Entered? || pc.InTurn? || pc.Settled? || pc.Holds? || pc.Erasing? || pc.Done?
  }

  predicate Waiting(pc: Pc) {
    pc.Admitted? || pc.Queued? || pc.Waits?
  }

  predicate Enabled(s: State, t: nat, a: Action, cfg: Config) {
    match a
    case TimePasses(later) => s.clock <= later
    case Admit(_, now) => t !in s.threads && now <= s.clock
    case Schedule(_) => t !in s.threads
    case BeginSweep(_, now) => t !in s.threads && now <= s.clock
    case BeginDelete(_) => t !in s.threads
    case Lock => t in s.threads && Waiting(s.threads[t]) && s.threads[t].session !in s.locks
    case Register(now) => t in s.threads && s.threads[t].Rereads? && now <= s.clock
    case Begin => t in s.threads && s.threads[t].Entered? && s.clock < s.threads[t].since + cfg.deadline
    case Write(_) => t in s.threads && s.threads[t].InTurn?
    // the deadline passes in the queue, the schedule is gone, a quota refuses
    case GiveUp => t in s.threads && (s.threads[t].Admitted? || s.threads[t].Queued? || s.threads[t].Rereads?)
    case Settle(_) => t in s.threads && (s.threads[t].Unsettled? ||
                                         (s.threads[t].InTurn? && s.threads[t].scheduled))
    case Unlock => t in s.threads && (s.threads[t].Settled? || s.threads[t].Done? || s.threads[t].Entered? ||
                                      (s.threads[t].InTurn? && !s.threads[t].scheduled))
    case Recheck(_) => t in s.threads && s.threads[t].Holds? && s.threads[t].cutoff.Some?
    case StartDelete(_) => t in s.threads && s.threads[t].Holds? && s.threads[t].cutoff.None?
    case Erase => t in s.threads && s.threads[t].Erasing?
    case Crash => t in s.threads
  }

  function Latest(rows: map<SessionId, real>, session: SessionId, now: real): real {
    if session in rows && rows[session] > now then rows[session] else now
  }

  function Touched(rows: map<SessionId, real>, session: SessionId, now: real): map<SessionId, real> {
    rows[session := Latest(rows, session, now)]
  }

  predicate Inactive(rows: map<SessionId, real>, session: SessionId, cutoff: real) {
    session in rows && rows[session] <= cutoff
  }

  function Released(s: State, t: nat): map<SessionId, nat>
    requires t in s.threads
  {
    if Holding(s.threads[t]) then s.locks - {s.threads[t].session} else s.locks
  }

  predicate HasFiles(files: set<File>, session: SessionId) {
    File(Conversation, session) in files || File(Sandbox, session) in files || File(Audit, session) in files
  }

  /** Whether an eraser's last step will drop its row. */
  predicate DropsRow(s: State, pc: Pc)
    requires pc.Erasing?
  {
    if pc.cutoff.Some? then Inactive(s.rows, pc.session, pc.cutoff.value) else pc.found
  }

  /** One removal of delete_internal_files, or the registry row that goes last: a sweep drops it only
      if it is still old, a deletion only if it found anything to delete. */
  function AfterErase(s: State, t: nat): State
    requires t in s.threads && s.threads[t].Erasing?
  {
    var pc := s.threads[t];
    match pc.stage
    case RemoveConversation =>
      s.(files := s.files - {File(Conversation, pc.session)},
         threads := s.threads[t := pc.(stage := RemoveSandbox)])
    case RemoveSandbox =>
      s.(files := s.files - {File(Sandbox, pc.session)}, threads := s.threads[t := pc.(stage := RemoveAudit)])
    case RemoveAudit =>
      s.(files := s.files - {File(Audit, pc.session)}, threads := s.threads[t := pc.(stage := DropRow)])
    case DropRow =>
      var drops := DropsRow(s, pc);
      s.(rows := if drops then s.rows - {pc.session} else s.rows, threads := s.threads[t := Done(pc.session)])
  }

  function Next(s: State, t: nat, a: Action, cfg: Config): State
    requires Enabled(s, t, a, cfg)
  {
    match a
    case TimePasses(later) => s.(clock := later)
    case Admit(session, now) =>
      s.(rows := Touched(s.rows, session, now), threads := s.threads[t := Admitted(session, now)])
    case Schedule(session) => s.(threads := s.threads[t := Queued(session)])
    case BeginSweep(session, now) =>
      s.(threads := s.threads[t := Waits(session, Some(now - cfg.retention))])
    case BeginDelete(session) => s.(threads := s.threads[t := Waits(session, None)])
    case Lock =>
      var pc := s.threads[t];
      var inside := match pc
        case Admitted(session, since) => Entered(session, since)
        case Waits(session, cutoff) => Holds(session, cutoff)
        case _ => Rereads(pc.session);
      s.(locks := s.locks[pc.session := t], threads := s.threads[t := inside])
    case Begin =>
      s.(threads := s.threads[t := InTurn(s.threads[t].session, s.threads[t].since, false)])
    case Register(now) =>
      var session := s.threads[t].session;
      s.(rows := Touched(s.rows, session, now), threads := s.threads[t := InTurn(session, now, true)])
    case Write(kind) => s.(files := s.files + {File(kind, s.threads[t].session)})
    case GiveUp =>
      if s.threads[t].Rereads? then s.(threads := s.threads[t := Done(s.threads[t].session)])
      else s.(threads := s.threads - {t})
    case Settle(live) =>
      var session := s.threads[t].session;
      var rows := if live then Touched(s.rows, session, s.clock) else s.rows;
      if s.threads[t].Unsettled? then s.(rows := rows, threads := s.threads - {t})
      else s.(rows := rows, threads := s.threads[t := Settled(session)])
    case Unlock =>
      var pc := s.threads[t];
      if pc.InTurn? || pc.Entered? then s.(locks := Released(s, t), threads := s.threads[t := Unsettled(pc.session)])
      else s.(locks := Released(s, t), threads := s.threads - {t})
    case Recheck(scheduleActive) =>
      var pc := s.threads[t];
      var goes := Inactive(s.rows, pc.session, pc.cutoff.value) && !scheduleActive;
      s.(threads := s.threads[t :=
           if goes then Erasing(pc.session, pc.cutoff, RemoveConversation, true) else Done(pc.session)])
    case StartDelete(hadSchedules) =>
      var pc := s.threads[t];
      var found := HasFiles(s.files, pc.session) || hadSchedules;
      s.(threads := s.threads[t := Erasing(pc.session, None, RemoveConversation, found)])
    case Erase => AfterErase(s, t)
    case Crash => s.(locks := Released(s, t), threads := s.threads - {t})
  }

  // The restart check.

  function SessionsWith(files: set<File>, kind: Kind): set<SessionId> {
    set f | f in files && f.kind == kind :: f.session
  }

  /** verify_quota_registry: no file of any kind belongs to a session without a row. */
  predicate VerifyRegistry(s: State) {
    && SessionsWith(s.files, Conversation) - s.rows.Keys == {}
    && SessionsWith(s.files, Audit) - s.rows.Keys == {}
    && SessionsWith(s.files, Sandbox) - s.rows.Keys == {}
  }

  predicate Attributed(s: State) {
    forall f :: f in s.files ==> f.session in s.rows
  }

  lemma RestartAcceptsIffAttributed(s: State)
    ensures VerifyRegistry(s) <==> Attributed(s)
  {
    if VerifyRegistry(s) {
      forall f | f in s.files
        ensures f.session in s.rows
      {
        assert f.session in SessionsWith(s.files, f.kind);
        assert f.session !in SessionsWith(s.files, f.kind) - s.rows.Keys;
      }
    }
  }

  // The invariant.

  /** A turn that may write, now or later: one under way, or one that can still begin in time. */
  predicate Live(s: State, pc: Pc, cfg: Config) {
    pc.InTurn? || ((pc.Admitted? || pc.Entered?) && s.clock < pc.since + cfg.deadline)
  }

  predicate RowCovers(s: State, session: SessionId, since: real) {
    session in s.rows && s.rows[session] >= since
  }

  predicate Swept(pc: Pc) {
    (pc.Waits? || pc.Holds? || pc.Erasing?) && pc.cutoff.Some?
  }

  /** The files an eraser has already removed are still gone. */
  predicate Cleared(s: State, pc: Pc) {
    pc.Erasing? ==>
      && (!pc.stage.RemoveConversation? ==> File(Conversation, pc.session) !in s.files)
      && (pc.stage.RemoveAudit? || pc.stage.DropRow? ==> File(Sandbox, pc.session) !in s.files)
      && (pc.stage.DropRow? ==> File(Audit, pc.session) !in s.files)
  }

  predicate ThreadSound(s: State, t: nat, cfg: Config)
    requires t in s.threads
  {
    var pc := s.threads[t];
    && (Holding(pc) ==> pc.session in s.locks && s.locks[pc.session] == t)
    && (Live(s, pc, cfg) ==> RowCovers(s, pc.session, pc.since))
    && (Swept(pc) ==> pc.cutoff.value <= s.clock - cfg.retention)
    && Cleared(s, pc)
    && (pc.Erasing? && pc.cutoff.Some? ==> pc.session in s.rows)
  }

  predicate Inv(s: State, cfg: Config) {
    Attributed(s) && forall t :: t in s.threads ==> ThreadSound(s, t, cfg)
  }

  /** A chat turn that is registered on this session, waits for its lock and may still write. */
  predicate TurnPending(s: State, t: nat, session: SessionId, cfg: Config) {
    t in s.threads && s.threads[t].Admitted? && s.threads[t].session == session && Live(s, s.threads[t], cfg)
  }

  /** The step by which an explicit deletion drops a registry row. */
  predicate DropsUnasked(s: State, t: nat, a: Action) {
    a.Erase? && t in s.threads && s.threads[t].Erasing? && s.threads[t].stage.DropRow?
    && s.threads[t].cutoff.None? && s.threads[t].found
  }

  /** No deletion drops the row under a pending chat turn. */
  ghost predicate Orderly(s: State, t: nat, a: Action, cfg: Config) {
    DropsUnasked(s, t, a) ==> forall u :: !TurnPending(s, u, s.threads[t].session, cfg)
  }

  lemma OtherThreadsErase(s: State, t: nat, u: nat, cfg: Config)
    requires cfg.deadline <= cfg.retention
    requires Inv(s, cfg) && Enabled(s, t, Erase, cfg) && Orderly(s, t, Erase, cfg)
    requires u != t && u in s.threads
    ensures u in Next(s, t, Erase, cfg).threads && ThreadSound(Next(s, t, Erase, cfg), u, cfg)
  {
    assert ThreadSound(s, u, cfg) && ThreadSound(s, t, cfg);
    if DropsUnasked(s, t, Erase) {
      assert !TurnPending(s, u, s.threads[t].session, cfg);
    }
  }

  lemma OtherThreadsRest(s: State, t: nat, a: Action, u: nat, cfg: Config)
    requires Inv(s, cfg) && Enabled(s, t, a, cfg) && !a.Erase?
    requires u != t && u in s.threads
    ensures u in Next(s, t, a, cfg).threads && ThreadSound(Next(s, t, a, cfg), u, cfg)
  {
    assert ThreadSound(s, u, cfg);
    if a.Lock? || a.GiveUp? || a.Unlock? || a.Crash? {
      OtherThreadsLocks(s, t, a, u, cfg);
    }
  }

  lemma OtherThreadsLocks(s: State, t: nat, a: Action, u: nat, cfg: Config)
    requires Inv(s, cfg) && Enabled(s, t, a, cfg) && (a.Lock? || a.GiveUp? || a.Unlock? || a.Crash?)
    requires u != t && u in s.threads
    ensures u in Next(s, t, a, cfg).threads && ThreadSound(Next(s, t, a, cfg), u, cfg)
  {
    assert ThreadSound(s, u, cfg) && ThreadSound(s, t, cfg);
  }

  lemma OtherThreads(s: State, t: nat, a: Action, u: nat, cfg: Config)
    requires cfg.deadline <= cfg.retention
    requires Inv(s, cfg) && Enabled(s, t, a, cfg) && Orderly(s, t, a, cfg)
    requires u != t && u in s.threads
    ensures u in Next(s, t, a, cfg).threads && ThreadSound(Next(s, t, a, cfg), u, cfg)
  {
    if a.Erase? {
      OtherThreadsErase(s, t, u, cfg);
    } else {
      OtherThreadsRest(s, t, a, u, cfg);
    }
  }

  lemma OwnThread(s: State, t: nat, a: Action, cfg: Config)
    requires cfg.deadline <= cfg.retention
    requires Inv(s, cfg) && Enabled(s, t, a, cfg) && t in Next(s, t, a, cfg).threads
    ensures ThreadSound(Next(s, t, a, cfg), t, cfg)
  {
    if t in s.threads {
      assert ThreadSound(s, t, cfg);
    }
    if a.Erase? {
      OwnThreadErases(s, t, cfg);
    } else if a.Register? || a.Settle? || a.Unlock? || a.Recheck? || a.StartDelete? {
      OwnThreadMoves(s, t, a, cfg);
    }
  }

  lemma OwnThreadErases(s: State, t: nat, cfg: Config)
    requires Inv(s, cfg) && Enabled(s, t, Erase, cfg)
    ensures ThreadSound(Next(s, t, Erase, cfg), t, cfg)
  {
    assert ThreadSound(s, t, cfg);
  }

  lemma OwnThreadMoves(s: State, t: nat, a: Action, cfg: Config)
    requires a.Register? || a.Settle? || a.Unlock? || a.Recheck? || a.StartDelete?
    requires Inv(s, cfg) && Enabled(s, t, a, cfg) && t in Next(s, t, a, cfg).threads
    ensures ThreadSound(Next(s, t, a, cfg), t, cfg)
  {
    assert ThreadSound(s, t, cfg);
  }

  lemma NothingLeft(s: State, pc: Pc)
    requires pc.Erasing? && pc.stage.DropRow? && Cleared(s, pc)
    ensures forall f :: f in s.files ==> f.session != pc.session
  {
    forall f | f in s.files
      ensures f.session != pc.session
    {
      match f.kind
      case Conversation => assert f == File(Conversation, f.session);
      case Sandbox => assert f == File(Sandbox, f.session);
      case Audit => assert f == File(Audit, f.session);
    }
  }

  lemma FilesStayAttributed(s: State, t: nat, a: Action, cfg: Config)
    requires cfg.deadline <= cfg.retention
    requires Inv(s, cfg) && Enabled(s, t, a, cfg)
    ensures Attributed(Next(s, t, a, cfg))
  {
    var s' := Next(s, t, a, cfg);
    if t in s.threads {
      assert ThreadSound(s, t, cfg);
      if s.threads[t].Erasing? && s.threads[t].stage.DropRow? {
        NothingLeft(s, s.threads[t]);
      }
    }
    forall f | f in s'.files
      ensures f.session in s'.rows
    {
      if f in s.files {
        assert f.session in s.rows;
      }
    }
  }

  lemma NextKeepsInv(s: State, t: nat, a: Action, cfg: Config)
    requires cfg.deadline <= cfg.retention
    requires Inv(s, cfg) && Enabled(s, t, a, cfg) && Orderly(s, t, a, cfg)
    ensures Inv(Next(s, t, a, cfg), cfg)
  {
    var s' := Next(s, t, a, cfg);
    FilesStayAttributed(s, t, a, cfg);
    forall u | u in s'.threads
      ensures ThreadSound(s', u, cfg)
    {
      if u == t {
        OwnThread(s, t, a, cfg);
      } else {
        assert u in s.threads;
        OtherThreads(s, t, a, u, cfg);
      }
    }
  }

  // Whole runs.

  datatype Move = Move(thread: nat, action: Action)

  /** A run, newest move last. */
  predicate CanRun(moves: seq<Move>, cfg: Config)
    decreases |moves|, 0
  {
    moves == [] ||
    (var n := |moves| - 1;
     CanRun(moves[..n], cfg) && Enabled(Run(moves[..n], cfg), moves[n].thread, moves[n].action, cfg))
  }

  function Run(moves: seq<Move>, cfg: Config): State
    requires CanRun(moves, cfg)
    decreases |moves|, 1
  {
    if moves == [] then START
    else
      var n := |moves| - 1;
      Next(Run(moves[..n], cfg), moves[n].thread, moves[n].action, cfg)
  }

  ghost predicate OrderlyRun(moves: seq<Move>, cfg: Config)
    requires CanRun(moves, cfg)
    decreases |moves|
  {
    moves == [] ||
    (var n := |moves| - 1;
     OrderlyRun(moves[..n], cfg) && Orderly(Run(moves[..n], cfg), moves[n].thread, moves[n].action, cfg))
  }

  lemma {:induction false} RunKeepsInv(moves: seq<Move>, cfg: Config)
    requires cfg.deadline <= cfg.retention && CanRun(moves, cfg) && OrderlyRun(moves, cfg)
    ensures Inv(Run(moves, cfg), cfg)
    decreases |moves|
  {
    if moves != [] {
      var n := |moves| - 1;
      RunKeepsInv(moves[..n], cfg);
      NextKeepsInv(Run(moves[..n], cfg), moves[n].thread, moves[n].action, cfg);
    }
  }

  /** Every run passes the restart check after every step: killed anywhere, the product starts again. */
  ghost predicate RestartsAlways(cfg: Config) {
    forall moves: seq<Move> :: CanRun(moves, cfg) && OrderlyRun(moves, cfg) ==> VerifyRegistry(Run(moves, cfg))
  }

  lemma Extend(moves: seq<Move>, t: nat, a: Action, cfg: Config)
    requires CanRun(moves, cfg) && OrderlyRun(moves, cfg)
    requires Enabled(Run(moves, cfg), t, a, cfg) && !DropsUnasked(Run(moves, cfg), t, a)
    ensures var more := moves + [Move(t, a)];
            CanRun(more, cfg) && OrderlyRun(more, cfg) && Run(more, cfg) == Next(Run(moves, cfg), t, a, cfg)
  {
    var more := moves + [Move(t, a)];
    assert more[..|more| - 1] == moves;
  }

  // What goes wrong when the deadline outlasts the retention period.

  const SESSION: SessionId := SessionId(7, [])
  const CHAT: nat := 1
  const SWEEP: nat := 2

  /** One retention period after a turn was admitted that still waits for its lock, a sweep of its
      session is about to do `stage`. */
  function MidSweep(stage: Stage, cfg: Config): State {
    State(cfg.retention, map[SESSION := 0.0], {}, map[SESSION := SWEEP],
          map[CHAT := Admitted(SESSION, 0.0), SWEEP := Erasing(SESSION, Some(0.0), stage, true)])
  }

  /** The sweep of a session whose turn is waiting for the lock, up to the removal of its files. */
  lemma SweepReachesWaitingTurn(cfg: Config) returns (moves: seq<Move>)
    requires 0.0 < cfg.retention < cfg.deadline
    ensures CanRun(moves, cfg) && OrderlyRun(moves, cfg)
    ensures Run(moves, cfg) == MidSweep(RemoveConversation, cfg)
  {
    moves := [];
    Extend(moves, CHAT, Admit(SESSION, 0.0), cfg);
    moves := moves + [Move(CHAT, Admit(SESSION, 0.0))];
    Extend(moves, 0, TimePasses(cfg.retention), cfg);
    moves := moves + [Move(0, TimePasses(cfg.retention))];
    Extend(moves, SWEEP, BeginSweep(SESSION, cfg.retention), cfg);
    moves := moves + [Move(SWEEP, BeginSweep(SESSION, cfg.retention))];
    Extend(moves, SWEEP, Lock, cfg);
    moves := moves + [Move(SWEEP, Lock)];
    Extend(moves, SWEEP, Recheck(false), cfg);
    moves := moves + [Move(SWEEP, Recheck(false))];
  }

  function Following(stage: Stage): Stage {
    match stage
    case RemoveConversation => RemoveSandbox
    case RemoveSandbox => RemoveAudit
    case _ => DropRow
  }

  lemma SweepErases(before: seq<Move>, stage: Stage, cfg: Config)
    requires CanRun(before, cfg) && OrderlyRun(before, cfg) && Run(before, cfg) == MidSweep(stage, cfg)
    requires !stage.DropRow?
    ensures var moves := before + [Move(SWEEP, Erase)];
            CanRun(moves, cfg) && OrderlyRun(moves, cfg) && Run(moves, cfg) == MidSweep(Following(stage), cfg)
  {
    Extend(before, SWEEP, Erase, cfg);
  }

  lemma SweepDropsItsRow(before: seq<Move>, cfg: Config) returns (moves: seq<Move>)
    requires CanRun(before, cfg) && OrderlyRun(before, cfg) && Run(before, cfg) == MidSweep(DropRow, cfg)
    ensures CanRun(moves, cfg) && OrderlyRun(moves, cfg)
    ensures Run(moves, cfg) == State(cfg.retention, map[], {}, map[], map[CHAT := Admitted(SESSION, 0.0)])
  {
    Extend(before, SWEEP, Erase, cfg);
    moves := before + [Move(SWEEP, Erase)];
    Extend(moves, SWEEP, Unlock, cfg);
    moves := moves + [Move(SWEEP, Unlock)];
  }

  lemma TurnWritesUnattributed(before: seq<Move>, cfg: Config) returns (moves: seq<Move>)
    requires 0.0 < cfg.retention < cfg.deadline && CanRun(before, cfg) && OrderlyRun(before, cfg)
    requires Run(before, cfg) == State(cfg.retention, map[], {}, map[], map[CHAT := Admitted(SESSION, 0.0)])
    ensures CanRun(moves, cfg) && OrderlyRun(moves, cfg) && !VerifyRegistry(Run(moves, cfg))
  {
    Extend(before, CHAT, Lock, cfg);
    moves := before + [Move(CHAT, Lock)];
    Extend(moves, CHAT, Begin, cfg);
    moves := moves + [Move(CHAT, Begin)];
    Extend(moves, CHAT, Write(Conversation), cfg);
    moves := moves + [Move(CHAT, Write(Conversation))];
    RestartAcceptsIffAttributed(Run(moves, cfg));
    assert File(Conversation, SESSION) in Run(moves, cfg).files;
  }

  /** The product always restarts, wherever it is killed, exactly when a turn's deadline does not
      outlast the retention period. */
  lemma RestartsAlwaysIff(cfg: Config)
    requires cfg.retention > 0.0
    ensures RestartsAlways(cfg) <==> cfg.deadline <= cfg.retention
  {
    if cfg.deadline <= cfg.retention {
      forall moves: seq<Move> | CanRun(moves, cfg) && OrderlyRun(moves, cfg)
        ensures VerifyRegistry(Run(moves, cfg))
      {
        RunKeepsInv(moves, cfg);
        RestartAcceptsIffAttributed(Run(moves, cfg));
      }
    } else {
      var moves := SweepReachesWaitingTurn(cfg);
      SweepErases(moves, RemoveConversation, cfg);
      moves := moves + [Move(SWEEP, Erase)];
      SweepErases(moves, RemoveSandbox, cfg);
      moves := moves + [Move(SWEEP, Erase)];
      SweepErases(moves, RemoveAudit, cfg);
      moves := moves + [Move(SWEEP, Erase)];
      var dropped := SweepDropsItsRow(moves, cfg);
      var written := TurnWritesUnattributed(dropped, cfg);
    }
  }

  // What goes wrong when a deletion overlaps an admitted turn.

  /** chat registers before it takes the lock and delete drops the row unconditionally: whenever a
      deletion's last step finds a pending turn, the deletion can finish and that turn write a file
      nobody accounts for. */
  lemma DeletionUnderTurnBreaksRestart(s: State, t: nat, u: nat, kind: Kind, cfg: Config)
    requires Inv(s, cfg) && DropsUnasked(s, t, Erase) && TurnPending(s, u, s.threads[t].session, cfg)
    ensures
      var dropped := Next(s, t, Erase, cfg);
      && VerifyRegistry(dropped)
      && Enabled(dropped, t, Unlock, cfg)
      && var unlocked := Next(dropped, t, Unlock, cfg);
      && Enabled(unlocked, u, Lock, cfg)
      && var locked := Next(unlocked, u, Lock, cfg);
      && Enabled(locked, u, Begin, cfg)
      && var inside := Next(locked, u, Begin, cfg);
      && Enabled(inside, u, Write(kind), cfg)
      && !VerifyRegistry(Next(inside, u, Write(kind), cfg))
  {
    assert ThreadSound(s, t, cfg) && ThreadSound(s, u, cfg);
    var session := s.threads[t].session;
    var dropped := Next(s, t, Erase, cfg);
    NothingLeft(s, s.threads[t]);
    RestartAcceptsIffAttributed(dropped);
    var unlocked := Next(dropped, t, Unlock, cfg);
    var inside := Next(Next(unlocked, u, Lock, cfg), u, Begin, cfg);
    var written := Next(inside, u, Write(kind), cfg);
    RestartAcceptsIffAttributed(written);
    assert File(kind, session) in written.files && session !in written.rows;
  }

  /** A sweep killed at any step leaves its candidate's row, so the next sweep finds it again. */
  lemma KilledSweepIsRetried(moves: seq<Move>, t: nat, cfg: Config)
    requires cfg.deadline <= cfg.retention && CanRun(moves, cfg) && OrderlyRun(moves, cfg)
    requires var s := Run(moves, cfg); t in s.threads && s.threads[t].Erasing? && s.threads[t].cutoff.Some?
    ensures var s := Run(moves, cfg);
            && Enabled(s, t, Crash, cfg)
            && s.threads[t].session in Next(s, t, Crash, cfg).rows
            && s.threads[t].session !in Next(s, t, Crash, cfg).locks
            && VerifyRegistry(Next(s, t, Crash, cfg))
  {
    RunKeepsInv(moves, cfg);
    var s := Run(moves, cfg);
    assert ThreadSound(s, t, cfg);
    RestartAcceptsIffAttributed(Next(s, t, Crash, cfg));
  }
}
