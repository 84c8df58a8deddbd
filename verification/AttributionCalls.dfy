/** Whole turns, deletions and sweeps made of the single steps of Attribution, each alone on its session:
    product_service.py, ProductService.dispatch, ProductScheduler.tick, ProductDataManager.delete and
    ProductRetentionMonitor.tick. */
module AttributionCalls {
  import opened Sessions
  import opened Wrappers
  import opened Attribution

  /** The state after thread t took these steps, if it could take them. */
  function Does(s: State, t: nat, actions: seq<Action>, cfg: Config): Option<State>
    decreases |actions|
  {
    if actions == [] then Some(s)
    else if Enabled(s, t, actions[0], cfg) then Does(Next(s, t, actions[0], cfg), t, actions[1..], cfg)
    else None
  }

  lemma DoesFirst(s: State, t: nat, a: Action, rest: seq<Action>, cfg: Config)
    requires Enabled(s, t, a, cfg)
    ensures Does(s, t, [a] + rest, cfg) == Does(Next(s, t, a, cfg), t, rest, cfg)
  {
    assert ([a] + rest)[1..] == rest;
  }

  lemma DoesThree(s: State, t: nat, a: Action, b: Action, c: Action, after: State, rest: seq<Action>, cfg: Config)
    requires Enabled(s, t, a, cfg) && Enabled(Next(s, t, a, cfg), t, b, cfg)
    requires Enabled(Next(Next(s, t, a, cfg), t, b, cfg), t, c, cfg)
    requires after == Next(Next(Next(s, t, a, cfg), t, b, cfg), t, c, cfg)
    ensures Does(s, t, [a, b, c] + rest, cfg) == Does(after, t, rest, cfg)
  {
    var s1 := Next(s, t, a, cfg);
    DoesFirst(Next(s1, t, b, cfg), t, c, rest, cfg);
    DoesFirst(s1, t, b, [c] + rest, cfg);
    DoesFirst(s, t, a, [b] + ([c] + rest), cfg);
    assert [a, b, c] + rest == [a] + ([b] + ([c] + rest));
  }

  /** Thread t at a point where it holds the session's lock. */
  function Holder(s: State, t: nat, pc: Pc): State {
    s.(locks := s.locks[pc.session := t], threads := s.threads[t := pc])
  }

  lemma HolderLeaves(s: State, t: nat, pc: Pc)
    requires Alone(s, t, pc.session)
    ensures Holder(s, t, pc).locks - {pc.session} == s.locks && Holder(s, t, pc).threads - {t} == s.threads
  {
  }

  /** Nobody holds the session's lock, and the thread does nothing else. */
  predicate Alone(s: State, t: nat, session: SessionId) {
    t !in s.threads && session !in s.locks
  }

  /** Nothing but rows and files has changed. */
  predicate SameButData(before: State, after: State) {
    after.clock == before.clock && after.locks == before.locks && after.threads == before.threads
  }

  /** The session's row is moved on to the latest of what it held and the times given, no other changes. */
  predicate RowMovesOn(before: map<SessionId, real>, after: map<SessionId, real>, session: SessionId,
                       times: set<real>)
  {
    && after.Keys == before.Keys + {session}
    && (forall other :: other in before && other != session ==> after[other] == before[other])
    && (forall time :: time in times ==> after[session] >= time)
    && (session in before ==> after[session] >= before[session])
    && (after[session] in times || (session in before && after[session] == before[session]))
  }

  /** The times a turn leaves on its row: when it was registered, and when it settled if it is still live. */
  function Stamps(now: real, live: bool, clock: real): set<real> {
    if live then {now, clock} else {now}
  }

  lemma TouchedMovesOn(rows: map<SessionId, real>, session: SessionId, now: real, live: bool, clock: real)
    ensures var once := Touched(rows, session, now);
            RowMovesOn(rows, if live then Touched(once, session, clock) else once, session,
                       Stamps(now, live, clock))
  {
  }

  /** A chat turn: registered before it has the lock, settled after it gave it back. */
  function Chat(session: SessionId, now: real, kind: Kind, live: bool): seq<Action> {
    [Admit(session, now), Lock, Begin, Write(kind), Unlock, Settle(live)]
  }

  lemma ChatEnds(s: State, t: nat, session: SessionId, kind: Kind, live: bool, cfg: Config)
    requires t in s.threads && s.threads[t].InTurn? && !s.threads[t].scheduled && s.threads[t].session == session
    ensures Does(s, t, [Write(kind), Unlock, Settle(live)], cfg)
            == Some(s.(files := s.files + {File(kind, session)}, locks := s.locks - {session},
                       rows := if live then Touched(s.rows, session, s.clock) else s.rows,
                       threads := s.threads - {t}))
  {
    var s1 := Next(s, t, Write(kind), cfg);
    var s2 := Next(s1, t, Unlock, cfg);
    var s3 := Next(s2, t, Settle(live), cfg);
    assert s3.threads == s.threads - {t};
    assert Does(s3, t, [], cfg) == Some(s3);
    DoesFirst(s2, t, Settle(live), [], cfg);
    DoesFirst(s1, t, Unlock, [Settle(live)], cfg);
    DoesFirst(s, t, Write(kind), [Unlock, Settle(live)], cfg);
  }

  /** A chat turn that is begun before its deadline leaves its file and its row, and nothing else: the
      row is no older than its registration, nor, where the session lives on, than its end. */
  lemma WholeChat(s: State, t: nat, session: SessionId, now: real, kind: Kind, live: bool, cfg: Config)
    requires Alone(s, t, session) && now <= s.clock < now + cfg.deadline
    ensures var r := Does(s, t, Chat(session, now, kind, live), cfg);
            && r.Some? && SameButData(s, r.value) && r.value.files == s.files + {File(kind, session)}
            && RowMovesOn(s.rows, r.value.rows, session, Stamps(now, live, s.clock))
  {
    var registered := s.(rows := Touched(s.rows, session, now));
    var begun := Holder(registered, t, InTurn(session, now, false));
    var rest := [Write(kind), Unlock, Settle(live)];
    ChatBegins(s, t, session, now, cfg);
    DoesThree(s, t, Admit(session, now), Lock, Begin, begun, rest, cfg);
    ChatEnds(begun, t, session, kind, live, cfg);
    assert Chat(session, now, kind, live) == [Admit(session, now), Lock, Begin] + rest;
    TouchedMovesOn(s.rows, session, now, live, s.clock);
    HolderLeaves(registered, t, InTurn(session, now, false));
  }

  lemma ChatBegins(s: State, t: nat, session: SessionId, now: real, cfg: Config)
    requires Alone(s, t, session) && now <= s.clock < now + cfg.deadline
    ensures Enabled(s, t, Admit(session, now), cfg)
    ensures var s1 := Next(s, t, Admit(session, now), cfg);
            && Enabled(s1, t, Lock, cfg)
            && var s2 := Next(s1, t, Lock, cfg);
            && Enabled(s2, t, Begin, cfg)
            && Next(s2, t, Begin, cfg)
               == Holder(s.(rows := Touched(s.rows, session, now)), t, InTurn(session, now, false))
  {
  }

  /** A scheduled turn: registered and settled under the lock. */
  function Scheduled(session: SessionId, now: real, kind: Kind, live: bool): seq<Action> {
    [Schedule(session), Lock, Register(now), Write(kind), Settle(live), Unlock]
  }

  lemma ScheduledEnds(s: State, t: nat, session: SessionId, kind: Kind, live: bool, cfg: Config)
    requires t in s.threads && s.threads[t].InTurn? && s.threads[t].scheduled && s.threads[t].session == session
    ensures Does(s, t, [Write(kind), Settle(live), Unlock], cfg)
            == Some(s.(files := s.files + {File(kind, session)}, locks := s.locks - {session},
                       rows := if live then Touched(s.rows, session, s.clock) else s.rows,
                       threads := s.threads - {t}))
  {
    var s1 := Next(s, t, Write(kind), cfg);
    var s2 := Next(s1, t, Settle(live), cfg);
    var s3 := Next(s2, t, Unlock, cfg);
    assert s3.threads == s.threads - {t};
    assert Does(s3, t, [], cfg) == Some(s3);
    DoesFirst(s2, t, Unlock, [], cfg);
    DoesFirst(s1, t, Settle(live), [Unlock], cfg);
    DoesFirst(s, t, Write(kind), [Settle(live), Unlock], cfg);
  }

  /** A scheduled turn leaves the same behind. */
  lemma WholeScheduled(s: State, t: nat, session: SessionId, now: real, kind: Kind, live: bool, cfg: Config)
    requires Alone(s, t, session) && now <= s.clock
    ensures var r := Does(s, t, Scheduled(session, now, kind, live), cfg);
            && r.Some? && SameButData(s, r.value) && r.value.files == s.files + {File(kind, session)}
            && RowMovesOn(s.rows, r.value.rows, session, Stamps(now, live, s.clock))
  {
    var registered := s.(rows := Touched(s.rows, session, now));
    var begun := Holder(registered, t, InTurn(session, now, true));
    var rest := [Write(kind), Settle(live), Unlock];
    ScheduledBegins(s, t, session, now, cfg);
    DoesThree(s, t, Schedule(session), Lock, Register(now), begun, rest, cfg);
    ScheduledEnds(begun, t, session, kind, live, cfg);
    assert Scheduled(session, now, kind, live) == [Schedule(session), Lock, Register(now)] + rest;
    TouchedMovesOn(s.rows, session, now, live, s.clock);
    HolderLeaves(registered, t, InTurn(session, now, true));
  }

  lemma ScheduledBegins(s: State, t: nat, session: SessionId, now: real, cfg: Config)
    requires Alone(s, t, session) && now <= s.clock
    ensures Enabled(s, t, Schedule(session), cfg)
    ensures var s1 := Next(s, t, Schedule(session), cfg);
            && Enabled(s1, t, Lock, cfg)
            && var s2 := Next(s1, t, Lock, cfg);
            && Enabled(s2, t, Register(now), cfg)
            && Next(s2, t, Register(now), cfg)
               == Holder(s.(rows := Touched(s.rows, session, now)), t, InTurn(session, now, true))
  {
  }

  // Erasing.

  function WithoutSession(files: set<File>, session: SessionId): set<File> {
    set f | f in files && f.session != session
  }

  lemma ThreeKinds(files: set<File>, session: SessionId)
    ensures files - {File(Conversation, session)} - {File(Sandbox, session)} - {File(Audit, session)}
            == WithoutSession(files, session)
  {
    var three := files - {File(Conversation, session)} - {File(Sandbox, session)} - {File(Audit, session)};
    forall f | f in files
      ensures f in three <==> f.session != session
    {
      assert f == File(f.kind, f.session);
      match f.kind
      case Conversation =>
      case Sandbox =>
      case Audit =>
    }
  }

  const ERASURE: seq<Action> := [Erase, Erase, Erase, Erase, Unlock]

  lemma EraseEnds(s: State, t: nat, session: SessionId, cfg: Config)
    requires t in s.threads && s.threads[t].Erasing? && s.threads[t].stage.DropRow?
    requires s.threads[t].session == session
    ensures Does(s, t, [Erase, Unlock], cfg)
            == Some(s.(rows := if DropsRow(s, s.threads[t]) then s.rows - {session} else s.rows,
                       locks := s.locks - {session}, threads := s.threads - {t}))
  {
    var s1 := Next(s, t, Erase, cfg);
    var s2 := Next(s1, t, Unlock, cfg);
    assert s2.threads == s.threads - {t};
    assert Does(s2, t, [], cfg) == Some(s2);
    DoesFirst(s1, t, Unlock, [], cfg);
    DoesFirst(s, t, Erase, [Unlock], cfg);
  }

  lemma EraseAll(s: State, t: nat, session: SessionId, cfg: Config)
    requires t in s.threads && s.threads[t].Erasing? && s.threads[t].stage.RemoveConversation?
    requires s.threads[t].session == session
    ensures Does(s, t, ERASURE, cfg)
            == Some(s.(files := WithoutSession(s.files, session),
                       rows := if DropsRow(s, s.threads[t]) then s.rows - {session} else s.rows,
                       locks := s.locks - {session}, threads := s.threads - {t}))
  {
    var s1 := Next(s, t, Erase, cfg);
    var s2 := Next(s1, t, Erase, cfg);
    var s3 := Next(s2, t, Erase, cfg);
    ThreeKinds(s.files, session);
    EraseEnds(s3, t, session, cfg);
    DoesFirst(s2, t, Erase, [Erase, Unlock], cfg);
    DoesFirst(s1, t, Erase, [Erase] + [Erase, Unlock], cfg);
    DoesFirst(s, t, Erase, [Erase] + ([Erase] + [Erase, Unlock]), cfg);
    assert ERASURE == [Erase] + ([Erase] + ([Erase] + [Erase, Unlock]));
    assert s3.threads - {t} == s.threads - {t};
  }

  /** An explicit deletion takes every file of its session and no other's; it takes the row exactly when it
      found a file, or a schedule. */
  lemma WholeDeletion(s: State, t: nat, session: SessionId, hadSchedules: bool, cfg: Config)
    requires Alone(s, t, session)
    ensures var r := Does(s, t, [BeginDelete(session), Lock, StartDelete(hadSchedules)] + ERASURE, cfg);
            var found := hadSchedules || exists f :: f in s.files && f.session == session;
            && r.Some? && SameButData(s, r.value) && r.value.files == WithoutSession(s.files, session)
            && r.value.rows == if found then s.rows - {session} else s.rows
  {
    var pc := Erasing(session, None, RemoveConversation, HasFiles(s.files, session) || hadSchedules);
    DeletionBegins(s, t, session, hadSchedules, cfg);
    DoesThree(s, t, BeginDelete(session), Lock, StartDelete(hadSchedules), Holder(s, t, pc), ERASURE, cfg);
    EraseAll(Holder(s, t, pc), t, session, cfg);
    FoundIff(s.files, session);
    HolderLeaves(s, t, pc);
  }

  lemma DeletionBegins(s: State, t: nat, session: SessionId, hadSchedules: bool, cfg: Config)
    requires Alone(s, t, session)
    ensures Enabled(s, t, BeginDelete(session), cfg)
    ensures var s1 := Next(s, t, BeginDelete(session), cfg);
            && Enabled(s1, t, Lock, cfg)
            && var s2 := Next(s1, t, Lock, cfg);
            && Enabled(s2, t, StartDelete(hadSchedules), cfg)
            && Next(s2, t, StartDelete(hadSchedules), cfg)
               == Holder(s, t, Erasing(session, None, RemoveConversation,
                                       HasFiles(s.files, session) || hadSchedules))
  {
    EraserLocks(s, t, session, None, cfg);
  }

  lemma FoundIff(files: set<File>, session: SessionId)
    ensures HasFiles(files, session) <==> exists f :: f in files && f.session == session
  {
    if f :| f in files && f.session == session {
      assert f == File(f.kind, session);
      match f.kind
      case Conversation =>
      case Sandbox =>
      case Audit =>
    }
  }

  /** A sweep of one candidate takes its files and its row when the row is at least the retention period old
      and no schedule keeps it... */
  lemma WholeSweep(s: State, t: nat, session: SessionId, now: real, cfg: Config)
    requires Alone(s, t, session) && now <= s.clock
    requires session in s.rows && s.rows[session] + cfg.retention <= now
    ensures Does(s, t, [BeginSweep(session, now), Lock, Recheck(false)] + ERASURE, cfg)
            == Some(s.(files := WithoutSession(s.files, session), rows := s.rows - {session}))
  {
    var pc := Erasing(session, Some(now - cfg.retention), RemoveConversation, true);
    SweepBegins(s, t, session, now, false, cfg);
    DoesThree(s, t, BeginSweep(session, now), Lock, Recheck(false), Holder(s, t, pc), ERASURE, cfg);
    EraseAll(Holder(s, t, pc), t, session, cfg);
    HolderLeaves(s, t, pc);
  }

  lemma SweepBegins(s: State, t: nat, session: SessionId, now: real, scheduleActive: bool, cfg: Config)
    requires Alone(s, t, session) && now <= s.clock
    ensures Enabled(s, t, BeginSweep(session, now), cfg)
    ensures var s1 := Next(s, t, BeginSweep(session, now), cfg);
            && Enabled(s1, t, Lock, cfg)
            && var s2 := Next(s1, t, Lock, cfg);
            && Enabled(s2, t, Recheck(scheduleActive), cfg)
            && Next(s2, t, Recheck(scheduleActive), cfg)
               == Holder(s, t,
                         if !scheduleActive && session in s.rows && s.rows[session] + cfg.retention <= now
                         then Erasing(session, Some(now - cfg.retention), RemoveConversation, true)
                         else Done(session))
  {
    var cutoff := now - cfg.retention;
    assert Next(s, t, BeginSweep(session, now), cfg) == s.(threads := s.threads[t := Waits(session, Some(cutoff))]);
    EraserLocks(s, t, session, Some(cutoff), cfg);
    RecheckDecides(s, t, session, cutoff, scheduleActive, cfg);
  }

  lemma RecheckDecides(s: State, t: nat, session: SessionId, cutoff: real, scheduleActive: bool, cfg: Config)
    requires Alone(s, t, session)
    ensures var holds := Holder(s, t, Holds(session, Some(cutoff)));
            && Enabled(holds, t, Recheck(scheduleActive), cfg)
            && Next(holds, t, Recheck(scheduleActive), cfg)
               == Holder(s, t,
                         if !scheduleActive && session in s.rows && s.rows[session] <= cutoff
                         then Erasing(session, Some(cutoff), RemoveConversation, true)
                         else Done(session))
  {
  }

  /** An eraser that waited for the lock and got it. */
  lemma EraserLocks(s: State, t: nat, session: SessionId, cutoff: Option<real>, cfg: Config)
    requires Alone(s, t, session)
    ensures var waiting := s.(threads := s.threads[t := Waits(session, cutoff)]);
            && Enabled(waiting, t, Lock, cfg)
            && Next(waiting, t, Lock, cfg) == Holder(s, t, Holds(session, cutoff))
  {
  }

  /** ...and otherwise leaves everything as it is. */
  lemma SweepSpares(s: State, t: nat, session: SessionId, now: real, scheduleActive: bool, cfg: Config)
    requires Alone(s, t, session) && now <= s.clock
    requires scheduleActive || session !in s.rows || now < s.rows[session] + cfg.retention
    ensures Does(s, t, [BeginSweep(session, now), Lock, Recheck(scheduleActive), Unlock], cfg) == Some(s)
  {
    SweepBegins(s, t, session, now, scheduleActive, cfg);
    DoesThree(s, t, BeginSweep(session, now), Lock, Recheck(scheduleActive), Holder(s, t, Done(session)), [Unlock],
              cfg);
    UnlocksDone(s, t, session, cfg);
    assert [BeginSweep(session, now), Lock, Recheck(scheduleActive), Unlock]
        == [BeginSweep(session, now), Lock, Recheck(scheduleActive)] + [Unlock];
  }

  lemma UnlocksDone(s: State, t: nat, session: SessionId, cfg: Config)
    requires Alone(s, t, session)
    ensures Does(Holder(s, t, Done(session)), t, [Unlock], cfg) == Some(s)
  {
    HolderLeaves(s, t, Done(session));
    var after := Next(Holder(s, t, Done(session)), t, Unlock, cfg);
    assert after == s;
    assert Does(s, t, [], cfg) == Some(s);
    DoesFirst(Holder(s, t, Done(session)), t, Unlock, [], cfg);
  }

  lemma GivenUpLocked(s: State, t: nat, session: SessionId, cfg: Config)
    requires Alone(s, t, session)
    ensures Does(s, t, [Schedule(session), Lock, GiveUp, Unlock], cfg) == Some(s)
  {
    DoesThree(s, t, Schedule(session), Lock, GiveUp, Holder(s, t, Done(session)), [Unlock], cfg);
    UnlocksDone(s, t, session, cfg);
    assert [Schedule(session), Lock, GiveUp, Unlock] == [Schedule(session), Lock, GiveUp] + [Unlock];
  }

  lemma GivenUpWaiting(s: State, t: nat, a: Action, cfg: Config)
    requires Enabled(s, t, a, cfg) && t !in s.threads && (a.Admit? || a.Schedule?)
    ensures Does(s, t, [a, GiveUp], cfg) == Some(Next(s, t, a, cfg).(threads := s.threads))
  {
    var waiting := Next(s, t, a, cfg);
    var after := Next(waiting, t, GiveUp, cfg);
    assert after.threads == s.threads;
    assert Does(after, t, [], cfg) == Some(after);
    DoesFirst(waiting, t, GiveUp, [], cfg);
    DoesFirst(s, t, a, [GiveUp], cfg);
  }

  /** A turn that does not get to begin leaves its lock, and a chat turn its row. */
  lemma GivenUp(s: State, t: nat, session: SessionId, now: real, cfg: Config)
    requires Alone(s, t, session) && now <= s.clock
    ensures Does(s, t, [Admit(session, now), GiveUp], cfg) == Some(s.(rows := Touched(s.rows, session, now)))
    ensures Does(s, t, [Schedule(session), GiveUp], cfg) == Some(s)
    ensures Does(s, t, [Schedule(session), Lock, GiveUp, Unlock], cfg) == Some(s)
  {
    GivenUpWaiting(s, t, Admit(session, now), cfg);
    GivenUpWaiting(s, t, Schedule(session), cfg);
    GivenUpLocked(s, t, session, cfg);
  }
}
