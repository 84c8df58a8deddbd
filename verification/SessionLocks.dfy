/** Per-session operation locks: product_service.py, SessionOperationLocks.hold, as steps of many
    threads in many worker processes. */
module SessionLocks {

  /** A registry key: a worker process and an internal session. */
  datatype Key = Key(worker: nat, session: string)

  /** A reference-counted lock object. */
  datatype Entry = Entry(lock: nat, references: nat)

  type Registry = map<Key, Entry>

  /** Under the guard, on the way in: reuse the entry or make one around a new lock, and count in. */
  function Registered(entries: Registry, key: Key, newLock: nat): Registry {
    if key in entries then entries[key := Entry(entries[key].lock, entries[key].references + 1)]
    else entries[key := Entry(newLock, 1)]
  }

  /** Under the guard, on the way out: count out, and drop the entry with its last user. */
  function Unregistered(entries: Registry, key: Key): Registry
    requires key in entries && entries[key].references > 0
  {
    if entries[key].references == 1 then entries - {key}
    else entries[key := Entry(entries[key].lock, entries[key].references - 1)]
  }

  /** How many entries a registry holds. */
  function EntryCount(entries: Registry): nat {
    |entries|
  }

  /** The registry of one worker process. */
  function OfWorker(entries: Registry, worker: nat): Registry {
    map key | key in entries && key.worker == worker :: entries[key]
  }

  /** The guarded sections of one worker's lock registry. */
  class SessionOperationLocks {
    const worker: nat
    var entries: Registry
    var nextLock: nat

    constructor (worker: nat)
      ensures this.worker == worker && entries == map[]
    {
      this.worker := worker;
      entries := map[];
      nextLock := 0;
    }

    method Register(session: string) returns (lock: nat)
      modifies this
      ensures entries == Registered(old(entries), Key(worker, session), old(nextLock))
      ensures lock == entries[Key(worker, session)].lock && nextLock == old(nextLock) + 1
    {
      var key := Key(worker, session);
      var entry := if key in entries then entries[key] else Entry(nextLock, 0);
      nextLock := nextLock + 1;
      entries := entries[key := Entry(entry.lock, entry.references + 1)];
      lock := entry.lock;
    }

    method Unregister(session: string)
      requires Key(worker, session) in entries && entries[Key(worker, session)].references > 0
      modifies this`entries
      ensures entries == Unregistered(old(entries), Key(worker, session))
    {
      var key := Key(worker, session);
      var entry := entries[key];
      if entry.references == 1 {
        entries := entries - {key};
      } else {
        entries := entries[key := Entry(entry.lock, entry.references - 1)];
      }
    }

    method Size() returns (n: nat)
      ensures n == EntryCount(entries)
    {
      n := |entries|;
    }
  }

  /** Where a thread inside hold() stands. */
  datatype Phase =
    | Waiting    // registered, waiting for the lock object
    | TimedOut   // gave up on the lock object, about to count out
    | Locked     // owns the lock object, waiting for the lock file
    | Inside     // in the body
    | Unwinding  // out of the body or timed out on the file, still owns the lock object
    | Released   // gave the lock object back, about to count out

  datatype Thread = Thread(key: Key, lock: nat, phase: Phase)

  /** Threads not in hold() are absent; `owner` and `file` say who owns lock objects and lock files. */
  datatype State = State(entries: Registry, nextLock: nat, threads: map<nat, Thread>,
                         owner: map<nat, nat>, file: map<string, nat>)

  datatype Action =
    | Enter(key: Key)
    | TakeLock
    | GiveUp
    | TakeFile
    | FileTimeout
    | LeaveBody
    | ReleaseLock
    | CountOut

  predicate OwnsLock(th: Thread) {
    th.phase.Locked? || th.phase.Inside? || th.phase.Unwinding?
  }

  /** When thread t can take a step. With `shared` the workers share a directory of lock files. */
  predicate Enabled(s: State, t: nat, a: Action, shared: bool) {
    match a
    case Enter(_) => t !in s.threads
    case TakeLock => t in s.threads && s.threads[t].phase.Waiting? && s.threads[t].lock !in s.owner
    case GiveUp => t in s.threads && s.threads[t].phase.Waiting?
    case TakeFile =>
      && t in s.threads && s.threads[t].phase.Locked?
      && (shared ==> s.threads[t].key.session !in s.file)
    case FileTimeout => t in s.threads && s.threads[t].phase.Locked?
    case LeaveBody => t in s.threads && s.threads[t].phase.Inside?
    case ReleaseLock => t in s.threads && s.threads[t].phase.Unwinding?
    case CountOut =>
      && t in s.threads && (s.threads[t].phase.TimedOut? || s.threads[t].phase.Released?)
      && s.threads[t].key in s.entries && s.entries[s.threads[t].key].references > 0
  }

  function Moved(s: State, t: nat, phase: Phase): map<nat, Thread>
    requires t in s.threads
  {
    s.threads[t := s.threads[t].(phase := phase)]
  }

  function Next(s: State, t: nat, a: Action, shared: bool): State
    requires Enabled(s, t, a, shared)
  {
    match a
    case Enter(key) =>
      var entries := Registered(s.entries, key, s.nextLock);
      s.(entries := entries, nextLock := s.nextLock + 1,
         threads := s.threads[t := Thread(key, entries[key].lock, Waiting)])
    case TakeLock =>
      s.(threads := Moved(s, t, Locked), owner := s.owner[s.threads[t].lock := t])
    case GiveUp => s.(threads := Moved(s, t, TimedOut))
    case TakeFile =>
      s.(threads := Moved(s, t, Inside),
         file := if shared then s.file[s.threads[t].key.session := t] else s.file)
    case FileTimeout => s.(threads := Moved(s, t, Unwinding))
    case LeaveBody =>
      s.(threads := Moved(s, t, Unwinding),
         file := if shared then s.file - {s.threads[t].key.session} else s.file)
    case ReleaseLock => s.(threads := Moved(s, t, Released), owner := s.owner - {s.threads[t].lock})
    case CountOut =>
      s.(entries := Unregistered(s.entries, s.threads[t].key), threads := s.threads - {t})
  }

  /** The threads counted in on a key. */
  function Users(s: State, key: Key): set<nat> {
    set t | t in s.threads && s.threads[t].key == key
  }

  // What every interleaving keeps.

  ghost predicate EntryExact(s: State, key: Key)
    requires key in s.entries
  {
    && s.entries[key].references == |Users(s, key)|
    && s.entries[key].references > 0
    && s.entries[key].lock < s.nextLock
  }

  ghost predicate ThreadSound(s: State, t: nat, shared: bool)
    requires t in s.threads
  {
    var th := s.threads[t];
    && th.key in s.entries && s.entries[th.key].lock == th.lock
    && (OwnsLock(th) ==> th.lock in s.owner && s.owner[th.lock] == t)
    && (shared && th.phase.Inside? ==> th.key.session in s.file && s.file[th.key.session] == t)
  }

  ghost predicate OwnerSound(s: State, lock: nat)
    requires lock in s.owner
  {
    var t := s.owner[lock];
    t in s.threads && OwnsLock(s.threads[t]) && s.threads[t].lock == lock
  }

  ghost predicate FileSound(s: State, session: string)
    requires session in s.file
  {
    var t := s.file[session];
    t in s.threads && s.threads[t].phase.Inside? && s.threads[t].key.session == session
  }

  ghost predicate OwnLock(s: State, a: Key, b: Key)
    requires a in s.entries && b in s.entries
  {
    s.entries[a].lock == s.entries[b].lock ==> a == b
  }

  ghost predicate EntriesExact(s: State) {
    forall key :: key in s.entries ==> EntryExact(s, key)
  }

  ghost predicate ThreadsSound(s: State, shared: bool) {
    forall t :: t in s.threads ==> ThreadSound(s, t, shared)
  }

  ghost predicate OwnersSound(s: State) {
    forall lock :: lock in s.owner ==> OwnerSound(s, lock)
  }

  ghost predicate FilesSound(s: State, shared: bool) {
    && (!shared ==> s.file == map[])
    && forall session :: session in s.file ==> FileSound(s, session)
  }

  ghost predicate LocksDistinct(s: State) {
    forall a, b :: a in s.entries && b in s.entries ==> OwnLock(s, a, b)
  }

  ghost predicate Inv(s: State, shared: bool) {
    && EntriesExact(s) && ThreadsSound(s, shared) && OwnersSound(s)
    && FilesSound(s, shared) && LocksDistinct(s)
  }

  // Counting in.

  lemma UsersAfterEnter(s: State, t: nat, key: Key, s': State)
    requires t !in s.threads && t in s'.threads && s'.threads[t].key == key
    requires forall u :: u != t ==> (u in s'.threads <==> u in s.threads)
    requires forall u :: u in s.threads ==> s'.threads[u].key == s.threads[u].key
    ensures Users(s', key) == Users(s, key) + {t} && |Users(s', key)| == |Users(s, key)| + 1
    ensures forall other :: other != key ==> Users(s', other) == Users(s, other)
  {
    assert t !in Users(s, key);
    assert Users(s', key) == Users(s, key) + {t};
    forall other | other != key
      ensures Users(s', other) == Users(s, other)
    {
      assert forall u :: u in Users(s', other) <==> u in Users(s, other);
    }
  }

  lemma UnlistedHasNoUsers(s: State, key: Key, shared: bool)
    requires ThreadsSound(s, shared) && key !in s.entries
    ensures Users(s, key) == {}
  {
    forall u | u in s.threads
      ensures s.threads[u].key != key
    {
      assert ThreadSound(s, u, shared);
    }
  }

  lemma EnterKeepsEntries(s: State, t: nat, key: Key, shared: bool)
    requires EntriesExact(s) && ThreadsSound(s, shared) && Enabled(s, t, Enter(key), shared)
    ensures EntriesExact(Next(s, t, Enter(key), shared))
  {
    var s' := Next(s, t, Enter(key), shared);
    UsersAfterEnter(s, t, key, s');
    if key in s.entries {
      assert EntryExact(s, key);
    } else {
      UnlistedHasNoUsers(s, key, shared);
    }
    forall k | k in s'.entries
      ensures EntryExact(s', k)
    {
      if k != key {
        assert EntryExact(s, k);
      }
    }
  }

  lemma EnterKeepsThreads(s: State, t: nat, key: Key, shared: bool)
    requires ThreadsSound(s, shared) && Enabled(s, t, Enter(key), shared)
    ensures ThreadsSound(Next(s, t, Enter(key), shared), shared)
  {
    var s' := Next(s, t, Enter(key), shared);
    forall u | u in s'.threads
      ensures ThreadSound(s', u, shared)
    {
      if u != t {
        assert ThreadSound(s, u, shared);
      }
    }
  }

  lemma EnterKeepsOwners(s: State, t: nat, key: Key, shared: bool)
    requires OwnersSound(s) && FilesSound(s, shared) && Enabled(s, t, Enter(key), shared)
    ensures OwnersSound(Next(s, t, Enter(key), shared)) && FilesSound(Next(s, t, Enter(key), shared), shared)
  {
    var s' := Next(s, t, Enter(key), shared);
    forall lock | lock in s'.owner
      ensures OwnerSound(s', lock)
    {
      assert OwnerSound(s, lock);
    }
    forall session | session in s'.file
      ensures FileSound(s', session)
    {
      assert FileSound(s, session);
    }
  }

  lemma EnterKeepsLocks(s: State, t: nat, key: Key, shared: bool)
    requires EntriesExact(s) && LocksDistinct(s) && Enabled(s, t, Enter(key), shared)
    ensures LocksDistinct(Next(s, t, Enter(key), shared))
  {
    var s' := Next(s, t, Enter(key), shared);
    forall k | k in s.entries
      ensures s.entries[k].lock < s.nextLock
    {
      assert EntryExact(s, k);
    }
    forall a, b | a in s'.entries && b in s'.entries
      ensures OwnLock(s', a, b)
    {
      if a in s.entries && b in s.entries {
        assert OwnLock(s, a, b);
      }
    }
  }

  // Counting out.

  lemma UsersAfterCountOut(s: State, t: nat, s': State)
    requires t in s.threads && s'.threads == s.threads - {t}
    ensures var key := s.threads[t].key;
            && t !in Users(s', key) && Users(s', key) == Users(s, key) - {t}
            && |Users(s', key)| == |Users(s, key)| - 1
            && forall other :: other != key ==> Users(s', other) == Users(s, other)
  {
    var key := s.threads[t].key;
    assert t in Users(s, key);
    assert Users(s', key) == Users(s, key) - {t};
    forall other | other != key
      ensures Users(s', other) == Users(s, other)
    {
      assert forall u :: u in Users(s', other) <==> u in Users(s, other);
    }
  }

  lemma CountOutKeepsEntries(s: State, t: nat, shared: bool)
    requires EntriesExact(s) && Enabled(s, t, CountOut, shared)
    ensures EntriesExact(Next(s, t, CountOut, shared))
  {
    var s' := Next(s, t, CountOut, shared);
    UsersAfterCountOut(s, t, s');
    forall k | k in s'.entries
      ensures EntryExact(s', k)
    {
      assert EntryExact(s, k);
    }
  }

  lemma LastUserLeaves(s: State, t: nat, shared: bool)
    requires EntriesExact(s) && Enabled(s, t, CountOut, shared)
    requires s.threads[t].key !in Next(s, t, CountOut, shared).entries
    ensures Users(Next(s, t, CountOut, shared), s.threads[t].key) == {}
  {
    assert EntryExact(s, s.threads[t].key);
    UsersAfterCountOut(s, t, Next(s, t, CountOut, shared));
  }

  lemma CountOutKeepsThreads(s: State, t: nat, shared: bool)
    requires EntriesExact(s) && ThreadsSound(s, shared) && Enabled(s, t, CountOut, shared)
    ensures ThreadsSound(Next(s, t, CountOut, shared), shared)
  {
    var s' := Next(s, t, CountOut, shared);
    var key := s.threads[t].key;
    if key !in s'.entries {
      LastUserLeaves(s, t, shared);
    }
    forall u | u in s'.threads
      ensures ThreadSound(s', u, shared)
    {
      assert ThreadSound(s, u, shared);
      assert s.threads[u].key == key ==> u in Users(s', key);
    }
  }

  lemma CountOutKeepsRest(s: State, t: nat, shared: bool)
    requires OwnersSound(s) && FilesSound(s, shared) && LocksDistinct(s) && Enabled(s, t, CountOut, shared)
    ensures var s' := Next(s, t, CountOut, shared);
            OwnersSound(s') && FilesSound(s', shared) && LocksDistinct(s')
  {
    var s' := Next(s, t, CountOut, shared);
    forall lock | lock in s'.owner
      ensures OwnerSound(s', lock)
    {
      assert OwnerSound(s, lock);
    }
    forall session | session in s'.file
      ensures FileSound(s', session)
    {
      assert FileSound(s, session);
    }
    forall a, b | a in s'.entries && b in s'.entries
      ensures OwnLock(s', a, b)
    {
      assert OwnLock(s, a, b);
    }
  }

  // The steps that leave the registry alone: nobody is counted in or out.

  lemma MoveKeepsEntries(s: State, t: nat, phase: Phase, s': State)
    requires t in s.threads && s'.threads == Moved(s, t, phase) && s'.entries == s.entries
    requires s'.nextLock == s.nextLock && EntriesExact(s) && LocksDistinct(s)
    ensures EntriesExact(s') && LocksDistinct(s')
  {
    forall key | key in s'.entries
      ensures EntryExact(s', key)
    {
      assert EntryExact(s, key);
      assert Users(s', key) == Users(s, key);
    }
    forall x, y | x in s'.entries && y in s'.entries
      ensures OwnLock(s', x, y)
    {
      assert OwnLock(s, x, y);
    }
  }

  lemma MoveKeepsThreads(s: State, t: nat, a: Action, shared: bool)
    requires ThreadsSound(s, shared) && Enabled(s, t, a, shared) && !a.Enter? && !a.CountOut?
    ensures ThreadsSound(Next(s, t, a, shared), shared)
  {
    var s' := Next(s, t, a, shared);
    assert ThreadSound(s, t, shared);
    forall u | u in s'.threads
      ensures ThreadSound(s', u, shared)
    {
      assert ThreadSound(s, u, shared);
    }
  }

  lemma MoveKeepsOwners(s: State, t: nat, a: Action, shared: bool)
    requires OwnersSound(s) && Enabled(s, t, a, shared) && !a.Enter? && !a.CountOut?
    ensures OwnersSound(Next(s, t, a, shared))
  {
    var s' := Next(s, t, a, shared);
    forall lock | lock in s'.owner
      ensures OwnerSound(s', lock)
    {
      if lock in s.owner {
        assert OwnerSound(s, lock);
      }
    }
  }

  lemma MoveKeepsFiles(s: State, t: nat, a: Action, shared: bool)
    requires FilesSound(s, shared) && Enabled(s, t, a, shared) && !a.Enter? && !a.CountOut?
    ensures FilesSound(Next(s, t, a, shared), shared)
  {
    var s' := Next(s, t, a, shared);
    forall session | session in s'.file
      ensures FileSound(s', session)
    {
      if session in s.file {
        assert FileSound(s, session);
      }
    }
  }

  lemma NextKeepsInv(s: State, t: nat, a: Action, shared: bool)
    requires Inv(s, shared) && Enabled(s, t, a, shared)
    ensures Inv(Next(s, t, a, shared), shared)
  {
    if a.Enter? {
      EnterKeepsEntries(s, t, a.key, shared);
      EnterKeepsThreads(s, t, a.key, shared);
      EnterKeepsOwners(s, t, a.key, shared);
      EnterKeepsLocks(s, t, a.key, shared);
    } else if a.CountOut? {
      CountOutKeepsEntries(s, t, shared);
      CountOutKeepsThreads(s, t, shared);
      CountOutKeepsRest(s, t, shared);
    } else {
      var s' := Next(s, t, a, shared);
      MoveKeepsEntries(s, t, s'.threads[t].phase, s');
      MoveKeepsThreads(s, t, a, shared);
      MoveKeepsOwners(s, t, a, shared);
      MoveKeepsFiles(s, t, a, shared);
    }
  }

  // Every interleaving.

  datatype Move = Move(thread: nat, action: Action)

  ghost predicate CanRun(s: State, moves: seq<Move>, shared: bool)
    decreases |moves|
  {
    moves == []
    || (Enabled(s, moves[0].thread, moves[0].action, shared)
        && CanRun(Next(s, moves[0].thread, moves[0].action, shared), moves[1..], shared))
  }

  ghost function Run(s: State, moves: seq<Move>, shared: bool): State
    requires CanRun(s, moves, shared)
    decreases |moves|
  {
    if moves == [] then s
    else Run(Next(s, moves[0].thread, moves[0].action, shared), moves[1..], shared)
  }

  const START: State := State(map[], 0, map[], map[], map[])

  lemma {:induction false} RunKeepsInv(s: State, moves: seq<Move>, shared: bool)
    requires Inv(s, shared) && CanRun(s, moves, shared)
    ensures Inv(Run(s, moves, shared), shared)
    decreases |moves|
  {
    if moves != [] {
      var t, a := moves[0].thread, moves[0].action;
      NextKeepsInv(s, t, a, shared);
      RunKeepsInv(Next(s, t, a, shared), moves[1..], shared);
    }
  }

  /** In every interleaving of threads entering, timing out at either lock, and leaving: no two
      threads of one worker are in the body of one session, and with shared lock files no two threads
      of any workers are. */
  lemma MutualExclusion(moves: seq<Move>, shared: bool, t: nat, u: nat)
    requires CanRun(START, moves, shared)
    requires var s := Run(START, moves, shared);
             && t in s.threads && s.threads[t].phase.Inside?
             && u in s.threads && s.threads[u].phase.Inside?
             && s.threads[t].key.session == s.threads[u].key.session
             && (shared || s.threads[t].key.worker == s.threads[u].key.worker)
    ensures t == u
  {
    RunKeepsInv(START, moves, shared);
    var s := Run(START, moves, shared);
    assert ThreadSound(s, t, shared) && ThreadSound(s, u, shared);
  }

  /** In every interleaving the registry is exact: a key has an entry just when some thread is counted
      in on it, the entry's count is the number of those threads, and they all hold the entry's one
      lock object. Nobody registered means an empty registry. */
  lemma ExactReclamation(moves: seq<Move>, shared: bool)
    requires CanRun(START, moves, shared)
    ensures var s := Run(START, moves, shared);
            && (forall key :: key in s.entries <==> Users(s, key) != {})
            && (forall key :: key in s.entries ==> s.entries[key].references == |Users(s, key)|)
            && (forall t :: t in s.threads ==>
                  s.threads[t].key in s.entries && s.threads[t].lock == s.entries[s.threads[t].key].lock)
            && (s.threads == map[] ==> s.entries == map[])
  {
    RunKeepsInv(START, moves, shared);
    var s := Run(START, moves, shared);
    forall key
      ensures key in s.entries <==> Users(s, key) != {}
      ensures key in s.entries ==> s.entries[key].references == |Users(s, key)|
    {
      if key in s.entries {
        assert EntryExact(s, key);
      }
      if t :| t in Users(s, key) {
        assert ThreadSound(s, t, shared);
      }
    }
    forall t | t in s.threads
      ensures s.threads[t].key in s.entries && s.threads[t].lock == s.entries[s.threads[t].key].lock
    {
      assert ThreadSound(s, t, shared);
    }
  }

  /** What Size returns in each worker: in every interleaving, how many of the worker's sessions some
      thread is registered on. */
  lemma SizeCountsBusyKeys(moves: seq<Move>, shared: bool, worker: nat)
    requires CanRun(START, moves, shared)
    ensures var s := Run(START, moves, shared);
            EntryCount(OfWorker(s.entries, worker))
            == |set t | t in s.threads && s.threads[t].key.worker == worker :: s.threads[t].key|
  {
    ExactReclamation(moves, shared);
    var s := Run(START, moves, shared);
    var busy := set t | t in s.threads && s.threads[t].key.worker == worker :: s.threads[t].key;
    var own := OfWorker(s.entries, worker);
    forall key
      ensures key in own.Keys <==> key in busy
    {
      if key in own {
        var t :| t in Users(s, key);
        assert key == s.threads[t].key;
      }
    }
    assert own.Keys == busy;
    assert |own| == |own.Keys|;
  }

  /** Leaving can never fail: a thread about to count out finds its entry with a positive count. */
  lemma CountOutNeverFails(moves: seq<Move>, shared: bool, t: nat)
    requires CanRun(START, moves, shared)
    requires var s := Run(START, moves, shared);
             t in s.threads && (s.threads[t].phase.TimedOut? || s.threads[t].phase.Released?)
    ensures Enabled(Run(START, moves, shared), t, CountOut, shared)
  {
    RunKeepsInv(START, moves, shared);
    var s := Run(START, moves, shared);
    assert ThreadSound(s, t, shared);
    assert EntryExact(s, s.threads[t].key);
  }

  /** A lock nobody owns is never stuck: while some thread waits for it, that thread can take it. */
  lemma FreeLockCanBeTaken(moves: seq<Move>, shared: bool, t: nat)
    requires CanRun(START, moves, shared)
    requires var s := Run(START, moves, shared);
             && t in s.threads && s.threads[t].phase.Waiting?
             && forall u :: u in Users(s, s.threads[t].key) ==> !OwnsLock(s.threads[u])
    ensures Enabled(Run(START, moves, shared), t, TakeLock, shared)
  {
    RunKeepsInv(START, moves, shared);
    var s := Run(START, moves, shared);
    if !Enabled(s, t, TakeLock, shared) {
      OwnerIsAUser(s, t, shared);
    }
  }

  lemma OwnerIsAUser(s: State, t: nat, shared: bool)
    requires Inv(s, shared) && t in s.threads && s.threads[t].lock in s.owner
    ensures var u := s.owner[s.threads[t].lock];
            u in Users(s, s.threads[t].key) && OwnsLock(s.threads[u])
  {
    var lock := s.threads[t].lock;
    var u := s.owner[lock];
    assert OwnerSound(s, lock);
    assert ThreadSound(s, t, shared) && ThreadSound(s, u, shared);
    assert OwnLock(s, s.threads[t].key, s.threads[u].key);
  }
}
