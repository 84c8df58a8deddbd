/** Recurring turns claimed by many workers: product_service.py, ProductScheduleStore and the claim
    protocol of ProductScheduler.tick. Each store method is one transaction under the file lock. */
module Schedules {
  import opened Wrappers

  // The store.

  datatype Key = Key(tenant: nat, name: string)

  /** What a schedule asks for; `messageBytes` is the size of the message as UTF-8. */
  datatype Plan = Plan(principal: string, session: string, message: string, messageBytes: nat, everyMs: int)

  datatype Lease = Lease(owner: nat, until: real)

  datatype Entry = Entry(tenant: nat, plan: Plan, lastRun: Option<real>, lastStatus: Option<string>,
                         created: real, updated: real, lease: Option<Lease>)

  type Table = map<Key, Entry>

  datatype PutOutcome =
    | Stored
    | InvalidName
    | InvalidSession
    | InvalidMessage
    | MessageTooLarge
    | InvalidInterval
    | QuotaExceeded

  const MAX_MESSAGE_BYTES: nat := 256 * 1024

  predicate Alphanumeric(c: char) {
    'A' <= c <= 'Z' || 'a' <= c <= 'z' || '0' <= c <= '9'
  }

  /** The session-name character set: 1 to 128 of letters, digits, dot, underscore and hyphen, the first
      a letter or a digit. */
  predicate ValidName(s: string) {
    && 1 <= |s| <= 128 && Alphanumeric(s[0])
    && forall i :: 0 <= i < |s| ==> Alphanumeric(s[i]) || s[i] == '.' || s[i] == '_' || s[i] == '-'
  }

  /** What is wrong with a request before the table is looked at, the first complaint winning. */
  function Complaint(name: string, plan: Plan): Option<PutOutcome> {
    if !ValidName(name) then Some(InvalidName)
    else if !ValidName(plan.session) then Some(InvalidSession)
    else if plan.message == "" then Some(InvalidMessage)
    else if plan.messageBytes > MAX_MESSAGE_BYTES then Some(MessageTooLarge)
    else if plan.everyMs <= 0 then Some(InvalidInterval)
    else None
  }

  function LeaseUntil(e: Entry): real {
    if e.lease.Some? then e.lease.value.until else 0.0
  }

  predicate Due(e: Entry, now: real) {
    e.lastRun.None? || (now - e.lastRun.value) * 1000.0 >= e.plan.everyMs as real
  }

  predicate Claimable(data: Table, key: Key, now: real) {
    key in data && Due(data[key], now) && LeaseUntil(data[key]) <= now
  }

  function Max(x: real, y: real): real {
    if x < y then y else x
  }

  function Activity(e: Entry): real {
    Max(Max(e.created, e.updated), if e.lastRun.Some? then e.lastRun.value else 0.0)
  }

  /** A schedule that keeps itself, and its session, from being swept. */
  predicate Fresh(e: Entry, cutoff: real, now: real) {
    Activity(e) > cutoff || LeaseUntil(e) > now
  }

  function Swept(data: Table, cutoff: real, now: real): Table {
    map key | key in data && Fresh(data[key], cutoff, now) :: data[key]
  }

  predicate OfSession(e: Entry, tenant: nat, session: string) {
    e.tenant == tenant && e.plan.session == session
  }

  function WithoutSession(data: Table, tenant: nat, session: string): Table {
    map key | key in data && !OfSession(data[key], tenant, session) :: data[key]
  }

  /** What a put writes: the run history of the entry it replaces survives, its lease does not. */
  function Rebuilt(data: Table, key: Key, plan: Plan, now: real): Entry {
    if key in data then
      Entry(key.tenant, plan, data[key].lastRun, data[key].lastStatus, data[key].created, now, None)
    else
      Entry(key.tenant, plan, None, None, now, now, None)
  }

  function OwnedBy(data: Table, tenant: nat): set<Key> {
    set key | key in data && data[key].tenant == tenant
  }

  function PutOutcomeOf(data: Table, key: Key, plan: Plan, maxPerTenant: nat): PutOutcome {
    if Complaint(key.name, plan).Some? then Complaint(key.name, plan).value
    else if key !in data && |OwnedBy(data, key.tenant)| >= maxPerTenant then QuotaExceeded
    else Stored
  }

  function AfterPut(data: Table, key: Key, plan: Plan, now: real, maxPerTenant: nat): Table {
    if PutOutcomeOf(data, key, plan, maxPerTenant) == Stored then
      data[key := Rebuilt(data, key, plan, now)]
    else data
  }

  function Claimed(e: Entry, now: real, owner: nat, leaseFor: real): Entry {
    e.(lease := Some(Lease(owner, now + leaseFor)))
  }

  function AfterClaim(data: Table, key: Key, now: real, owner: nat, leaseFor: real): Table {
    if Claimable(data, key, now) then data[key := Claimed(data[key], now, owner, leaseFor)] else data
  }

  predicate Owns(data: Table, key: Key, owner: nat) {
    key in data && data[key].lease.Some? && data[key].lease.value.owner == owner
  }

  function AfterComplete(data: Table, key: Key, owner: nat, when: real, status: string): Table {
    if Owns(data, key, owner) then
      data[key := data[key].(lastRun := Some(when), lastStatus := Some(status), updated := when,
                             lease := None)]
    else data
  }

  class ProductScheduleStore {
    const maxPerTenant: nat
    var data: Table

    constructor (maxPerTenant: nat)
      requires maxPerTenant > 0
      ensures this.maxPerTenant == maxPerTenant && data == map[]
    {
      this.maxPerTenant := maxPerTenant;
      data := map[];
    }

    method TenantCount(tenant: nat) returns (count: nat)
      ensures count == |OwnedBy(data, tenant)|
    {
      count := 0;
      var left := data.Keys;
      ghost var counted: set<Key> := {};
      while left != {}
        invariant left <= data.Keys
        invariant counted == (set key | key in data && key !in left && data[key].tenant == tenant)
        invariant count == |counted|
        decreases |left|
      {
        var key :| key in left;
        left := left - {key};
        if data[key].tenant == tenant {
          count := count + 1;
          counted := counted + {key};
        }
      }
      assert counted == OwnedBy(data, tenant);
    }

    method Put(key: Key, plan: Plan, now: real) returns (outcome: PutOutcome)
      modifies `data
      ensures outcome == PutOutcomeOf(old(data), key, plan, maxPerTenant)
      ensures data == AfterPut(old(data), key, plan, now, maxPerTenant)
    {
      var complaint := Complaint(key.name, plan);
      if complaint.Some? {
        return complaint.value;
      }
      var count := TenantCount(key.tenant);
      if key !in data && count >= maxPerTenant {
        return QuotaExceeded;
      }
      data := data[key := Rebuilt(data, key, plan, now)];
      return Stored;
    }

    method ClaimDue(key: Key, now: real, owner: nat, leaseFor: real) returns (entry: Option<Entry>)
      modifies `data
      ensures entry.Some? <==> Claimable(old(data), key, now)
      ensures data == AfterClaim(old(data), key, now, owner, leaseFor)
      ensures entry.Some? ==> entry.value == data[key]
    {
      if key !in data || !Due(data[key], now) {
        return None;
      }
      if LeaseUntil(data[key]) > now {
        return None;
      }
      data := data[key := Claimed(data[key], now, owner, leaseFor)];
      return Some(data[key]);
    }

    method CompleteClaim(key: Key, owner: nat, when: real, status: string) returns (done: bool)
      modifies `data
      ensures done == Owns(old(data), key, owner)
      ensures data == AfterComplete(old(data), key, owner, when, status)
    {
      if key !in data || data[key].lease.None? || data[key].lease.value.owner != owner {
        return false;
      }
      data := data[key := data[key].(lastRun := Some(when), lastStatus := Some(status), updated := when,
                                     lease := None)];
      return true;
    }

    method InternalActive(tenant: nat, session: string, cutoff: real, now: real) returns (active: bool)
      ensures active <==> exists key :: key in data && OfSession(data[key], tenant, session)
                                        && Fresh(data[key], cutoff, now)
    {
      var left := data.Keys;
      while left != {}
        invariant left <= data.Keys
        invariant forall key :: key in data && key !in left && OfSession(data[key], tenant, session)
                                ==> !Fresh(data[key], cutoff, now)
        decreases |left|
      {
        var key :| key in left;
        left := left - {key};
        if OfSession(data[key], tenant, session) && Fresh(data[key], cutoff, now) {
          return true;
        }
      }
      return false;
    }

    method RemoveInternal(tenant: nat, session: string) returns (removed: nat)
      modifies `data
      ensures data == WithoutSession(old(data), tenant, session)
      ensures removed == |old(data).Keys - data.Keys|
    {
      var doomed: set<Key> := {};
      var left := data.Keys;
      while left != {}
        invariant left <= data.Keys
        invariant doomed <= data.Keys - left
        invariant forall key :: key in data && key !in left ==>
                                (key in doomed <==> OfSession(data[key], tenant, session))
        decreases |left|
      {
        var key :| key in left;
        left := left - {key};
        if OfSession(data[key], tenant, session) {
          doomed := doomed + {key};
        }
      }
      data := data - doomed;
      removed := |doomed|;
      assert data == WithoutSession(old(data), tenant, session);
      assert old(data).Keys - data.Keys == doomed;
    }

    method RemoveInactive(cutoff: real, now: real) returns (removed: nat)
      modifies `data
      ensures data == Swept(old(data), cutoff, now)
      ensures removed == |old(data).Keys - data.Keys|
    {
      var doomed: set<Key> := {};
      var left := data.Keys;
      while left != {}
        invariant left <= data.Keys
        invariant doomed <= data.Keys - left
        invariant forall key :: key in data && key !in left ==>
                                (key in doomed <==> !Fresh(data[key], cutoff, now))
        decreases |left|
      {
        var key :| key in left;
        left := left - {key};
        if !Fresh(data[key], cutoff, now) {
          doomed := doomed + {key};
        }
      }
      data := data - doomed;
      removed := |doomed|;
      assert data == Swept(old(data), cutoff, now);
      assert old(data).Keys - data.Keys == doomed;
    }
  }

  /** A sweep leaves a session some schedule exactly when internal_active would have kept the
      session. */
  lemma SweepAgreesWithActivity(data: Table, tenant: nat, session: string, cutoff: real, now: real)
    ensures
      var swept := Swept(data, cutoff, now);
      (exists key :: key in swept && OfSession(swept[key], tenant, session)) <==>
      (exists key :: key in data && OfSession(data[key], tenant, session) && Fresh(data[key], cutoff, now))
  {
    var swept := Swept(data, cutoff, now);
    if key :| key in data && OfSession(data[key], tenant, session) && Fresh(data[key], cutoff, now) {
      assert key in swept && OfSession(swept[key], tenant, session);
    }
  }

  // Many workers.

  datatype Slot = Slot(owner: nat, key: Key)

  /** A scheduled turn under way: when it was claimed and until when its lease lasts. */
  datatype Turn = Turn(firedAt: real, until: real)

  datatype State = State(clock: real, data: Table, turns: map<Slot, Turn>, fired: map<Key, seq<real>>)

  datatype Op =
    | TimePasses(later: real)
    | Put(key: Key, plan: Plan)
    | Remove(keys: set<Key>)
    | Claim(slot: Slot, now: real)
    | Complete(slot: Slot, when: real, status: string)
    | Crash(slot: Slot)

  datatype Config = Config(maxPerTenant: nat, leaseFor: real)

  const START: State := State(0.0, map[], map[], map[])

  /** A worker's `now` was read when its tick began, a completion's `when` after its turn; within one
      process no key is claimed twice. */
  predicate Enabled(s: State, op: Op) {
    match op
    case TimePasses(later) => s.clock <= later
    case Put(_, _) => true
    case Remove(_) => true
    case Claim(slot, now) => slot !in s.turns && now <= s.clock
    case Complete(slot, when, _) => slot in s.turns && s.turns[slot].firedAt <= when <= s.clock
    case Crash(slot) => slot in s.turns
  }

  function FiredAt(s: State, key: Key): seq<real> {
    if key in s.fired then s.fired[key] else []
  }

  function Next(s: State, op: Op, cfg: Config): State
    requires Enabled(s, op)
  {
    match op
    case TimePasses(later) => s.(clock := later)
    case Put(key, plan) => s.(data := AfterPut(s.data, key, plan, s.clock, cfg.maxPerTenant))
    case Remove(keys) => s.(data := s.data - keys)
    case Claim(slot, now) =>
      if Claimable(s.data, slot.key, now) then
        s.(data := AfterClaim(s.data, slot.key, now, slot.owner, cfg.leaseFor),
           turns := s.turns[slot := Turn(s.clock, now + cfg.leaseFor)],
           fired := s.fired[slot.key := FiredAt(s, slot.key) + [s.clock]])
      else s
    case Complete(slot, when, status) =>
      s.(data := AfterComplete(s.data, slot.key, slot.owner, when, status), turns := s.turns - {slot})
    case Crash(slot) => s.(turns := s.turns - {slot})
  }

  /** What exclusivity needs of the surroundings: turns are over before their lease is, and a
      schedule is not put again while it runs. */
  ghost predicate Orderly(s: State, op: Op) {
    match op
    case Put(key, _) => forall slot :: slot in s.turns ==> slot.key != key
    case Claim(at, _) => forall slot :: slot in s.turns && slot.key == at.key ==> s.clock < s.turns[slot].until
    case _ => true
  }

  // At most one turn of a schedule.

  /** The turn's lease is still written in the table, unless the schedule was removed. */
  predicate HoldsLease(s: State, slot: Slot)
    requires slot in s.turns
  {
    slot.key in s.data ==> s.data[slot.key].lease == Some(Lease(slot.owner, s.turns[slot].until))
  }

  predicate Alone(s: State, slot: Slot) {
    forall other :: other in s.turns && other.key == slot.key ==> other == slot
  }

  predicate SlotSound(s: State, slot: Slot)
    requires slot in s.turns
  {
    HoldsLease(s, slot) && Alone(s, slot)
  }

  predicate Exclusive(s: State) {
    forall slot :: slot in s.turns ==> SlotSound(s, slot)
  }

  lemma ClaimFindsNoTurn(s: State, at: Slot, now: real)
    requires Exclusive(s) && Enabled(s, Claim(at, now)) && Orderly(s, Claim(at, now))
    requires Claimable(s.data, at.key, now)
    ensures forall slot :: slot in s.turns ==> slot.key != at.key
  {
    forall slot | slot in s.turns
      ensures slot.key != at.key
    {
      assert SlotSound(s, slot);
    }
  }

  lemma NextKeepsExclusive(s: State, op: Op, cfg: Config)
    requires Exclusive(s) && Enabled(s, op) && Orderly(s, op)
    ensures Exclusive(Next(s, op, cfg))
  {
    var s' := Next(s, op, cfg);
    if op.Claim? && Claimable(s.data, op.slot.key, op.now) {
      ClaimFindsNoTurn(s, op.slot, op.now);
    }
    if op.Complete? {
      assert SlotSound(s, op.slot);
    }
    forall slot | slot in s'.turns
      ensures SlotSound(s', slot)
    {
      if slot in s.turns {
        assert SlotSound(s, slot);
      }
    }
  }

  /** While a turn runs, another worker's claim of the same schedule starts a second one exactly when
      the schedule is due again and the first turn has outlived its lease at the claimant's `now`. */
  lemma OverlapStartsIff(s: State, running: Slot, at: Slot, now: real, cfg: Config)
    requires Exclusive(s) && running in s.turns && running.key == at.key && running.key in s.data
    requires Enabled(s, Claim(at, now))
    ensures at in Next(s, Claim(at, now), cfg).turns <==>
            Due(s.data[at.key], now) && s.turns[running].until <= now
    ensures at in Next(s, Claim(at, now), cfg).turns ==> !Exclusive(Next(s, Claim(at, now), cfg))
  {
    var s' := Next(s, Claim(at, now), cfg);
    assert SlotSound(s, running);
    if at in s'.turns {
      assert running in s'.turns && running != at;
      assert !SlotSound(s', at);
    }
  }

  /** A put during a turn erases the turn's lease: from then on any other worker's claim overlaps it
      whenever the new period makes the schedule due. */
  lemma PutDuringTurnAllowsOverlap(s: State, running: Slot, plan: Plan, at: Slot, now: real, cfg: Config)
    requires Exclusive(s) && running in s.turns && running.key == at.key && running.key in s.data
    requires at !in s.turns && Complaint(at.key.name, plan) == None && 0.0 <= now <= s.clock
    ensures var put := Next(s, Put(at.key, plan), cfg);
            && running in put.turns
            && (at in Next(put, Claim(at, now), cfg).turns <==>
                Due(s.data[at.key].(plan := plan), now))
  {
  }

  // How often a schedule fires.

  function CountIn(times: seq<real>, a: real, b: real): nat {
    if times == [] then 0
    else CountIn(times[..|times| - 1], a, b) + (if a <= times[|times| - 1] <= b then 1 else 0)
  }

  /** What lets a schedule fire early: its turn is killed, it is removed, or it fires while it is put
      with a shorter period. */
  predicate Excused(s: State, op: Op, key: Key, everyMs: int) {
    match op
    case Remove(keys) => key in keys
    case Crash(slot) => slot.key == key
    case Claim(slot, now) => slot.key == key && Claimable(s.data, key, now) && s.data[key].plan.everyMs < everyMs
    case _ => false
  }

  /** Times in order, none after the clock. */
  predicate Chronicle(times: seq<real>, clock: real) {
    && (forall i, j :: 0 <= i <= j < |times| ==> times[i] <= times[j])
    && (times != [] ==> times[|times| - 1] <= clock)
  }

  lemma ChronicleExtends(times: seq<real>, clock: real)
    requires Chronicle(times, clock)
    ensures Chronicle(times + [clock], clock)
  {
    var all := times + [clock];
    forall i, j | 0 <= i <= j < |all|
      ensures all[i] <= all[j]
    {
      if i < |times| {
        assert times[i] <= times[|times| - 1];
      }
    }
  }

  /** So many whole periods, none for a count that is not positive. */
  function Periods(k: int, everyMs: int): int {
    if k <= 0 then 0 else everyMs + Periods(k - 1, everyMs)
  }

  /** The newest firing in [a, b], or a without one. */
  function LastIn(times: seq<real>, a: real, b: real): real {
    if times == [] then a
    else if a <= times[|times| - 1] <= b then times[|times| - 1]
    else LastIn(times[..|times| - 1], a, b)
  }

  /** The firings in [a, b] so far, but for `debt` of them, take up whole periods from a on. */
  predicate PaidUp(times: seq<real>, a: real, b: real, debt: int, everyMs: int) {
    CountIn(times, a, b) > 0 ==>
      (LastIn(times, a, b) - a) * 1000.0 >= Periods(CountIn(times, a, b) - 1 - debt, everyMs) as real
  }

  lemma {:induction false} FewerPeriods(j: int, k: int, everyMs: int)
    requires j <= k && everyMs >= 0
    ensures 0 <= Periods(j, everyMs) <= Periods(k, everyMs)
    decreases if k < 0 then 0 else k
  {
    if k > 0 {
      FewerPeriods(if j < k then j else j - 1, k - 1, everyMs);
    }
  }

  lemma {:induction false} PeriodsMultiply(k: int, everyMs: int)
    requires everyMs >= 0
    ensures k * everyMs <= Periods(k, everyMs)
    decreases if k < 0 then 0 else k
  {
    if k > 0 {
      PeriodsMultiply(k - 1, everyMs);
      assert (k - 1) * everyMs == k * everyMs - everyMs;
    } else {
      assert k * everyMs <= 0;
    }
  }

  lemma MoreDebt(times: seq<real>, a: real, b: real, debt: int, debt': int, everyMs: int)
    requires PaidUp(times, a, b, debt, everyMs) && debt <= debt' && everyMs >= 0
    ensures PaidUp(times, a, b, debt', everyMs)
  {
    var c := CountIn(times, a, b);
    FewerPeriods(c - 1 - debt', c - 1 - debt, everyMs);
  }

  lemma FiringAppends(times: seq<real>, now: real, a: real, b: real)
    ensures CountIn(times + [now], a, b) == CountIn(times, a, b) + (if a <= now <= b then 1 else 0)
    ensures LastIn(times + [now], a, b) == if a <= now <= b then now else LastIn(times, a, b)
  {
    assert (times + [now])[..|times|] == times;
  }

  lemma {:induction false} LastInBounds(times: seq<real>, a: real, b: real)
    requires forall i, j :: 0 <= i <= j < |times| ==> times[i] <= times[j]
    ensures CountIn(times, a, b) > 0 ==>
              times != [] && a <= LastIn(times, a, b) <= b && LastIn(times, a, b) <= times[|times| - 1]
    decreases |times|
  {
    if times != [] {
      LastInBounds(times[..|times| - 1], a, b);
    }
  }

  /** A firing inside [a, b] is paid by a period since the last one, or by one more of debt. */
  lemma FiresInside(times: seq<real>, now: real, a: real, b: real, debt: int, debt': int, everyMs: int)
    requires PaidUp(times, a, b, debt, everyMs) && Chronicle(times, now) && a <= now <= b
    requires everyMs >= 0 && 0 <= debt <= debt'
    requires debt < debt' || (times != [] ==> (now - times[|times| - 1]) * 1000.0 >= everyMs as real)
    ensures PaidUp(times + [now], a, b, debt', everyMs)
  {
    FiringAppends(times, now, a, b);
    LastInBounds(times, a, b);
    var c := CountIn(times, a, b);
    FewerPeriods(c - 1 - debt, c - 1 - debt, everyMs);
    if debt < debt' {
      FewerPeriods(c - debt', c - 1 - debt, everyMs);
    }
  }

  predicate RunOver(s: State, key: Key, times: seq<real>)
    requires times != []
  {
    key in s.data && s.data[key].lastRun.Some? && s.data[key].lastRun.value >= times[|times| - 1]
  }

  predicate Running(s: State, key: Key) {
    exists slot :: slot in s.turns && slot.key == key
  }

  predicate IsLast(s: State, slot: Slot, times: seq<real>)
    requires slot in s.turns
  {
    times != [] && s.turns[slot].firedAt >= times[|times| - 1]
  }

  /** The table remembers the last firing: its turn runs, or is recorded. */
  predicate Remembers(s: State, key: Key) {
    var times := FiredAt(s, key);
    times != [] ==> key in s.data && (RunOver(s, key, times) || Running(s, key))
  }

  predicate Traced(s: State, key: Key) {
    var times := FiredAt(s, key);
    Chronicle(times, s.clock) && forall slot :: slot in s.turns && slot.key == key ==> IsLast(s, slot, times)
  }

  /** Either the last firing is remembered, or one excuse has not been used since. */
  predicate Paced(s: State, key: Key, a: real, b: real, debt: nat, everyMs: int) {
    var times := FiredAt(s, key);
    && Traced(s, key)
    && (|| (Remembers(s, key) && PaidUp(times, a, b, debt, everyMs))
        || (debt > 0 && PaidUp(times, a, b, debt - 1, everyMs)))
  }

  lemma NextKeepsTrace(s: State, op: Op, key: Key, cfg: Config)
    requires Exclusive(s) && Traced(s, key) && Enabled(s, op) && Orderly(s, op)
    ensures Traced(Next(s, op, cfg), key)
  {
    var s' := Next(s, op, cfg);
    var times := FiredAt(s, key);
    if op.Claim? && op.slot.key == key && Claimable(s.data, key, op.now) {
      ClaimFindsNoTurn(s, op.slot, op.now);
      ChronicleExtends(times, s.clock);
    } else {
      forall slot | slot in s'.turns && slot.key == key
        ensures IsLast(s', slot, times)
      {
        assert IsLast(s, slot, times);
      }
    }
  }

  lemma CompleteRemembers(s: State, op: Op, key: Key, cfg: Config)
    requires Exclusive(s) && Traced(s, key) && Remembers(s, key) && Enabled(s, op) && op.Complete?
    ensures Remembers(Next(s, op, cfg), key)
  {
    var s' := Next(s, op, cfg);
    var times := FiredAt(s, key);
    assert SlotSound(s, op.slot);
    if op.slot.key == key {
      assert IsLast(s, op.slot, times);
    } else if Running(s, key) {
      var slot :| slot in s.turns && slot.key == key;
      assert slot in s'.turns;
    }
  }

  lemma NextRemembers(s: State, op: Op, key: Key, everyMs: int, cfg: Config)
    requires Exclusive(s) && Traced(s, key) && Remembers(s, key) && Enabled(s, op) && Orderly(s, op)
    requires op.Remove? || op.Crash? ==> !Excused(s, op, key, everyMs)
    requires !(op.Claim? && op.slot.key == key)
    ensures Remembers(Next(s, op, cfg), key)
  {
    var s' := Next(s, op, cfg);
    if op.Complete? {
      CompleteRemembers(s, op, key, cfg);
    } else if Running(s, key) {
      var slot :| slot in s.turns && slot.key == key;
      assert slot in s'.turns;
    }
  }

  /** A remembered firing is at least the schedule's own period before the next. */
  lemma ClaimWaits(s: State, at: Slot, now: real)
    requires Exclusive(s) && Remembers(s, at.key) && Claimable(s.data, at.key, now)
    requires Enabled(s, Claim(at, now)) && Orderly(s, Claim(at, now))
    ensures var times := FiredAt(s, at.key);
            times != [] ==> (s.clock - times[|times| - 1]) * 1000.0 >= s.data[at.key].plan.everyMs as real
  {
    ClaimFindsNoTurn(s, at, now);
  }

  lemma Fires(times: seq<real>, now: real, a: real, b: real, owed: int, debt: int, everyMs: int)
    requires PaidUp(times, a, b, owed, everyMs) && Chronicle(times, now) && everyMs >= 0 && 0 <= owed <= debt
    requires owed < debt || (times != [] ==> (now - times[|times| - 1]) * 1000.0 >= everyMs as real)
    ensures PaidUp(times + [now], a, b, debt, everyMs)
  {
    if a <= now <= b {
      FiresInside(times, now, a, b, owed, debt, everyMs);
    } else {
      FiringAppends(times, now, a, b);
      MoreDebt(times + [now], a, b, owed, debt, everyMs);
    }
  }

  lemma ClaimRemembers(s: State, at: Slot, now: real, cfg: Config)
    requires Claimable(s.data, at.key, now) && Enabled(s, Claim(at, now))
    ensures var s' := Next(s, Claim(at, now), cfg);
            Remembers(s', at.key) && FiredAt(s', at.key) == FiredAt(s, at.key) + [s.clock]
  {
    assert at in Next(s, Claim(at, now), cfg).turns;
  }

  lemma ClaimPays(s: State, at: Slot, now: real, a: real, b: real, debt: nat, everyMs: int, cfg: Config)
    requires Exclusive(s) && Paced(s, at.key, a, b, debt, everyMs) && Claimable(s.data, at.key, now)
    requires Enabled(s, Claim(at, now)) && Orderly(s, Claim(at, now)) && everyMs >= 0
    ensures var more := if s.data[at.key].plan.everyMs < everyMs then debt + 1 else debt;
            Paced(Next(s, Claim(at, now), cfg), at.key, a, b, more, everyMs)
  {
    var times := FiredAt(s, at.key);
    var more := if s.data[at.key].plan.everyMs < everyMs then debt + 1 else debt;
    NextKeepsTrace(s, Claim(at, now), at.key, cfg);
    ClaimRemembers(s, at, now, cfg);
    if Remembers(s, at.key) && PaidUp(times, a, b, debt, everyMs) {
      ClaimWaits(s, at, now);
      Fires(times, s.clock, a, b, debt, more, everyMs);
    } else {
      Fires(times, s.clock, a, b, debt - 1, more, everyMs);
    }
  }

  predicate Fired(s: State, op: Op, key: Key) {
    op.Claim? && op.slot.key == key && Claimable(s.data, key, op.now)
  }

  lemma QuietKeepsFirings(s: State, op: Op, key: Key, cfg: Config)
    requires Enabled(s, op) && !Fired(s, op, key)
    ensures FiredAt(Next(s, op, cfg), key) == FiredAt(s, key)
  {
  }

  lemma QuietRemembers(s: State, op: Op, key: Key, everyMs: int, cfg: Config)
    requires Exclusive(s) && Traced(s, key) && Remembers(s, key) && Enabled(s, op) && Orderly(s, op)
    requires !Fired(s, op, key) && !Excused(s, op, key, everyMs)
    ensures Remembers(Next(s, op, cfg), key)
  {
    if op.Claim? && op.slot.key == key {
      assert Next(s, op, cfg) == s;
    } else {
      NextRemembers(s, op, key, everyMs, cfg);
    }
  }

  // Whole runs.

  predicate CanRun(s: State, ops: seq<Op>, cfg: Config)
    decreases |ops|
  {
    ops == [] || (Enabled(s, ops[0]) && CanRun(Next(s, ops[0], cfg), ops[1..], cfg))
  }

  function Run(s: State, ops: seq<Op>, cfg: Config): State
    requires CanRun(s, ops, cfg)
    decreases |ops|
  {
    if ops == [] then s else Run(Next(s, ops[0], cfg), ops[1..], cfg)
  }

  ghost predicate OrderlyRun(s: State, ops: seq<Op>, cfg: Config)
    requires CanRun(s, ops, cfg)
    decreases |ops|
  {
    ops == [] || (Orderly(s, ops[0]) && OrderlyRun(Next(s, ops[0], cfg), ops[1..], cfg))
  }

  /** How many steps of a run excuse an early firing. */
  function Excuses(s: State, ops: seq<Op>, key: Key, everyMs: int, cfg: Config): nat
    requires CanRun(s, ops, cfg)
    decreases |ops|
  {
    if ops == [] then 0
    else (if Excused(s, ops[0], key, everyMs) then 1 else 0)
         + Excuses(Next(s, ops[0], cfg), ops[1..], key, everyMs, cfg)
  }

  lemma {:induction false} RunKeeps(s: State, ops: seq<Op>, cfg: Config)
    requires Exclusive(s) && CanRun(s, ops, cfg) && OrderlyRun(s, ops, cfg)
    ensures Exclusive(Run(s, ops, cfg))
    decreases |ops|
  {
    if ops != [] {
      NextKeepsExclusive(s, ops[0], cfg);
      RunKeeps(Next(s, ops[0], cfg), ops[1..], cfg);
    }
  }

  /** However many workers tick and however stale their clocks: no two turns of one schedule are ever
      under way together. */
  lemma TurnsNeverOverlap(ops: seq<Op>, cfg: Config, a: Slot, b: Slot)
    requires CanRun(START, ops, cfg) && OrderlyRun(START, ops, cfg)
    requires a in Run(START, ops, cfg).turns && b in Run(START, ops, cfg).turns && a.key == b.key
    ensures a == b
  {
    RunKeeps(START, ops, cfg);
    assert SlotSound(Run(START, ops, cfg), a);
  }

  lemma KeepsAsDebt(s: State, key: Key, a: real, b: real, debt: nat, everyMs: int)
    requires Paced(s, key, a, b, debt, everyMs) && everyMs >= 0
    ensures PaidUp(FiredAt(s, key), a, b, debt, everyMs)
  {
    if !PaidUp(FiredAt(s, key), a, b, debt, everyMs) {
      MoreDebt(FiredAt(s, key), a, b, debt - 1, debt, everyMs);
    }
  }

  lemma NextKeepsPaced(s: State, op: Op, key: Key, a: real, b: real, debt: nat, everyMs: int, cfg: Config)
    requires Exclusive(s) && Paced(s, key, a, b, debt, everyMs) && everyMs >= 0
    requires Enabled(s, op) && Orderly(s, op)
    ensures Paced(Next(s, op, cfg), key, a, b, if Excused(s, op, key, everyMs) then debt + 1 else debt, everyMs)
  {
    if Fired(s, op, key) {
      ClaimPays(s, op.slot, op.now, a, b, debt, everyMs, cfg);
    } else {
      NextKeepsTrace(s, op, key, cfg);
      QuietKeepsFirings(s, op, key, cfg);
      if Excused(s, op, key, everyMs) {
        KeepsAsDebt(s, key, a, b, debt, everyMs);
        OweOneMore(Next(s, op, cfg), key, a, b, debt, everyMs);
      } else {
        QuietOwesTheSame(s, op, key, a, b, debt, everyMs, cfg);
      }
    }
  }

  lemma OweOneMore(s: State, key: Key, a: real, b: real, debt: nat, everyMs: int)
    requires Traced(s, key) && PaidUp(FiredAt(s, key), a, b, debt, everyMs)
    ensures Paced(s, key, a, b, debt + 1, everyMs)
  {
  }

  lemma QuietOwesTheSame(s: State, op: Op, key: Key, a: real, b: real, debt: nat, everyMs: int, cfg: Config)
    requires Exclusive(s) && Paced(s, key, a, b, debt, everyMs) && Enabled(s, op) && Orderly(s, op)
    requires !Fired(s, op, key) && !Excused(s, op, key, everyMs) && Traced(Next(s, op, cfg), key)
    ensures Paced(Next(s, op, cfg), key, a, b, debt, everyMs)
  {
    QuietKeepsFirings(s, op, key, cfg);
    if Remembers(s, key) {
      QuietRemembers(s, op, key, everyMs, cfg);
    }
  }

  lemma {:induction false} RunKeepsPaced(s: State, ops: seq<Op>, key: Key, a: real, b: real, debt: nat,
                                         everyMs: int, cfg: Config)
    requires Exclusive(s) && Paced(s, key, a, b, debt, everyMs) && everyMs >= 0
    requires CanRun(s, ops, cfg) && OrderlyRun(s, ops, cfg)
    ensures Paced(Run(s, ops, cfg), key, a, b, debt + Excuses(s, ops, key, everyMs, cfg), everyMs)
    decreases |ops|
  {
    if ops != [] {
      NextKeepsExclusive(s, ops[0], cfg);
      NextKeepsPaced(s, ops[0], key, a, b, debt, everyMs, cfg);
      RunKeepsPaced(Next(s, ops[0], cfg), ops[1..], key, a, b,
                    if Excused(s, ops[0], key, everyMs) then debt + 1 else debt, everyMs, cfg);
    }
  }

  lemma CountIsBounded(times: seq<real>, a: real, b: real, debt: nat, everyMs: int)
    requires PaidUp(times, a, b, debt, everyMs) && everyMs > 0 && a <= b
    requires forall i, j :: 0 <= i <= j < |times| ==> times[i] <= times[j]
    ensures CountIn(times, a, b) as real <= 1.0 + 1000.0 * (b - a) / everyMs as real + debt as real
  {
    var count := CountIn(times, a, b);
    LastInBounds(times, a, b);
    PeriodsMultiply(count - 1 - debt, everyMs);
    Divide(1000.0 * (b - a), if count > 0 then count - 1 - debt else 0, everyMs);
  }

  /** No backlog: however long the workers were away, a schedule fires in [a, b] at most once more
      than whole periods fit into it, but for one firing for each kill of its turns, each removal and
      each firing under a shorter period. */
  lemma FiringsAreBounded(ops: seq<Op>, key: Key, everyMs: int, a: real, b: real, cfg: Config)
    requires CanRun(START, ops, cfg) && OrderlyRun(START, ops, cfg)
    requires everyMs > 0 && a <= b
    ensures CountIn(FiredAt(Run(START, ops, cfg), key), a, b) as real
            <= 1.0 + 1000.0 * (b - a) / everyMs as real + Excuses(START, ops, key, everyMs, cfg) as real
  {
    var debt := Excuses(START, ops, key, everyMs, cfg);
    RunKeepsPaced(START, ops, key, a, b, 0, everyMs, cfg);
    KeepsAsDebt(Run(START, ops, cfg), key, a, b, debt, everyMs);
    CountIsBounded(FiredAt(Run(START, ops, cfg), key), a, b, debt, everyMs);
  }

  /** Nothing to excuse: no turn of this schedule is killed, it is not removed, and it is never put
      with a shorter period. */
  predicate Steady(op: Op, key: Key, everyMs: int) {
    match op
    case Put(k, plan) => k == key ==> plan.everyMs >= everyMs || plan.everyMs <= 0
    case Remove(keys) => key !in keys
    case Crash(slot) => slot.key != key
    case _ => true
  }

  /** In a steady run the bound is the bare one. */
  lemma {:induction false} SteadyNeedsNoExcuse(s: State, ops: seq<Op>, key: Key, everyMs: int, cfg: Config)
    requires CanRun(s, ops, cfg) && forall i :: 0 <= i < |ops| ==> Steady(ops[i], key, everyMs)
    requires key in s.data ==> s.data[key].plan.everyMs >= everyMs
    ensures Excuses(s, ops, key, everyMs, cfg) == 0
    decreases |ops|
  {
    if ops != [] {
      assert Steady(ops[0], key, everyMs);
      forall i | 0 <= i < |ops[1..]|
        ensures Steady(ops[1..][i], key, everyMs)
      {
        assert Steady(ops[i + 1], key, everyMs);
      }
      SteadyNeedsNoExcuse(Next(s, ops[0], cfg), ops[1..], key, everyMs, cfg);
    }
  }

  // The bound is reached.

  /** An orderly run with so many excuses after which the schedule has fired so often in [0, b]. */
  ghost predicate Reaches(s: State, ops: seq<Op>, key: Key, everyMs: int, b: real, count: nat, excuses: nat,
                          cfg: Config)
  {
    && CanRun(s, ops, cfg) && OrderlyRun(s, ops, cfg)
    && CountIn(FiredAt(Run(s, ops, cfg), key), 0.0, b) == count
    && Excuses(s, ops, key, everyMs, cfg) == excuses
  }

  lemma OpFirst(s: State, op: Op, rest: seq<Op>, key: Key, everyMs: int, b: real, count: nat, excuses: nat,
                cfg: Config)
    requires Enabled(s, op) && Orderly(s, op)
    requires Reaches(Next(s, op, cfg), rest, key, everyMs, b, count, excuses, cfg)
    ensures Reaches(s, [op] + rest, key, everyMs, b, count,
                    excuses + (if Excused(s, op, key, everyMs) then 1 else 0), cfg)
  {
    assert ([op] + rest)[1..] == rest;
  }

  lemma NothingMore(s: State, key: Key, everyMs: int, b: real, cfg: Config)
    ensures Reaches(s, [], key, everyMs, b, CountIn(FiredAt(s, key), 0.0, b), 0, cfg)
  {
  }

  /** Induction over rounds: `good` holds without a round left, and goes back over one round. */
  ghost predicate GoesBack(ready: (State, nat) -> bool, next: State -> State, good: (State, nat) -> bool,
                           v: State, k: nat)
  {
    ready(v, k) ==>
      if k == 0 then good(v, 0)
      else ready(next(v), k - 1) && (good(next(v), k - 1) ==> good(v, k))
  }

  lemma {:induction false} OverRounds(ready: (State, nat) -> bool, next: State -> State,
      good: (State, nat) -> bool, s: State, n: nat)
    requires ready(s, n)
    requires forall v: State, k: nat :: GoesBack(ready, next, good, v, k)
    ensures good(s, n)
    decreases n
  {
    assert GoesBack(ready, next, good, s, n);
    if n > 0 {
      OverRounds(ready, next, good, next(s), n - 1);
    }
  }

  /** No schedules, no turns, and the clock at zero. */
  predicate Blank(s: State) {
    s.clock == 0.0 && s.data == map[] && s.turns == map[]
  }

  function AfterFiring(s: State, key: Key): State {
    s.(fired := s.fired[key := FiredAt(s, key) + [s.clock]])
  }

  function FreshEntry(key: Key, plan: Plan): Entry {
    Entry(key.tenant, plan, None, None, 0.0, 0.0, None)
  }

  lemma BlankPut(s: State, key: Key, plan: Plan, cfg: Config)
    requires Blank(s) && Complaint(key.name, plan) == None && cfg.maxPerTenant > 0
    ensures Next(s, Put(key, plan), cfg) == s.(data := map[key := FreshEntry(key, plan)])
  {
    assert OwnedBy(s.data, key.tenant) == {};
  }

  lemma FreshClaim(s: State, slot: Slot, cfg: Config)
    requires slot.key in s.data && slot !in s.turns && 0.0 <= s.clock
    requires s.data[slot.key].lastRun.None? && LeaseUntil(s.data[slot.key]) <= s.clock
    ensures Next(s, Claim(slot, s.clock), cfg)
            == AfterFiring(s, slot.key).(
                 data := s.data[slot.key := Claimed(s.data[slot.key], s.clock, slot.owner, cfg.leaseFor)],
                 turns := s.turns[slot := Turn(s.clock, s.clock + cfg.leaseFor)])
  {
  }

  /** Put, fired, completed and removed, all in one instant: only the firing is left behind. */
  function RemovalRound(slot: Slot, plan: Plan, rest: seq<Op>): seq<Op> {
    [Put(slot.key, plan)] + ([Claim(slot, 0.0)] + ([Complete(slot, 0.0, "ok")] + ([Remove({slot.key})] + rest)))
  }

  function RemovalRun(slot: Slot, plan: Plan, n: nat): seq<Op> {
    if n == 0 then [Put(slot.key, plan)] + ([Claim(slot, 0.0)] + [])
    else RemovalRound(slot, plan, RemovalRun(slot, plan, n - 1))
  }

  lemma ClaimedIsRemoved(s: State, claimed: State, slot: Slot, plan: Plan, cfg: Config)
    requires Blank(s)
    requires claimed == AfterFiring(s, slot.key).(
               data := map[slot.key := Claimed(FreshEntry(slot.key, plan), 0.0, slot.owner, cfg.leaseFor)],
               turns := map[slot := Turn(0.0, 0.0 + cfg.leaseFor)])
    ensures var completed := Next(claimed, Complete(slot, 0.0, "ok"), cfg);
            Next(completed, Remove({slot.key}), cfg) == AfterFiring(s, slot.key)
  {
    var completed := Next(claimed, Complete(slot, 0.0, "ok"), cfg);
    assert completed.turns == map[];
    assert completed.data - {slot.key} == map[];
  }

  lemma RemovalRoundFirst(s: State, slot: Slot, plan: Plan, rest: seq<Op>, count: nat, excuses: nat, cfg: Config)
    requires Blank(s) && Complaint(slot.key.name, plan) == None && cfg.maxPerTenant > 0
    requires Reaches(AfterFiring(s, slot.key), rest, slot.key, plan.everyMs, 0.0, count, excuses, cfg)
    ensures Reaches(s, RemovalRound(slot, plan, rest), slot.key, plan.everyMs, 0.0, count, excuses + 1, cfg)
  {
    var key, everyMs := slot.key, plan.everyMs;
    var put := s.(data := map[key := FreshEntry(key, plan)]);
    BlankPut(s, key, plan, cfg);
    var claimed := Next(put, Claim(slot, 0.0), cfg);
    FreshClaim(put, slot, cfg);
    ClaimedIsRemoved(s, claimed, slot, plan, cfg);
    var completed := Next(claimed, Complete(slot, 0.0, "ok"), cfg);
    OpFirst(completed, Remove({key}), rest, key, everyMs, 0.0, count, excuses, cfg);
    var last := [Remove({key})] + rest;
    OpFirst(claimed, Complete(slot, 0.0, "ok"), last, key, everyMs, 0.0, count, excuses + 1, cfg);
    OpFirst(put, Claim(slot, 0.0), [Complete(slot, 0.0, "ok")] + last, key, everyMs, 0.0, count, excuses + 1, cfg);
    OpFirst(s, Put(key, plan), [Claim(slot, 0.0)] + ([Complete(slot, 0.0, "ok")] + last), key, everyMs, 0.0,
            count, excuses + 1, cfg);
  }

  lemma PutAndFire(s: State, slot: Slot, plan: Plan, cfg: Config)
    requires Blank(s) && Complaint(slot.key.name, plan) == None && cfg.maxPerTenant > 0
    ensures Reaches(s, RemovalRun(slot, plan, 0), slot.key, plan.everyMs, 0.0,
                    CountIn(FiredAt(s, slot.key), 0.0, 0.0) + 1, 0, cfg)
  {
    var key, everyMs := slot.key, plan.everyMs;
    var put := s.(data := map[key := FreshEntry(key, plan)]);
    BlankPut(s, key, plan, cfg);
    FreshClaim(put, slot, cfg);
    var claimed := Next(put, Claim(slot, 0.0), cfg);
    FiringAppends(FiredAt(s, key), 0.0, 0.0, 0.0);
    var count := CountIn(FiredAt(s, key), 0.0, 0.0) + 1;
    NothingMore(claimed, key, everyMs, 0.0, cfg);
    OpFirst(put, Claim(slot, 0.0), [], key, everyMs, 0.0, count, 0, cfg);
    OpFirst(s, Put(key, plan), [Claim(slot, 0.0)] + [], key, everyMs, 0.0, count, 0, cfg);
  }

  ghost predicate RemovalsGood(s: State, slot: Slot, plan: Plan, k: nat, cfg: Config) {
    Reaches(s, RemovalRun(slot, plan, k), slot.key, plan.everyMs, 0.0,
            CountIn(FiredAt(s, slot.key), 0.0, 0.0) + 1 + k, k, cfg)
  }

  lemma RemovalStep(s: State, slot: Slot, plan: Plan, k: nat, cfg: Config)
    requires Blank(s) && Complaint(slot.key.name, plan) == None && cfg.maxPerTenant > 0 && k > 0
    requires RemovalsGood(AfterFiring(s, slot.key), slot, plan, k - 1, cfg)
    ensures RemovalsGood(s, slot, plan, k, cfg)
  {
    FiringAppends(FiredAt(s, slot.key), 0.0, 0.0, 0.0);
    RemovalRoundFirst(s, slot, plan, RemovalRun(slot, plan, k - 1),
                      CountIn(FiredAt(s, slot.key), 0.0, 0.0) + 1 + k, k - 1, cfg);
  }

  lemma RemovalsReach(slot: Slot, plan: Plan, n: nat, cfg: Config)
    requires Complaint(slot.key.name, plan) == None && cfg.maxPerTenant > 0
    ensures RemovalsGood(START, slot, plan, n, cfg)
  {
    var ready := (v: State, k: nat) => Blank(v);
    var next := (v: State) => AfterFiring(v, slot.key);
    var good := (v: State, k: nat) => RemovalsGood(v, slot, plan, k, cfg);
    forall v: State, k: nat
      ensures GoesBack(ready, next, good, v, k)
    {
      if Blank(v) && k == 0 {
        PutAndFire(v, slot, plan, cfg);
      } else if Blank(v) && good(next(v), k - 1) {
        RemovalStep(v, slot, plan, k, cfg);
      }
    }
    OverRounds(ready, next, good, START, n);
  }

  /** A removal lets a schedule that is put again fire at once: for every number of removals some
      orderly run reaches the bound, all in one instant. */
  lemma RemovalsReachBound(slot: Slot, plan: Plan, n: nat, cfg: Config)
    requires Complaint(slot.key.name, plan) == None && cfg.maxPerTenant > 0
    ensures var ops := RemovalRun(slot, plan, n);
            && CanRun(START, ops, cfg) && OrderlyRun(START, ops, cfg)
            && Excuses(START, ops, slot.key, plan.everyMs, cfg) == n
            && CountIn(FiredAt(Run(START, ops, cfg), slot.key), 0.0, 0.0) == 1 + n
  {
    RemovalsReach(slot, plan, n, cfg);
  }

  /** A killed turn leaves its lease in the table: the schedule fires again exactly when it is due and
      that lease has run out. */
  lemma KilledTurnFiresAgainIff(s: State, killed: Slot, at: Slot, now: real, cfg: Config)
    requires Exclusive(s) && killed in s.turns && killed.key == at.key && at.key in s.data && now <= s.clock
    ensures var after := Next(s, Crash(killed), cfg);
            && Enabled(after, Claim(at, now))
            && (at in Next(after, Claim(at, now), cfg).turns <==>
                Due(s.data[at.key], now) && s.turns[killed].until <= now)
  {
    assert SlotSound(s, killed);
  }

  /** Claimed, killed, and claimed again as soon as the lease has run out. */
  function KillRun(slot: Slot, t: real, leaseFor: real, n: nat): seq<Op>
    decreases n
  {
    if n == 0 then [Claim(slot, t)] + []
    else [Claim(slot, t)] + ([Crash(slot)]
         + ([TimePasses(t + leaseFor)] + KillRun(slot, t + leaseFor, leaseFor, n - 1)))
  }

  /** The schedule never ran to its end, nobody runs it, and no lease is in force. */
  predicate Unfinished(s: State, key: Key, everyMs: int) {
    && s.turns == map[] && 0.0 <= s.clock && key in s.data
    && s.data[key].plan.everyMs == everyMs && s.data[key].lastRun.None? && LeaseUntil(s.data[key]) <= s.clock
  }

  /** Once the killed turn's lease has run out. */
  function AfterKill(s: State, slot: Slot, cfg: Config): State
    requires slot.key in s.data
  {
    AfterFiring(s, slot.key).(
      clock := s.clock + cfg.leaseFor,
      data := s.data[slot.key := Claimed(s.data[slot.key], s.clock, slot.owner, cfg.leaseFor)])
  }

  lemma KillLeaves(s: State, slot: Slot, everyMs: int, cfg: Config)
    requires Unfinished(s, slot.key, everyMs) && cfg.leaseFor >= 0.0
    ensures var after := AfterKill(s, slot, cfg);
            && Unfinished(after, slot.key, everyMs) && after.clock == s.clock + cfg.leaseFor
            && FiredAt(after, slot.key) == FiredAt(s, slot.key) + [s.clock]
  {
  }

  lemma KillOnce(s: State, slot: Slot, everyMs: int, cfg: Config)
    requires Unfinished(s, slot.key, everyMs) && cfg.leaseFor >= 0.0
    ensures var claimed := Next(s, Claim(slot, s.clock), cfg);
            && Enabled(claimed, Crash(slot))
            && var killed := Next(claimed, Crash(slot), cfg);
            && killed.turns == map[] && killed.clock == s.clock
            && Next(killed, TimePasses(s.clock + cfg.leaseFor), cfg) == AfterKill(s, slot, cfg)
  {
    FreshClaim(s, slot, cfg);
    var killed := Next(Next(s, Claim(slot, s.clock), cfg), Crash(slot), cfg);
    assert killed.turns == map[];
  }

  lemma KillFirst(s: State, slot: Slot, everyMs: int, k: nat, b: real, count: nat, excuses: nat, cfg: Config)
    requires Unfinished(s, slot.key, everyMs) && cfg.leaseFor >= 0.0 && k > 0
    requires Reaches(AfterKill(s, slot, cfg), KillRun(slot, s.clock + cfg.leaseFor, cfg.leaseFor, k - 1),
                     slot.key, everyMs, b, count, excuses, cfg)
    ensures Reaches(s, KillRun(slot, s.clock, cfg.leaseFor, k), slot.key, everyMs, b, count, excuses + 1, cfg)
  {
    var rest := KillRun(slot, s.clock + cfg.leaseFor, cfg.leaseFor, k - 1);
    KillOnce(s, slot, everyMs, cfg);
    var claimed := Next(s, Claim(slot, s.clock), cfg);
    var killed := Next(claimed, Crash(slot), cfg);
    var wait := TimePasses(s.clock + cfg.leaseFor);
    ThreeFirst(s, Claim(slot, s.clock), claimed, Crash(slot), killed, wait, rest, slot.key, everyMs, b, count,
               excuses, cfg);
  }

  lemma ThreeFirst(s: State, claim: Op, claimed: State, crash: Op, killed: State, wait: Op, rest: seq<Op>,
                   key: Key, everyMs: int, b: real, count: nat, excuses: nat, cfg: Config)
    requires Enabled(s, claim) && Orderly(s, claim) && claimed == Next(s, claim, cfg)
    requires Enabled(claimed, crash) && Orderly(claimed, crash) && killed == Next(claimed, crash, cfg)
    requires Enabled(killed, wait) && Orderly(killed, wait)
    requires !Excused(s, claim, key, everyMs) && !Excused(killed, wait, key, everyMs)
    requires Reaches(Next(killed, wait, cfg), rest, key, everyMs, b, count, excuses, cfg)
    ensures Reaches(s, [claim] + ([crash] + ([wait] + rest)), key, everyMs, b, count,
                    excuses + (if Excused(claimed, crash, key, everyMs) then 1 else 0), cfg)
  {
    var more := excuses + if Excused(claimed, crash, key, everyMs) then 1 else 0;
    OpFirst(killed, wait, rest, key, everyMs, b, count, excuses, cfg);
    OpFirst(claimed, crash, [wait] + rest, key, everyMs, b, count, excuses, cfg);
    OpFirst(s, claim, [crash] + ([wait] + rest), key, everyMs, b, count, more, cfg);
  }

  lemma FireOnce(s: State, slot: Slot, everyMs: int, b: real, cfg: Config)
    requires Unfinished(s, slot.key, everyMs) && s.clock <= b
    ensures Reaches(s, [Claim(slot, s.clock)] + [], slot.key, everyMs, b,
                    CountIn(FiredAt(s, slot.key), 0.0, b) + 1, 0, cfg)
  {
    FreshClaim(s, slot, cfg);
    FiringAppends(FiredAt(s, slot.key), s.clock, 0.0, b);
    NothingMore(Next(s, Claim(slot, s.clock), cfg), slot.key, everyMs, b, cfg);
    OpFirst(s, Claim(slot, s.clock), [], slot.key, everyMs, b, CountIn(FiredAt(s, slot.key), 0.0, b) + 1, 0, cfg);
  }

  /** So many leases, one after the other. */
  function Span(n: nat, leaseFor: real): real {
    if n == 0 then 0.0 else leaseFor + Span(n - 1, leaseFor)
  }

  lemma {:induction false} SpanNotNegative(n: nat, leaseFor: real)
    requires leaseFor >= 0.0
    ensures Span(n, leaseFor) >= 0.0
  {
    if n > 0 {
      SpanNotNegative(n - 1, leaseFor);
    }
  }

  lemma {:induction false} SpanMultiplies(n: nat, leaseFor: real)
    ensures Span(n, leaseFor) == n as real * leaseFor
  {
    if n > 0 {
      SpanMultiplies(n - 1, leaseFor);
      assert n as real * leaseFor == leaseFor + (n - 1) as real * leaseFor;
    }
  }

  ghost predicate KillsGood(s: State, slot: Slot, everyMs: int, k: nat, b: real, cfg: Config) {
    Reaches(s, KillRun(slot, s.clock, cfg.leaseFor, k), slot.key, everyMs, b,
            CountIn(FiredAt(s, slot.key), 0.0, b) + 1 + k, k, cfg)
  }

  predicate KillsReady(s: State, slot: Slot, everyMs: int, k: nat, b: real, cfg: Config) {
    Unfinished(s, slot.key, everyMs) && s.clock + Span(k, cfg.leaseFor) <= b
  }

  lemma KillStep(s: State, slot: Slot, everyMs: int, k: nat, b: real, cfg: Config)
    requires KillsReady(s, slot, everyMs, k, b, cfg) && cfg.leaseFor >= 0.0 && k > 0
    ensures KillsReady(AfterKill(s, slot, cfg), slot, everyMs, k - 1, b, cfg)
  {
    KillLeaves(s, slot, everyMs, cfg);
  }

  lemma KillCounts(s: State, slot: Slot, everyMs: int, k: nat, b: real, cfg: Config)
    requires KillsReady(s, slot, everyMs, k, b, cfg) && cfg.leaseFor >= 0.0
    ensures CountIn(FiredAt(AfterKill(s, slot, cfg), slot.key), 0.0, b)
            == CountIn(FiredAt(s, slot.key), 0.0, b) + 1
  {
    SpanNotNegative(k, cfg.leaseFor);
    KillLeaves(s, slot, everyMs, cfg);
    FiringAppends(FiredAt(s, slot.key), s.clock, 0.0, b);
  }

  lemma KillsGoBack(s: State, slot: Slot, everyMs: int, k: nat, b: real, cfg: Config)
    requires KillsReady(s, slot, everyMs, k, b, cfg) && cfg.leaseFor >= 0.0 && k > 0
    requires KillsGood(AfterKill(s, slot, cfg), slot, everyMs, k - 1, b, cfg)
    ensures KillsGood(s, slot, everyMs, k, b, cfg)
  {
    KillCounts(s, slot, everyMs, k, b, cfg);
    KillFirst(s, slot, everyMs, k, b, CountIn(FiredAt(s, slot.key), 0.0, b) + 1 + k, k - 1, cfg);
  }

  lemma KillsOrEnds(s: State, slot: Slot, everyMs: int, k: nat, b: real, cfg: Config)
    requires KillsReady(s, slot, everyMs, k, b, cfg) && cfg.leaseFor >= 0.0
    ensures k == 0 ==> KillsGood(s, slot, everyMs, 0, b, cfg)
    ensures k > 0 ==>
              var after := AfterKill(s, slot, cfg);
              && KillsReady(after, slot, everyMs, k - 1, b, cfg)
              && (KillsGood(after, slot, everyMs, k - 1, b, cfg) ==> KillsGood(s, slot, everyMs, k, b, cfg))
  {
    if k == 0 {
      FireOnce(s, slot, everyMs, b, cfg);
    } else {
      KillStep(s, slot, everyMs, k, b, cfg);
      if KillsGood(AfterKill(s, slot, cfg), slot, everyMs, k - 1, b, cfg) {
        KillsGoBack(s, slot, everyMs, k, b, cfg);
      }
    }
  }

  /** Going back over a kill, with what is good hidden behind a function value. */
  ghost predicate KillGoesBack(good: (State, nat) -> bool, v: State, k: nat, slot: Slot, everyMs: int, b: real,
                               cfg: Config)
  {
    KillsReady(v, slot, everyMs, k, b, cfg) ==>
      if k == 0 then good(v, 0)
      else
        && KillsReady(AfterKill(v, slot, cfg), slot, everyMs, k - 1, b, cfg)
        && (good(AfterKill(v, slot, cfg), k - 1) ==> good(v, k))
  }

  lemma {:induction false} OverKills(good: (State, nat) -> bool, s: State, slot: Slot, everyMs: int, n: nat,
                                     b: real, cfg: Config)
    requires KillsReady(s, slot, everyMs, n, b, cfg)
    requires forall v: State, k: nat :: KillGoesBack(good, v, k, slot, everyMs, b, cfg)
    ensures good(s, n)
    decreases n
  {
    assert KillGoesBack(good, s, n, slot, everyMs, b, cfg);
    if n > 0 {
      OverKills(good, AfterKill(s, slot, cfg), slot, everyMs, n - 1, b, cfg);
    }
  }

  lemma KillsReach(s: State, slot: Slot, everyMs: int, n: nat, b: real, cfg: Config)
    requires KillsReady(s, slot, everyMs, n, b, cfg) && cfg.leaseFor >= 0.0
    ensures KillsGood(s, slot, everyMs, n, b, cfg)
  {
    var good := (v: State, k: nat) => KillsGood(v, slot, everyMs, k, b, cfg);
    forall v: State, k: nat
      ensures KillGoesBack(good, v, k, slot, everyMs, b, cfg)
    {
      if KillsReady(v, slot, everyMs, k, b, cfg) {
        KillsOrEnds(v, slot, everyMs, k, b, cfg);
      }
    }
    OverKills(good, s, slot, everyMs, n, b, cfg);
  }

  lemma LessThanOne(x: real, y: real)
    requires 0.0 <= x < y
    ensures x / y < 1.0
  {
  }

  /** For every number of kills some orderly run fires once more than it is killed, a lease apart; when
      the period is longer than all of that, one excuse less would make the bound false. */
  lemma KillsReachBound(slot: Slot, plan: Plan, n: nat, cfg: Config)
    requires Complaint(slot.key.name, plan) == None && cfg.maxPerTenant > 0 && cfg.leaseFor >= 0.0
    ensures var ops := [Put(slot.key, plan)] + KillRun(slot, 0.0, cfg.leaseFor, n);
            var b := n as real * cfg.leaseFor;
            && CanRun(START, ops, cfg) && OrderlyRun(START, ops, cfg)
            && Excuses(START, ops, slot.key, plan.everyMs, cfg) == n
            && CountIn(FiredAt(Run(START, ops, cfg), slot.key), 0.0, b) == 1 + n
            && (1000.0 * b < plan.everyMs as real ==>
                  (1 + n) as real > 1.0 + 1000.0 * b / plan.everyMs as real + (n - 1) as real)
  {
    var key, b := slot.key, n as real * cfg.leaseFor;
    SpanMultiplies(n, cfg.leaseFor);
    SpanNotNegative(n, cfg.leaseFor);
    if 1000.0 * b < plan.everyMs as real {
      LessThanOne(1000.0 * b, plan.everyMs as real);
    }
    var put := START.(data := map[key := FreshEntry(key, plan)]);
    BlankPut(START, key, plan, cfg);
    KillsReach(put, slot, plan.everyMs, n, b, cfg);
    OpFirst(START, Put(key, plan), KillRun(slot, 0.0, cfg.leaseFor, n), key, plan.everyMs, b, 1 + n, n, cfg);
  }

  lemma Divide(span: real, k: int, everyMs: int)
    requires everyMs > 0 && span >= (k * everyMs) as real
    ensures span / everyMs as real >= k as real
  {
    assert (k * everyMs) as real == k as real * everyMs as real;
  }

  // The per-tenant quota.

  predicate KeysMatch(data: Table) {
    forall key :: key in data ==> data[key].tenant == key.tenant
  }

  predicate WithinQuota(data: Table, tenant: nat, maxPerTenant: nat) {
    |OwnedBy(data, tenant)| <= maxPerTenant
  }

  lemma FewerOwned(data: Table, data': Table, tenant: nat)
    requires OwnedBy(data', tenant) <= OwnedBy(data, tenant)
    ensures |OwnedBy(data', tenant)| <= |OwnedBy(data, tenant)|
  {
    SubsetSize(OwnedBy(data', tenant), OwnedBy(data, tenant));
  }

  lemma {:induction false} SubsetSize(a: set<Key>, b: set<Key>)
    requires a <= b
    ensures |a| <= |b|
    decreases a
  {
    if a != {} {
      var x :| x in a;
      SubsetSize(a - {x}, b - {x});
    }
  }

  lemma NextKeepsKeys(s: State, op: Op, cfg: Config)
    requires Enabled(s, op) && KeysMatch(s.data)
    ensures KeysMatch(Next(s, op, cfg).data)
  {
  }

  lemma EntryAdded(data: Table, key: Key, e: Entry, tenant: nat)
    requires KeysMatch(data) && e.tenant == key.tenant
    ensures var owned, owned' := OwnedBy(data, tenant), OwnedBy(data[key := e], tenant);
            owned' == if key.tenant == tenant then owned + {key} else owned
  {
  }

  lemma PutOwns(data: Table, key: Key, plan: Plan, now: real, tenant: nat, maxPerTenant: nat)
    requires KeysMatch(data)
    ensures var owned, owned' := OwnedBy(data, tenant), OwnedBy(AfterPut(data, key, plan, now, maxPerTenant), tenant);
            owned' <= owned || (owned' == owned + {key} && |owned| < maxPerTenant)
  {
    if PutOutcomeOf(data, key, plan, maxPerTenant).Stored? {
      EntryOwned(data, key, Rebuilt(data, key, plan, now), tenant);
    }
  }

  lemma EntryOwned(data: Table, key: Key, e: Entry, tenant: nat)
    requires KeysMatch(data) && e.tenant == key.tenant
    ensures var owned, owned' := OwnedBy(data, tenant), OwnedBy(data[key := e], tenant);
            owned' <= owned || (owned' == owned + {key} && key.tenant == tenant && key !in data)
  {
    EntryAdded(data, key, e, tenant);
    if key in data {
      OwnKey(data, key, tenant);
    }
  }

  lemma OwnKey(data: Table, key: Key, tenant: nat)
    requires KeysMatch(data) && key in data
    ensures key in OwnedBy(data, tenant) <==> key.tenant == tenant
  {
  }

  /** A step gives a tenant at most one schedule more, and only by a put that found room. */
  lemma NextOwns(s: State, op: Op, tenant: nat, cfg: Config)
    requires Enabled(s, op) && KeysMatch(s.data)
    ensures var owned, owned' := OwnedBy(s.data, tenant), OwnedBy(Next(s, op, cfg).data, tenant);
            || owned' <= owned
            || (op.Put? && owned' == owned + {op.key} && |owned| < cfg.maxPerTenant)
  {
    if op.Put? {
      PutOwns(s.data, op.key, op.plan, s.clock, tenant, cfg.maxPerTenant);
    }
  }

  lemma NextKeepsQuota(s: State, op: Op, tenant: nat, cfg: Config)
    requires Enabled(s, op) && KeysMatch(s.data) && WithinQuota(s.data, tenant, cfg.maxPerTenant)
    ensures WithinQuota(Next(s, op, cfg).data, tenant, cfg.maxPerTenant)
  {
    NextOwns(s, op, tenant, cfg);
    var data' := Next(s, op, cfg).data;
    if OwnedBy(data', tenant) <= OwnedBy(s.data, tenant) {
      FewerOwned(s.data, data', tenant);
    }
  }

  /** No tenant ever holds more than its number of schedules. */
  lemma {:induction false} QuotaHolds(s: State, ops: seq<Op>, tenant: nat, cfg: Config)
    requires CanRun(s, ops, cfg) && KeysMatch(s.data) && WithinQuota(s.data, tenant, cfg.maxPerTenant)
    ensures WithinQuota(Run(s, ops, cfg).data, tenant, cfg.maxPerTenant)
    decreases |ops|
  {
    if ops != [] {
      NextKeepsKeys(s, ops[0], cfg);
      NextKeepsQuota(s, ops[0], tenant, cfg);
      QuotaHolds(Next(s, ops[0], cfg), ops[1..], tenant, cfg);
    }
  }
}
