/** When a schedule runs, what keeps it, and what a put writes, in terms of the entries' own fields and of
    whole runs: product_service.py, ProductScheduleStore and ProductScheduler._due. */
module ScheduleRules {
  import opened Wrappers
  import opened Schedules

  // When a schedule runs.

  /** After a turn that completed at `when`, with the entry left alone since, a claim at `now` starts the
      next turn if and only if a whole period has passed. */
  lemma CompletedFiresAgainIff(ops: seq<Op>, slot: Slot, when: real, status: string, rest: seq<Op>, at: Slot,
                               now: real, cfg: Config)
    requires CanRun(START, ops, cfg) && OrderlyRun(START, ops, cfg)
    requires var s := Run(START, ops, cfg);
             && slot in s.turns && slot.key in s.data && at.key == slot.key
             && Enabled(s, Complete(slot, when, status))
    requires var done := Next(Run(START, ops, cfg), Complete(slot, when, status), cfg);
             && CanRun(done, rest, cfg)
             && var later := Run(done, rest, cfg);
             && at.key in later.data && later.data[at.key] == done.data[at.key]
             && Enabled(later, Claim(at, now)) && 0.0 <= now
    ensures var s := Run(START, ops, cfg);
            var later := Run(Next(s, Complete(slot, when, status), cfg), rest, cfg);
            at in Next(later, Claim(at, now), cfg).turns <==>
              (now - when) * 1000.0 >= s.data[at.key].plan.everyMs as real
  {
    RunKeeps(START, ops, cfg);
    assert SlotSound(Run(START, ops, cfg), slot);
  }

  /** A schedule that never completed starts whenever no lease is in force. */
  lemma NeverRanFires(s: State, at: Slot, now: real, cfg: Config)
    requires Enabled(s, Claim(at, now)) && at.key in s.data && s.data[at.key].lastRun.None?
    requires if s.data[at.key].lease.Some? then s.data[at.key].lease.value.until <= now else 0.0 <= now
    ensures at in Next(s, Claim(at, now), cfg).turns
  {
  }

  /** While a lease is in force nothing starts, due or not. */
  lemma LeasedDoesNotFire(s: State, at: Slot, now: real, cfg: Config)
    requires Enabled(s, Claim(at, now)) && at.key in s.data
    requires s.data[at.key].lease.Some? && now < s.data[at.key].lease.value.until
    ensures Next(s, Claim(at, now), cfg) == s
  {
  }

  // A run that claims at each whole period fires at each.

  /** Claimed and completed at once, a whole period apart. */
  function PunctualRun(slot: Slot, t: real, period: real, n: nat): seq<Op>
    decreases n
  {
    if n == 0 then [Claim(slot, t)] + []
    else [Claim(slot, t)] + ([Complete(slot, t, "ok")]
         + ([TimePasses(t + period)] + PunctualRun(slot, t + period, period, n - 1)))
  }

  /** Nobody runs the schedule, and its last run, if any, is a whole period ago. */
  predicate Resting(s: State, key: Key, everyMs: int) {
    && s.turns == map[] && 0.0 <= s.clock && key in s.data
    && s.data[key].plan.everyMs == everyMs && s.data[key].lease.None?
    && (s.data[key].lastRun.Some? ==> (s.clock - s.data[key].lastRun.value) * 1000.0 >= everyMs as real)
  }

  function Claiming(s: State, slot: Slot, cfg: Config): State
    requires slot.key in s.data
  {
    AfterFiring(s, slot.key).(
      data := s.data[slot.key := s.data[slot.key].(lease := Some(Lease(slot.owner, s.clock + cfg.leaseFor)))],
      turns := s.turns[slot := Turn(s.clock, s.clock + cfg.leaseFor)])
  }

  lemma RestingClaim(s: State, slot: Slot, everyMs: int, cfg: Config)
    requires Resting(s, slot.key, everyMs)
    ensures Next(s, Claim(slot, s.clock), cfg) == Claiming(s, slot, cfg)
  {
  }

  /** A period after the claim was completed. */
  function AfterRound(s: State, slot: Slot, period: real): State
    requires slot.key in s.data
  {
    AfterFiring(s, slot.key).(
      clock := s.clock + period,
      data := s.data[slot.key := s.data[slot.key].(lastRun := Some(s.clock), lastStatus := Some("ok"),
                                                   updated := s.clock, lease := None)])
  }

  lemma RoundRests(s: State, slot: Slot, everyMs: int, period: real)
    requires Resting(s, slot.key, everyMs) && period * 1000.0 == everyMs as real && everyMs > 0
    ensures var after := AfterRound(s, slot, period);
            && Resting(after, slot.key, everyMs) && after.clock == s.clock + period
            && FiredAt(after, slot.key) == FiredAt(s, slot.key) + [s.clock]
  {
  }

  lemma RoundRuns(s: State, slot: Slot, everyMs: int, period: real, cfg: Config)
    requires Resting(s, slot.key, everyMs) && period >= 0.0
    ensures var claimed := Next(s, Claim(slot, s.clock), cfg);
            && Enabled(claimed, Complete(slot, s.clock, "ok"))
            && var completed := Next(claimed, Complete(slot, s.clock, "ok"), cfg);
            && completed.turns == map[] && completed.clock == s.clock
            && Next(completed, TimePasses(s.clock + period), cfg) == AfterRound(s, slot, period)
  {
    RestingClaim(s, slot, everyMs, cfg);
    var completed := Next(Claiming(s, slot, cfg), Complete(slot, s.clock, "ok"), cfg);
    assert completed.turns == map[];
  }

  lemma RoundFirst(s: State, slot: Slot, everyMs: int, period: real, k: nat, b: real, count: nat, cfg: Config)
    requires Resting(s, slot.key, everyMs) && period >= 0.0 && k > 0
    requires Reaches(AfterRound(s, slot, period), PunctualRun(slot, s.clock + period, period, k - 1),
                     slot.key, everyMs, b, count, 0, cfg)
    ensures Reaches(s, PunctualRun(slot, s.clock, period, k), slot.key, everyMs, b, count, 0, cfg)
  {
    RoundRuns(s, slot, everyMs, period, cfg);
    var claimed := Next(s, Claim(slot, s.clock), cfg);
    var completed := Next(claimed, Complete(slot, s.clock, "ok"), cfg);
    ThreeFirst(s, Claim(slot, s.clock), claimed, Complete(slot, s.clock, "ok"), completed,
               TimePasses(s.clock + period), PunctualRun(slot, s.clock + period, period, k - 1), slot.key, everyMs,
               b, count, 0, cfg);
  }

  lemma LastFires(s: State, slot: Slot, everyMs: int, b: real, cfg: Config)
    requires Resting(s, slot.key, everyMs) && s.clock <= b
    ensures Reaches(s, [Claim(slot, s.clock)] + [], slot.key, everyMs, b,
                    CountIn(FiredAt(s, slot.key), 0.0, b) + 1, 0, cfg)
  {
    RestingClaim(s, slot, everyMs, cfg);
    FiringAppends(FiredAt(s, slot.key), s.clock, 0.0, b);
    NothingMore(Claiming(s, slot, cfg), slot.key, everyMs, b, cfg);
    OpFirst(s, Claim(slot, s.clock), [], slot.key, everyMs, b, CountIn(FiredAt(s, slot.key), 0.0, b) + 1, 0, cfg);
  }

  ghost predicate PunctualGood(s: State, slot: Slot, everyMs: int, period: real, k: nat, b: real, cfg: Config) {
    Reaches(s, PunctualRun(slot, s.clock, period, k), slot.key, everyMs, b,
            CountIn(FiredAt(s, slot.key), 0.0, b) + 1 + k, 0, cfg)
  }

  predicate PunctualReady(s: State, slot: Slot, everyMs: int, period: real, k: nat, b: real) {
    Resting(s, slot.key, everyMs) && s.clock + Span(k, period) <= b
  }

  lemma RoundCounts(s: State, slot: Slot, everyMs: int, period: real, k: nat, b: real)
    requires PunctualReady(s, slot, everyMs, period, k, b) && period * 1000.0 == everyMs as real && everyMs > 0
    ensures CountIn(FiredAt(AfterRound(s, slot, period), slot.key), 0.0, b)
            == CountIn(FiredAt(s, slot.key), 0.0, b) + 1
    ensures k > 0 ==> PunctualReady(AfterRound(s, slot, period), slot, everyMs, period, k - 1, b)
  {
    SpanNotNegative(k, period);
    RoundRests(s, slot, everyMs, period);
    FiringAppends(FiredAt(s, slot.key), s.clock, 0.0, b);
  }

  lemma RoundGoesBack(s: State, slot: Slot, everyMs: int, period: real, k: nat, b: real, cfg: Config)
    requires PunctualReady(s, slot, everyMs, period, k, b) && period * 1000.0 == everyMs as real && everyMs > 0
    requires k > 0 && PunctualGood(AfterRound(s, slot, period), slot, everyMs, period, k - 1, b, cfg)
    ensures PunctualGood(s, slot, everyMs, period, k, b, cfg)
  {
    RoundCounts(s, slot, everyMs, period, k, b);
    RoundFirst(s, slot, everyMs, period, k, b, CountIn(FiredAt(s, slot.key), 0.0, b) + 1 + k, cfg);
  }

  /** Going back over one round, with what is good hidden behind a function value. */
  ghost predicate GoesBackOver(good: (State, nat) -> bool, v: State, k: nat, slot: Slot, everyMs: int,
                               period: real, b: real)
  {
    PunctualReady(v, slot, everyMs, period, k, b) ==>
      if k == 0 then good(v, 0)
      else
        && PunctualReady(AfterRound(v, slot, period), slot, everyMs, period, k - 1, b)
        && (good(AfterRound(v, slot, period), k - 1) ==> good(v, k))
  }

  lemma {:induction false} OverPeriods(good: (State, nat) -> bool, s: State, slot: Slot, everyMs: int,
                                       period: real, n: nat, b: real)
    requires PunctualReady(s, slot, everyMs, period, n, b)
    requires forall v: State, k: nat :: GoesBackOver(good, v, k, slot, everyMs, period, b)
    ensures good(s, n)
    decreases n
  {
    assert GoesBackOver(good, s, n, slot, everyMs, period, b);
    if n > 0 {
      OverPeriods(good, AfterRound(s, slot, period), slot, everyMs, period, n - 1, b);
    }
  }

  lemma RoundOrEnd(s: State, slot: Slot, everyMs: int, period: real, k: nat, b: real, cfg: Config)
    requires PunctualReady(s, slot, everyMs, period, k, b) && period * 1000.0 == everyMs as real && everyMs > 0
    ensures k == 0 ==> PunctualGood(s, slot, everyMs, period, 0, b, cfg)
    ensures k > 0 ==>
              var after := AfterRound(s, slot, period);
              && PunctualReady(after, slot, everyMs, period, k - 1, b)
              && (PunctualGood(after, slot, everyMs, period, k - 1, b, cfg) ==>
                    PunctualGood(s, slot, everyMs, period, k, b, cfg))
  {
    if k == 0 {
      LastFires(s, slot, everyMs, b, cfg);
    } else {
      RoundCounts(s, slot, everyMs, period, k, b);
      if PunctualGood(AfterRound(s, slot, period), slot, everyMs, period, k - 1, b, cfg) {
        RoundGoesBack(s, slot, everyMs, period, k, b, cfg);
      }
    }
  }

  lemma PunctualReach(s: State, slot: Slot, everyMs: int, period: real, n: nat, b: real, cfg: Config)
    requires PunctualReady(s, slot, everyMs, period, n, b) && period * 1000.0 == everyMs as real && everyMs > 0
    ensures PunctualGood(s, slot, everyMs, period, n, b, cfg)
  {
    var good := (v: State, k: nat) => PunctualGood(v, slot, everyMs, period, k, b, cfg);
    forall v: State, k: nat
      ensures GoesBackOver(good, v, k, slot, everyMs, period, b)
    {
      if PunctualReady(v, slot, everyMs, period, k, b) {
        RoundOrEnd(v, slot, everyMs, period, k, b, cfg);
      }
    }
    OverPeriods(good, s, slot, everyMs, period, n, b);
  }

  lemma WholePeriods(n: nat, everyMs: int, period: real)
    requires everyMs > 0 && period * 1000.0 == everyMs as real
    ensures 1000.0 * Span(n, period) / everyMs as real == n as real
  {
    SpanMultiplies(n, period);
    assert 1000.0 * (n as real * period) == n as real * everyMs as real;
  }

  /** The companion of the bound on firings: a schedule that is put, and claimed and completed at each
      whole period, fires at each, which is as often as the bare bound allows. */
  lemma PunctualRunReachesBound(slot: Slot, plan: Plan, n: nat, cfg: Config)
    requires Complaint(slot.key.name, plan) == None && cfg.maxPerTenant > 0
    ensures var period := plan.everyMs as real / 1000.0;
            var ops, b := [Put(slot.key, plan)] + PunctualRun(slot, 0.0, period, n), Span(n, period);
            && CanRun(START, ops, cfg) && OrderlyRun(START, ops, cfg)
            && Excuses(START, ops, slot.key, plan.everyMs, cfg) == 0
            && CountIn(FiredAt(Run(START, ops, cfg), slot.key), 0.0, b) == 1 + n
            && (1 + n) as real == 1.0 + 1000.0 * b / plan.everyMs as real
  {
    var key, period := slot.key, plan.everyMs as real / 1000.0;
    var b := Span(n, period);
    var put := START.(data := map[key := FreshEntry(key, plan)]);
    BlankPut(START, key, plan, cfg);
    PunctualReach(put, slot, plan.everyMs, period, n, b, cfg);
    OpFirst(START, Put(key, plan), PunctualRun(slot, 0.0, period, n), key, plan.everyMs, b, 1 + n, 0, cfg);
    WholePeriods(n, plan.everyMs, period);
  }

  // What keeps a schedule.

  /** Something happened to the entry after the cutoff, or a worker holds it past `now`. Times are not
      negative. */
  predicate KeptBySomething(e: Entry, cutoff: real, now: real) {
    || cutoff < e.created
    || cutoff < e.updated
    || (e.lastRun.Some? && cutoff < e.lastRun.value)
    || (e.lease.Some? && now < e.lease.value.until)
  }

  /** The sweep leaves exactly the schedules that something keeps, unchanged. */
  lemma SweptKeeps(data: Table, cutoff: real, now: real, key: Key)
    requires 0.0 <= cutoff && 0.0 <= now && key in data
    ensures key in Swept(data, cutoff, now) <==> KeptBySomething(data[key], cutoff, now)
    ensures key in Swept(data, cutoff, now) ==> Swept(data, cutoff, now)[key] == data[key]
    ensures Swept(data, cutoff, now).Keys <= data.Keys
  {
  }

  /** A session's schedules, and no other's, go with it. */
  lemma SessionGoesAlone(data: Table, tenant: nat, session: string, key: Key)
    requires key in data
    ensures var left := WithoutSession(data, tenant, session);
            && left.Keys <= data.Keys
            && (key in left <==> data[key].tenant != tenant || data[key].plan.session != session)
            && (key in left ==> left[key] == data[key])
  {
  }

  // What a put writes.

  /** The characters a name may hold, and those it may start with. */
  predicate NameChar(c: char) {
    var n := c as int;
    45 <= n <= 46 || 48 <= n <= 57 || 65 <= n <= 90 || n == 95 || 97 <= n <= 122
  }

  predicate GoodName(s: string) {
    && s != "" && |s| < 129
    && s[0] != '-' && s[0] != '.' && s[0] != '_'
    && forall c :: c in s ==> NameChar(c)
  }

  /** A put is refused for the first of its name, session, message, size and interval that is wrong, then
      for a full tenant; a tenant that is full may still replace its own schedules. */
  lemma PutDecides(data: Table, key: Key, plan: Plan, maxPerTenant: nat)
    ensures var r := PutOutcomeOf(data, key, plan, maxPerTenant);
            var size := |set k | k in data && data[k].tenant == key.tenant|;
            if !GoodName(key.name) then r == InvalidName
            else if !GoodName(plan.session) then r == InvalidSession
            else if |plan.message| == 0 then r == InvalidMessage
            else if plan.messageBytes >= 262145 then r == MessageTooLarge
            else if plan.everyMs < 1 then r == InvalidInterval
            else if key !in data && !(size < maxPerTenant) then r == QuotaExceeded
            else r == Stored
  {
    NamesAgree(key.name);
    NamesAgree(plan.session);
    assert OwnedBy(data, key.tenant) == set k | k in data && data[k].tenant == key.tenant;
  }

  lemma NamesAgree(s: string)
    ensures ValidName(s) <==> GoodName(s)
  {
    if GoodName(s) {
      assert NameChar(s[0]);
      forall i | 0 <= i < |s|
        ensures Alphanumeric(s[i]) || s[i] == '.' || s[i] == '_' || s[i] == '-'
      {
        assert NameChar(s[i]);
      }
    }
  }

  /** A put that is not refused writes this plan under this key and nothing else: the run history and the
      date of a schedule it replaces survive, a lease does not. */
  lemma PutWrites(data: Table, key: Key, plan: Plan, now: real, maxPerTenant: nat)
    ensures var after := AfterPut(data, key, plan, now, maxPerTenant);
            if !PutOutcomeOf(data, key, plan, maxPerTenant).Stored? then after == data
            else
              && after.Keys == data.Keys + {key} && after[key].plan == plan
              && after[key].tenant == key.tenant && after[key].updated == now && after[key].lease == None
              && (key !in data ==>
                    after[key].created == now && after[key].lastRun == None && after[key].lastStatus == None)
              && (key in data ==>
                    && after[key].created == data[key].created && after[key].lastRun == data[key].lastRun
                    && after[key].lastStatus == data[key].lastStatus)
              && forall other :: other in data && other != key ==> after[other] == data[other]
  {
  }
}
