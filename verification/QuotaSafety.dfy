/** Whole runs of the quota store: product_service.py, DurableQuotaStore.acquire_turn and settle_turn
    interleaved by any number of workers. */
module QuotaSafety {
  import opened Wrappers
  import opened Remains
  import opened Quota

  /** A settlement that took effect: the lease it closed, the day it was charged to, the tokens
      charged, and by how much the tenant's measured bytes grew. */
  datatype Settlement = Settlement(lease: Lease, day: int, charged: nat, storageGrowth: int, auditGrowth: int)

  /** The tables, the settlements so far, every lease id ever granted, and the latest day seen. */
  datatype World = World(db: Db, settled: seq<Settlement>, issued: set<string>, today: int)

  datatype Op =
    | AcquireOp(tenant: string, session: Option<string>, id: string, now: real)
    | SettleOp(id: string, usage: Option<Tokens>, footprint: Option<Footprint>, now: real)
    | DropOp(tenant: string, dropped: string, cutoff: Option<real>)

  function Growth(before: Db, after: Db, tenant: string, weigh: SessionRow -> nat): int {
    RowSum(after.sessions, tenant, weigh) - RowSum(before.sessions, tenant, weigh)
  }

  function Step(cfg: Config, w: World, op: Op): World {
    match op
    case AcquireOp(tenant, session, id, now) =>
      var (r, db) := Acquire(cfg, w.db, tenant, session, id, now);
      w.(db := db, issued := if r.Leased? then w.issued + {id} else w.issued, today := DayOf(now))
    case SettleOp(id, usage, footprint, now) =>
      var (done, db) := Settle(cfg, w.db, id, usage, footprint, now);
      if !done then w.(today := DayOf(now)) else
      var lease := FindLease(w.db.leases, id).value;
      w.(db := db, today := DayOf(now),
         settled := w.settled + [Settlement(lease, DayOf(now), if cfg.limits.Some? then Charge(usage) else 0,
                                            Growth(w.db, db, lease.tenant, RowStorage),
                                            Growth(w.db, db, lease.tenant, RowAudit))])
    case DropOp(tenant, session, cutoff) =>
      w.(db := w.db.(sessions := DropSession(w.db.sessions, tenant, session, cutoff)))
  }

  /** Transactions commit in day order: none carries a clock reading from before the latest day. */
  ghost predicate InDayOrder(w: World, op: Op) {
    match op
    case AcquireOp(_, _, _, now) => w.today <= DayOf(now)
    case SettleOp(_, _, _, now) => w.today <= DayOf(now)
    case DropOp(_, _, _) => true
  }

  /** Lease ids are never reused. */
  ghost predicate FreshId(w: World, op: Op) {
    op.AcquireOp? ==> op.id !in w.issued
  }

  function Run(cfg: Config, w: World, ops: seq<Op>): World
    decreases |ops|
  {
    if ops == [] then w else Run(cfg, Step(cfg, w, ops[0]), ops[1..])
  }

  ghost predicate RunInDayOrder(cfg: Config, w: World, ops: seq<Op>)
    decreases |ops|
  {
    ops == [] || (InDayOrder(w, ops[0]) && RunInDayOrder(cfg, Step(cfg, w, ops[0]), ops[1..]))
  }

  ghost predicate RunFresh(cfg: Config, w: World, ops: seq<Op>)
    decreases |ops|
  {
    ops == [] || (FreshId(w, ops[0]) && RunFresh(cfg, Step(cfg, w, ops[0]), ops[1..]))
  }

  // Sums over the settlements of one tenant.

  function SettledSum(settled: seq<Settlement>, tenant: string, weigh: Settlement -> nat): nat {
    if settled == [] then 0 else
    var last := settled[|settled| - 1];
    SettledSum(settled[..|settled| - 1], tenant, weigh) + (if last.lease.tenant == tenant then weigh(last) else 0)
  }

  /** Tokens charged to one day. */
  function ChargedOn(day: int): Settlement -> nat {
    (s: Settlement) => if s.day == day then s.charged else 0
  }

  /** By how much one day's settlements overran their token reservations. */
  function TokenOverrunOn(day: int): Settlement -> nat {
    (s: Settlement) => if s.day == day then AtLeastZero(s.charged - s.lease.tokens) else 0
  }

  function StorageOverrun(s: Settlement): nat {
    AtLeastZero(s.storageGrowth - s.lease.storage)
  }

  function AuditOverrun(s: Settlement): nat {
    AtLeastZero(s.auditGrowth - s.lease.audit)
  }

  // What purging, removing and adding leases and rows does to the sums.

  lemma {:induction false} PurgeLowersSum(leases: seq<Lease>, now: real, tenant: string, weigh: Lease -> nat)
    ensures LeaseSum(Purge(leases, now), tenant, weigh) <= LeaseSum(leases, tenant, weigh)
  {
    if leases != [] {
      PurgeLowersSum(leases[1..], now, tenant, weigh);
    }
  }

  lemma {:induction false} AppendLease(leases: seq<Lease>, l: Lease, tenant: string, weigh: Lease -> nat)
    ensures LeaseSum(leases + [l], tenant, weigh)
            == LeaseSum(leases, tenant, weigh) + (if l.tenant == tenant then weigh(l) else 0)
  {
    if leases == [] {
      assert [l][1..] == [];
      assert [] + [l] == [l];
    } else {
      assert (leases + [l])[1..] == leases[1..] + [l];
      AppendLease(leases[1..], l, tenant, weigh);
    }
  }

  lemma {:induction false} WithoutNeverRaises(leases: seq<Lease>, id: string, tenant: string, weigh: Lease -> nat)
    ensures LeaseSum(Without(leases, id), tenant, weigh) <= LeaseSum(leases, tenant, weigh)
  {
    if leases != [] {
      WithoutNeverRaises(leases[1..], id, tenant, weigh);
    }
  }

  lemma {:induction false} RemovalLowersSum(leases: seq<Lease>, id: string, tenant: string, weigh: Lease -> nat)
    requires FindLease(leases, id).Some?
    ensures var l := FindLease(leases, id).value;
            LeaseSum(Without(leases, id), tenant, weigh) + (if l.tenant == tenant then weigh(l) else 0)
            <= LeaseSum(leases, tenant, weigh)
  {
    WithoutNeverRaises(leases[1..], id, tenant, weigh);
    if leases[0].id != id {
      RemovalLowersSum(leases[1..], id, tenant, weigh);
    }
  }

  /** The weight looks at sizes only. */
  ghost predicate WeighsSizes(weigh: SessionRow -> nat) {
    weigh == RowStorage || weigh == RowAudit
  }

  lemma {:induction false} TouchKeepsSum(rows: seq<SessionRow>, tenant: string, session: string, now: real,
      other: string, weigh: SessionRow -> nat)
    requires WeighsSizes(weigh)
    ensures RowSum(Touch(rows, tenant, session, now), other, weigh) == RowSum(rows, other, weigh)
  {
    if rows == [] {
      assert RowSum([SessionRow(tenant, session, 0, 0, now)], other, weigh) == 0;
    } else if !(rows[0].tenant == tenant && rows[0].session == session) {
      TouchKeepsSum(rows[1..], tenant, session, now, other, weigh);
    }
  }

  lemma {:induction false} MeasureKeepsOthers(rows: seq<SessionRow>, tenant: string, f: Footprint,
      other: string, weigh: SessionRow -> nat)
    requires other != tenant
    ensures RowSum(Measure(rows, tenant, f), other, weigh) == RowSum(rows, other, weigh)
  {
    if rows == [] {
      var row := SessionRow(tenant, f.session, AtLeastZero(f.storage), AtLeastZero(f.audit), f.activity);
      assert [row][1..] == [];
      assert RowSum([row], other, weigh) == 0;
    } else if !(rows[0].tenant == tenant && rows[0].session == f.session) {
      MeasureKeepsOthers(rows[1..], tenant, f, other, weigh);
    }
  }

  lemma {:induction false} DropLowersSum(rows: seq<SessionRow>, tenant: string, session: string,
      cutoff: Option<real>, other: string, weigh: SessionRow -> nat)
    ensures RowSum(DropSession(rows, tenant, session, cutoff), other, weigh) <= RowSum(rows, other, weigh)
  {
    if rows != [] {
      DropLowersSum(rows[1..], tenant, session, cutoff, other, weigh);
    }
  }

  lemma SettledSumAppend(settled: seq<Settlement>, s: Settlement, tenant: string, weigh: Settlement -> nat)
    ensures SettledSum(settled + [s], tenant, weigh)
            == SettledSum(settled, tenant, weigh) + (if s.lease.tenant == tenant then weigh(s) else 0)
  {
    assert (settled + [s])[..|settled|] == settled;
  }

  ghost predicate SettledBy(settled: seq<Settlement>, day: int) {
    forall i :: 0 <= i < |settled| ==> settled[i].day <= day
  }

  lemma {:induction false} NothingOnLaterDays(settled: seq<Settlement>, tenant: string, day: int)
    requires forall i :: 0 <= i < |settled| ==> settled[i].day < day
    ensures SettledSum(settled, tenant, ChargedOn(day)) == 0
    ensures SettledSum(settled, tenant, TokenOverrunOn(day)) == 0
  {
    if settled != [] {
      NothingOnLaterDays(settled[..|settled| - 1], tenant, day);
    }
  }

  // The quotas of one tenant.

  ghost predicate TokensBounded(cfg: Config, w: World, tenant: string, day: int)
    requires cfg.limits.Some?
  {
    TokensOn(w.db, tenant, day) + LeaseSum(w.db.leases, tenant, LeaseTokens)
    <= cfg.limits.value.tokensPerDay + SettledSum(w.settled, tenant, TokenOverrunOn(day))
  }

  ghost predicate BytesBounded(cfg: Config, w: World, tenant: string)
    requires cfg.limits.Some?
  {
    && RowSum(w.db.sessions, tenant, RowStorage) + LeaseSum(w.db.leases, tenant, LeaseStorage)
       <= cfg.limits.value.storageMax + SettledSum(w.settled, tenant, StorageOverrun)
    && RowSum(w.db.sessions, tenant, RowAudit) + LeaseSum(w.db.leases, tenant, LeaseAudit)
       <= cfg.limits.value.auditMax + SettledSum(w.settled, tenant, AuditOverrun)
  }

  /** The day's token row is the sum of what the day's settlements charged. */
  ghost predicate LedgerAgrees(w: World, tenant: string, day: int) {
    TokensOn(w.db, tenant, day) == SettledSum(w.settled, tenant, ChargedOn(day))
  }

  ghost predicate TenantInv(cfg: Config, w: World, tenant: string)
    requires cfg.limits.Some?
  {
    && (tenant in w.db.tokens ==> w.db.tokens[tenant].day <= w.today)
    && SettledBy(w.settled, w.today)
    && LeaseSum(w.db.leases, tenant, LeaseTokens) <= cfg.limits.value.tokensPerDay
    && TokensBounded(cfg, w, tenant, w.today)
    && LedgerAgrees(w, tenant, w.today)
    && BytesBounded(cfg, w, tenant)
  }

  /** Day rollover: a new day starts with nothing charged, and only the outstanding reservations. */
  lemma RollOver(cfg: Config, w: World, tenant: string, day: int)
    requires cfg.limits.Some? && TenantInv(cfg, w, tenant) && w.today <= day
    ensures TenantInv(cfg, w.(today := day), tenant)
  {
    if w.today < day {
      NothingOnLaterDays(w.settled, tenant, day);
    }
  }

  lemma AcquireKeepsTenant(cfg: Config, w: World, op: Op, tenant: string)
    requires op.AcquireOp? && cfg.limits.Some? && TenantInv(cfg, w, tenant) && w.today == DayOf(op.now)
    ensures TenantInv(cfg, Step(cfg, w, op), tenant)
  {
    var (r, db) := Acquire(cfg, w.db, op.tenant, op.session, op.id, op.now);
    if r.Leased? {
      var live := Purge(w.db.leases, op.now);
      var lease := db.leases[|live|];
      PurgeLowersSum(w.db.leases, op.now, tenant, LeaseTokens);
      PurgeLowersSum(w.db.leases, op.now, tenant, LeaseStorage);
      PurgeLowersSum(w.db.leases, op.now, tenant, LeaseAudit);
      AppendLease(live, lease, tenant, LeaseTokens);
      AppendLease(live, lease, tenant, LeaseStorage);
      AppendLease(live, lease, tenant, LeaseAudit);
      if op.session.Some? {
        TouchKeepsSum(w.db.sessions, op.tenant, op.session.value, op.now, tenant, RowStorage);
        TouchKeepsSum(w.db.sessions, op.tenant, op.session.value, op.now, tenant, RowAudit);
      }
    }
  }

  lemma SettleAppends(cfg: Config, w: World, op: Op)
    requires op.SettleOp? && FindLease(w.db.leases, op.id).Some?
    ensures var after := Step(cfg, w, op);
            var lease := FindLease(w.db.leases, op.id).value;
            && after.db.leases == Without(w.db.leases, op.id)
            && after.settled == w.settled + [after.settled[|w.settled|]]
            && after.settled[|w.settled|].lease == lease
            && after.settled[|w.settled|].day == after.today == DayOf(op.now)
            && after.settled[|w.settled|].storageGrowth == Growth(w.db, after.db, lease.tenant, RowStorage)
            && after.settled[|w.settled|].auditGrowth == Growth(w.db, after.db, lease.tenant, RowAudit)
            && (cfg.limits.Some? ==> after.settled[|w.settled|].charged == Charge(op.usage))
  {
  }

  lemma SettleKeepsTokens(cfg: Config, w: World, op: Op, tenant: string)
    requires op.SettleOp? && cfg.limits.Some? && TenantInv(cfg, w, tenant) && w.today == DayOf(op.now)
    requires FindLease(w.db.leases, op.id).Some?
    ensures var after := Step(cfg, w, op);
            && (tenant in after.db.tokens ==> after.db.tokens[tenant].day <= after.today)
            && SettledBy(after.settled, after.today)
            && LeaseSum(after.db.leases, tenant, LeaseTokens) <= cfg.limits.value.tokensPerDay
            && TokensBounded(cfg, after, tenant, after.today)
            && LedgerAgrees(after, tenant, after.today)
  {
    var after := Step(cfg, w, op);
    SettleAppends(cfg, w, op);
    SettleCharges(cfg, w, op, tenant);
    SettlementKeepsTokens(cfg, w, after, after.settled[|w.settled|], op.id, tenant);
  }

  /** A settlement raises the day's tokens of its own tenant by what it charges. */
  lemma SettleCharges(cfg: Config, w: World, op: Op, tenant: string)
    requires op.SettleOp? && cfg.limits.Some? && w.today == DayOf(op.now)
    requires FindLease(w.db.leases, op.id).Some?
    requires tenant in w.db.tokens ==> w.db.tokens[tenant].day <= w.today
    ensures var db := Step(cfg, w, op).db;
            && (tenant in db.tokens ==> db.tokens[tenant].day <= w.today)
            && TokensOn(db, tenant, w.today) == TokensOn(w.db, tenant, w.today)
               + (if FindLease(w.db.leases, op.id).value.tenant == tenant then Charge(op.usage) else 0)
  {
  }

  lemma SettlementKeepsTokens(cfg: Config, w: World, after: World, s: Settlement, id: string, tenant: string)
    requires cfg.limits.Some? && TenantInv(cfg, w, tenant)
    requires FindLease(w.db.leases, id) == Some(s.lease) && s.day == after.today == w.today
    requires after.db.leases == Without(w.db.leases, id) && after.settled == w.settled + [s]
    requires TokensOn(after.db, tenant, w.today)
             == TokensOn(w.db, tenant, w.today) + (if s.lease.tenant == tenant then s.charged else 0)
    ensures SettledBy(after.settled, after.today)
    ensures LeaseSum(after.db.leases, tenant, LeaseTokens) <= cfg.limits.value.tokensPerDay
    ensures TokensBounded(cfg, after, tenant, after.today) && LedgerAgrees(after, tenant, after.today)
  {
    RemovalLowersSum(w.db.leases, id, tenant, LeaseTokens);
    SettledSumAppend(w.settled, s, tenant, ChargedOn(w.today));
    SettledSumAppend(w.settled, s, tenant, TokenOverrunOn(w.today));
  }

  lemma SettleKeepsBytes(cfg: Config, w: World, op: Op, tenant: string)
    requires op.SettleOp? && cfg.limits.Some? && BytesBounded(cfg, w, tenant)
    requires FindLease(w.db.leases, op.id).Some?
    ensures BytesBounded(cfg, Step(cfg, w, op), tenant)
  {
    var after := Step(cfg, w, op);
    SettleAppends(cfg, w, op);
    var s := after.settled[|w.settled|];
    RemovalLowersSum(w.db.leases, op.id, tenant, LeaseStorage);
    RemovalLowersSum(w.db.leases, op.id, tenant, LeaseAudit);
    SettledSumAppend(w.settled, s, tenant, StorageOverrun);
    SettledSumAppend(w.settled, s, tenant, AuditOverrun);
    if s.lease.tenant != tenant && op.footprint.Some? {
      MeasureKeepsOthers(w.db.sessions, s.lease.tenant, op.footprint.value, tenant, RowStorage);
      MeasureKeepsOthers(w.db.sessions, s.lease.tenant, op.footprint.value, tenant, RowAudit);
    }
  }

  lemma StepKeepsTenant(cfg: Config, w: World, op: Op, tenant: string)
    requires cfg.limits.Some? && TenantInv(cfg, w, tenant) && InDayOrder(w, op)
    ensures TenantInv(cfg, Step(cfg, w, op), tenant)
  {
    match op
    case AcquireOp(_, _, _, now) =>
      RollOver(cfg, w, tenant, DayOf(now));
      AcquireKeepsTenant(cfg, w.(today := DayOf(now)), op, tenant);
    case SettleOp(id, _, _, now) =>
      RollOver(cfg, w, tenant, DayOf(now));
      if FindLease(w.db.leases, id).Some? {
        SettleKeepsTokens(cfg, w.(today := DayOf(now)), op, tenant);
        SettleKeepsBytes(cfg, w.(today := DayOf(now)), op, tenant);
      }
    case DropOp(t, session, cutoff) =>
      DropLowersSum(w.db.sessions, t, session, cutoff, tenant, RowStorage);
      DropLowersSum(w.db.sessions, t, session, cutoff, tenant, RowAudit);
  }

  lemma {:induction false} RunKeepsTenant(cfg: Config, w: World, ops: seq<Op>, tenant: string)
    requires cfg.limits.Some? && TenantInv(cfg, w, tenant) && RunInDayOrder(cfg, w, ops)
    ensures TenantInv(cfg, Run(cfg, w, ops), tenant)
    decreases |ops|
  {
    if ops != [] {
      StepKeepsTenant(cfg, w, ops[0], tenant);
      RunKeepsTenant(cfg, Step(cfg, w, ops[0]), ops[1..], tenant);
    }
  }

  const EMPTY: Db := Db([], map[], map[], [])

  /** Over every run from an empty store whose transactions commit in day order, across expiry and
      day rollover, for every tenant and from the latest day on: tokens charged plus tokens reserved
      stay within the daily quota plus that day's overruns; the day's row is exactly what the day's
      settlements charged; and stored and audited bytes plus their reservations stay within theirs
      plus the settlements' overruns. */
  lemma QuotasHoldOverRuns(cfg: Config, ops: seq<Op>, tenant: string, start: int, day: int)
    requires cfg.limits.Some?
    requires RunInDayOrder(cfg, World(EMPTY, [], {}, start), ops)
    requires day >= Run(cfg, World(EMPTY, [], {}, start), ops).today
    ensures var w := Run(cfg, World(EMPTY, [], {}, start), ops);
            TokensBounded(cfg, w, tenant, day) && LedgerAgrees(w, tenant, day) && BytesBounded(cfg, w, tenant)
  {
    var w0 := World(EMPTY, [], {}, start);
    assert TenantInv(cfg, w0, tenant);
    RunKeepsTenant(cfg, w0, ops, tenant);
    RollOver(cfg, Run(cfg, w0, ops), tenant, day);
  }

  /** No settlement took more than its lease had reserved. */
  ghost predicate WithinReservations(settled: seq<Settlement>) {
    forall i :: 0 <= i < |settled| ==> WithinReservation(settled[i])
  }

  predicate WithinReservation(s: Settlement) {
    s.charged <= s.lease.tokens && s.storageGrowth <= s.lease.storage && s.auditGrowth <= s.lease.audit
  }

  lemma {:induction false} NothingOverrun(settled: seq<Settlement>, tenant: string, day: int)
    requires WithinReservations(settled)
    ensures SettledSum(settled, tenant, TokenOverrunOn(day)) == 0
    ensures SettledSum(settled, tenant, StorageOverrun) == 0
    ensures SettledSum(settled, tenant, AuditOverrun) == 0
  {
    if settled != [] {
      assert WithinReservation(settled[|settled| - 1]);
      NothingOverrun(settled[..|settled| - 1], tenant, day);
    }
  }

  /** Where no turn takes more than it reserved, the quotas themselves hold: tokens charged plus reserved
      within the day's, and bytes measured plus reserved within the tenant's. */
  lemma QuotasHoldWithinReservations(cfg: Config, ops: seq<Op>, tenant: string, start: int, day: int)
    requires cfg.limits.Some?
    requires RunInDayOrder(cfg, World(EMPTY, [], {}, start), ops)
    requires day >= Run(cfg, World(EMPTY, [], {}, start), ops).today
    requires WithinReservations(Run(cfg, World(EMPTY, [], {}, start), ops).settled)
    ensures var db := Run(cfg, World(EMPTY, [], {}, start), ops).db;
            && TokensOn(db, tenant, day) + LeaseSum(db.leases, tenant, LeaseTokens) <= cfg.limits.value.tokensPerDay
            && RowSum(db.sessions, tenant, RowStorage) + LeaseSum(db.leases, tenant, LeaseStorage)
               <= cfg.limits.value.storageMax
            && RowSum(db.sessions, tenant, RowAudit) + LeaseSum(db.leases, tenant, LeaseAudit)
               <= cfg.limits.value.auditMax
  {
    QuotasHoldOverRuns(cfg, ops, tenant, start, day);
    NothingOverrun(Run(cfg, World(EMPTY, [], {}, start), ops).settled, tenant, day);
  }

  // Concurrency, with no assumption about clocks.

  lemma StepKeepsCount(cfg: Config, w: World, op: Op, tenant: string)
    requires LeaseSum(w.db.leases, tenant, One) <= cfg.maxTurns
    ensures LeaseSum(Step(cfg, w, op).db.leases, tenant, One) <= cfg.maxTurns
  {
    match op
    case AcquireOp(t, session, id, now) =>
      var (r, db) := Acquire(cfg, w.db, t, session, id, now);
      if r.Leased? {
        var live := Purge(w.db.leases, now);
        PurgeLowersSum(w.db.leases, now, tenant, One);
        AppendLease(live, db.leases[|live|], tenant, One);
      }
    case SettleOp(id, _, _, _) => WithoutNeverRaises(w.db.leases, id, tenant, One);
    case DropOp(_, _, _) =>
  }

  /** However clocks behave, a tenant never holds more leases than its concurrency limit. */
  lemma {:induction false} LeasesNeverExceedLimit(cfg: Config, w: World, ops: seq<Op>, tenant: string)
    requires LeaseSum(w.db.leases, tenant, One) <= cfg.maxTurns
    ensures LeaseSum(Run(cfg, w, ops).db.leases, tenant, One) <= cfg.maxTurns
    decreases |ops|
  {
    if ops != [] {
      StepKeepsCount(cfg, w, ops[0], tenant);
      LeasesNeverExceedLimit(cfg, Step(cfg, w, ops[0]), ops[1..], tenant);
    }
  }

  // The day order is needed.

  /** What the store demands of its configuration. */
  predicate Configured(cfg: Config) {
    && cfg.maxTurns > 0 && cfg.limits.Some?
    && 0 < cfg.limits.value.tokenReserve <= cfg.limits.value.tokensPerDay
    && cfg.limits.value.storageReserve <= cfg.limits.value.storageMax
    && cfg.limits.value.auditReserve <= cfg.limits.value.auditMax
  }

  /** A tenant without leases or sessions of which `spent` tokens were charged today, none of them
      beyond a reservation. */
  ghost predicate Idle(w: World, tenant: string, spent: nat) {
    && w.db.leases == [] && w.db.sessions == []
    && TokensOn(w.db, tenant, w.today) == spent
    && SettledSum(w.settled, tenant, TokenOverrunOn(w.today)) == 0
  }

  /** Lease ids of different lengths. */
  function Id(n: nat): string {
    seq(n, _ => 'x')
  }

  ghost predicate IssuedBelow(w: World, n: nat) {
    forall id :: id in w.issued ==> |id| < n
  }

  function AcquireNow(tenant: string, n: nat, now: real): Op {
    AcquireOp(tenant, None, Id(n), now)
  }

  function SpendReserve(cfg: Config, n: nat, now: real): Op {
    SettleOp(Id(n), Some(TokenUse(cfg.Reserve().tokenReserve, 0)), None, now)
  }

  function Round(cfg: Config, tenant: string, n: nat, now: real): seq<Op> {
    [AcquireNow(tenant, n, now), SpendReserve(cfg, n, now)]
  }

  /** Turns one after the other, each spending exactly what it reserved, until today's quota leaves no
      room for another. */
  function SpendDay(cfg: Config, tenant: string, spent: nat, n: nat, now: real): seq<Op>
    requires Configured(cfg)
    decreases cfg.limits.value.tokensPerDay - spent
  {
    if spent + cfg.limits.value.tokenReserve > cfg.limits.value.tokensPerDay then []
    else
      Round(cfg, tenant, n, now) + SpendDay(cfg, tenant, spent + cfg.limits.value.tokenReserve, n + 1, now)
  }

  function LeaseFor(cfg: Config, tenant: string, n: nat, now: real): Lease {
    Lease(Id(n), tenant, now + cfg.leaseS, cfg.Reserve().tokenReserve, cfg.Reserve().storageReserve,
          cfg.Reserve().auditReserve)
  }

  lemma IdleAcquire(cfg: Config, w: World, tenant: string, n: nat, now: real)
    requires Configured(cfg) && w.db.leases == [] && w.db.sessions == []
    requires TokensOn(w.db, tenant, DayOf(now)) + cfg.limits.value.tokenReserve <= cfg.limits.value.tokensPerDay
    ensures var after := Step(cfg, w, AcquireNow(tenant, n, now));
            && after.db == w.db.(leases := [LeaseFor(cfg, tenant, n, now)])
            && after.settled == w.settled && after.issued == w.issued + {Id(n)} && after.today == DayOf(now)
  {
    assert Purge([], now) == [];
    assert [] + [LeaseFor(cfg, tenant, n, now)] == [LeaseFor(cfg, tenant, n, now)];
  }

  lemma IdleSettle(cfg: Config, w: World, tenant: string, spent: nat, n: nat, now: real, then': World)
    requires Configured(cfg) && Idle(w, tenant, spent) && w.today == DayOf(now)
    requires then' == w.(db := w.db.(leases := [LeaseFor(cfg, tenant, n, now)]), issued := w.issued + {Id(n)})
    ensures var after := Step(cfg, then', SpendReserve(cfg, n, now));
            && Idle(after, tenant, spent + cfg.limits.value.tokenReserve)
            && after.today == w.today && after.issued == w.issued + {Id(n)}
  {
    var op := SpendReserve(cfg, n, now);
    var lease := LeaseFor(cfg, tenant, n, now);
    assert FindLease([lease], Id(n)) == Some(lease);
    assert [lease][1..] == [];
    assert Without([lease], Id(n)) == [];
    SettleAppends(cfg, then', op);
    var after := Step(cfg, then', op);
    SettledSumAppend(w.settled, after.settled[|w.settled|], tenant, TokenOverrunOn(w.today));
  }

  lemma RunTwo(cfg: Config, w: World, a: Op, b: Op, rest: seq<Op>)
    requires InDayOrder(w, a) && FreshId(w, a)
    requires InDayOrder(Step(cfg, w, a), b) && FreshId(Step(cfg, w, a), b)
    ensures var w2 := Step(cfg, Step(cfg, w, a), b);
            RunInDayOrder(cfg, w2, rest) && RunFresh(cfg, w2, rest) ==>
              RunInDayOrder(cfg, w, [a, b] + rest) && RunFresh(cfg, w, [a, b] + rest)
    ensures Run(cfg, w, [a, b] + rest) == Run(cfg, Step(cfg, Step(cfg, w, a), b), rest)
  {
    var ops := [a, b] + rest;
    assert ops[1..] == [b] + rest;
    assert ([b] + rest)[1..] == rest;
  }

  /** Idle, and today's quota has no room for another reservation. */
  ghost predicate SpentUp(cfg: Config, w: World, tenant: string)
    requires cfg.limits.Some?
  {
    exists total: nat ::
      Idle(w, tenant, total) && total + cfg.limits.value.tokenReserve > cfg.limits.value.tokensPerDay
  }

  lemma SpendRound(cfg: Config, w: World, tenant: string, spent: nat, n: nat, now: real) returns (w2: World)
    requires Configured(cfg) && Idle(w, tenant, spent) && w.today == DayOf(now) && IssuedBelow(w, n)
    requires spent + cfg.limits.value.tokenReserve <= cfg.limits.value.tokensPerDay
    ensures var acquire, settle := AcquireNow(tenant, n, now), SpendReserve(cfg, n, now);
            && InDayOrder(w, acquire) && FreshId(w, acquire)
            && InDayOrder(Step(cfg, w, acquire), settle) && FreshId(Step(cfg, w, acquire), settle)
            && w2 == Step(cfg, Step(cfg, w, acquire), settle)
    ensures Idle(w2, tenant, spent + cfg.limits.value.tokenReserve) && w2.today == DayOf(now)
    ensures IssuedBelow(w2, n + 1)
  {
    var w1 := Step(cfg, w, AcquireNow(tenant, n, now));
    IdleAcquire(cfg, w, tenant, n, now);
    IdleSettle(cfg, w, tenant, spent, n, now, w1);
    w2 := Step(cfg, w1, SpendReserve(cfg, n, now));
  }

  /** A run in day order with fresh ids that spends the day up. */
  ghost predicate Spends(cfg: Config, w: World, ops: seq<Op>, after: World, tenant: string, n: nat)
    requires cfg.limits.Some?
  {
    && RunInDayOrder(cfg, w, ops) && RunFresh(cfg, w, ops) && after == Run(cfg, w, ops)
    && after.today == w.today && IssuedBelow(after, n + |ops|) && SpentUp(cfg, after, tenant)
  }

  lemma NothingToSpend(cfg: Config, w: World, tenant: string, spent: nat, n: nat)
    requires Configured(cfg) && Idle(w, tenant, spent) && IssuedBelow(w, n)
    requires spent + cfg.limits.value.tokenReserve > cfg.limits.value.tokensPerDay
    ensures Spends(cfg, w, [], w, tenant, n)
  {
  }

  lemma RoundFirst(cfg: Config, w: World, a: Op, b: Op, w2: World, rest: seq<Op>, after: World, tenant: string,
                   n: nat)
    requires cfg.limits.Some? && w2 == Step(cfg, Step(cfg, w, a), b) && w2.today == w.today
    requires InDayOrder(w, a) && FreshId(w, a)
    requires InDayOrder(Step(cfg, w, a), b) && FreshId(Step(cfg, w, a), b)
    requires Spends(cfg, w2, rest, after, tenant, n + 1)
    ensures Spends(cfg, w, [a, b] + rest, after, tenant, n)
  {
    RunTwo(cfg, w, a, b, rest);
    forall id | id in after.issued
      ensures |id| < n + |[a, b] + rest|
    {
    }
  }

  /** What runs to the end from w2 does so from w with one round ahead of it. */
  ghost predicate Leads(runs: (World, seq<Op>, World, nat) -> bool, w: World, w2: World, round: seq<Op>, n: nat) {
    forall rest, after :: runs(w2, rest, after, n + 1) ==> runs(w, round + rest, after, n)
  }

  /** A world in which `total` tokens are spent is at its end, or one round leads on from it. */
  ghost predicate GoesOn(cfg: Config, tenant: string, now: real, ready: (World, nat, nat) -> bool,
      runs: (World, seq<Op>, World, nat) -> bool, w: World, total: nat, n: nat)
    requires Configured(cfg)
  {
    ready(w, total, n) ==>
      if total + cfg.limits.value.tokenReserve > cfg.limits.value.tokensPerDay then runs(w, [], w, n)
      else exists w2 ::
             && ready(w2, total + cfg.limits.value.tokenReserve, n + 1)
             && Leads(runs, w, w2, Round(cfg, tenant, n, now), n)
  }

  lemma {:induction false} RoundsRun(cfg: Config, tenant: string, now: real, ready: (World, nat, nat) -> bool,
      runs: (World, seq<Op>, World, nat) -> bool, w: World, total: nat, n: nat) returns (after: World)
    requires Configured(cfg) && ready(w, total, n)
    requires forall v: World, spent: nat, k: nat :: GoesOn(cfg, tenant, now, ready, runs, v, spent, k)
    ensures runs(w, SpendDay(cfg, tenant, total, n, now), after, n)
    decreases cfg.limits.value.tokensPerDay - total
  {
    assert GoesOn(cfg, tenant, now, ready, runs, w, total, n);
    var more := total + cfg.limits.value.tokenReserve;
    if more > cfg.limits.value.tokensPerDay {
      after := w;
    } else {
      var w2 :| ready(w2, more, n + 1) && Leads(runs, w, w2, Round(cfg, tenant, n, now), n);
      after := RoundsRun(cfg, tenant, now, ready, runs, w2, more, n + 1);
    }
  }

  ghost predicate Ready(w: World, tenant: string, spent: nat, n: nat, now: real) {
    Idle(w, tenant, spent) && w.today == DayOf(now) && IssuedBelow(w, n)
  }

  /** One round goes ahead of whatever spends up the rest of the day. */
  lemma RoundLeads(cfg: Config, w: World, tenant: string, spent: nat, n: nat, now: real) returns (w2: World)
    requires Configured(cfg) && Ready(w, tenant, spent, n, now)
    requires spent + cfg.limits.value.tokenReserve <= cfg.limits.value.tokensPerDay
    ensures Ready(w2, tenant, spent + cfg.limits.value.tokenReserve, n + 1, now)
    ensures forall rest, after :: Spends(cfg, w2, rest, after, tenant, n + 1) ==>
              Spends(cfg, w, Round(cfg, tenant, n, now) + rest, after, tenant, n)
  {
    w2 := SpendRound(cfg, w, tenant, spent, n, now);
    forall rest, after | Spends(cfg, w2, rest, after, tenant, n + 1)
      ensures Spends(cfg, w, Round(cfg, tenant, n, now) + rest, after, tenant, n)
    {
      RoundFirst(cfg, w, AcquireNow(tenant, n, now), SpendReserve(cfg, n, now), w2, rest, after, tenant, n);
    }
  }

  lemma SpendDayRuns(cfg: Config, w: World, tenant: string, spent: nat, n: nat, now: real)
    returns (after: World)
    requires Configured(cfg) && Ready(w, tenant, spent, n, now)
    ensures Spends(cfg, w, SpendDay(cfg, tenant, spent, n, now), after, tenant, n)
  {
    var ready := (v: World, total: nat, k: nat) => Ready(v, tenant, total, k, now);
    var runs := (v: World, ops: seq<Op>, end: World, k: nat) => Spends(cfg, v, ops, end, tenant, k);
    forall v: World, total: nat, k: nat
      ensures GoesOn(cfg, tenant, now, ready, runs, v, total, k)
    {
      if ready(v, total, k) {
        if total + cfg.limits.value.tokenReserve > cfg.limits.value.tokensPerDay {
          NothingToSpend(cfg, v, tenant, total, k);
        } else {
          var v2 := RoundLeads(cfg, v, tenant, total, k, now);
          assert ready(v2, total + cfg.limits.value.tokenReserve, k + 1);
          assert Leads(runs, v, v2, Round(cfg, tenant, k, now), k);
        }
      }
    }
    after := RoundsRun(cfg, tenant, now, ready, runs, w, spent, n);
  }

  /** acquire_turn reads its clock before it holds the write lock. Under every configuration and for
      every two days: turns that each spend what they reserved use the later day up, in day order and
      without any overrun; then a single acquire that carries a reading from the earlier day is
      granted, and the later day's tokens plus reservations exceed the bound. */
  lemma StaleDayExceedsQuota(cfg: Config, tenant: string, early: real, late: real)
    requires Configured(cfg) && DayOf(early) < DayOf(late)
    ensures var start := World(EMPTY, [], {}, DayOf(late));
            var ops := SpendDay(cfg, tenant, 0, 0, late);
            var spent := Run(cfg, start, ops);
            var stale := AcquireNow(tenant, |ops|, early);
            && RunInDayOrder(cfg, start, ops) && RunFresh(cfg, start, ops)
            && spent.today == DayOf(late) && TokensBounded(cfg, spent, tenant, DayOf(late))
            && FreshId(spent, stale) && !InDayOrder(spent, stale)
            && !TokensBounded(cfg, Step(cfg, spent, stale), tenant, DayOf(late))
  {
    var start := World(EMPTY, [], {}, DayOf(late));
    var ops := SpendDay(cfg, tenant, 0, 0, late);
    var spent := SpendDayRuns(cfg, start, tenant, 0, 0, late);
    var total: nat :| Idle(spent, tenant, total)
                      && total + cfg.limits.value.tokenReserve > cfg.limits.value.tokensPerDay;
    QuotasHoldOverRuns(cfg, ops, tenant, DayOf(late), DayOf(late));
    RunKeepsTenant(cfg, start, ops, tenant);
    IdleAcquire(cfg, spent, tenant, |ops|, early);
  }

  /** In any state that kept the bound so far, a granted acquire breaks it for the latest day exactly
      when its reading is from an earlier day and that day's tokens, reservations and the new
      reservation no longer fit. */
  lemma AcquireBreaksBoundIff(cfg: Config, w: World, op: Op, tenant: string)
    requires cfg.limits.Some? && TenantInv(cfg, w, tenant) && op.AcquireOp? && op.tenant == tenant
    requires Acquire(cfg, w.db, tenant, op.session, op.id, op.now).0.Leased?
    ensures var day := if w.today < DayOf(op.now) then DayOf(op.now) else w.today;
            !TokensBounded(cfg, Step(cfg, w, op), tenant, day) <==>
              && DayOf(op.now) < w.today
              && TokensOn(w.db, tenant, w.today) + LeaseSum(Purge(w.db.leases, op.now), tenant, LeaseTokens)
                 + cfg.limits.value.tokenReserve
                 > cfg.limits.value.tokensPerDay + SettledSum(w.settled, tenant, TokenOverrunOn(w.today))
  {
    var live := Purge(w.db.leases, op.now);
    var db := Acquire(cfg, w.db, tenant, op.session, op.id, op.now).1;
    AppendLease(live, db.leases[|live|], tenant, LeaseTokens);
    if w.today <= DayOf(op.now) {
      StepKeepsTenant(cfg, w, op, tenant);
    }
  }

  // Every lease leaves the table once.

  ghost predicate InTable(leases: seq<Lease>, id: string) {
    FindLease(leases, id).Some?
  }

  ghost predicate SettledIds(settled: seq<Settlement>, id: string) {
    exists i :: 0 <= i < |settled| && settled[i].lease.id == id
  }

  ghost predicate OnceInv(w: World) {
    && (forall id :: InTable(w.db.leases, id) ==> id in w.issued && !SettledIds(w.settled, id))
    && (forall i :: 0 <= i < |w.settled| ==> w.settled[i].lease.id in w.issued)
    && (forall i, j :: 0 <= i < j < |w.settled| ==> w.settled[i].lease.id != w.settled[j].lease.id)
  }

  lemma {:induction false} FindInPurged(leases: seq<Lease>, now: real, id: string)
    ensures InTable(Purge(leases, now), id) ==> InTable(leases, id)
  {
    if leases != [] {
      FindInPurged(leases[1..], now, id);
    }
  }

  lemma {:induction false} FindInAppended(leases: seq<Lease>, l: Lease, id: string)
    ensures InTable(leases + [l], id) <==> InTable(leases, id) || l.id == id
  {
    if leases == [] {
      assert [] + [l] == [l];
    } else {
      assert (leases + [l])[1..] == leases[1..] + [l];
      FindInAppended(leases[1..], l, id);
    }
  }

  lemma {:induction false} FindInWithout(leases: seq<Lease>, gone: string, id: string)
    ensures InTable(Without(leases, gone), id) <==> InTable(leases, id) && id != gone
  {
    if leases != [] {
      FindInWithout(leases[1..], gone, id);
    }
  }

  lemma {:induction false} FoundHasId(leases: seq<Lease>, id: string)
    ensures InTable(leases, id) ==> FindLease(leases, id).value.id == id
  {
    if leases != [] {
      FoundHasId(leases[1..], id);
    }
  }

  /** Which leases a step leaves in the table. */
  lemma TableAfter(cfg: Config, w: World, op: Op, id: string)
    ensures var after := Step(cfg, w, op);
            InTable(after.db.leases, id) ==>
              InTable(w.db.leases, id) || (op.AcquireOp? && op.id == id && id in after.issued)
    ensures op.SettleOp? && op.id == id ==> !InTable(Step(cfg, w, op).db.leases, id)
  {
    match op
    case AcquireOp(t, session, granted, now) =>
      var (r, db) := Acquire(cfg, w.db, t, session, granted, now);
      if r.Leased? {
        var live := Purge(w.db.leases, now);
        FindInPurged(w.db.leases, now, id);
        FindInAppended(live, db.leases[|live|], id);
      }
    case SettleOp(gone, _, _, _) => FindInWithout(w.db.leases, gone, id);
    case DropOp(_, _, _) =>
  }

  lemma StepKeepsOnce(cfg: Config, w: World, op: Op)
    requires OnceInv(w) && FreshId(w, op)
    ensures OnceInv(Step(cfg, w, op))
  {
    var after := Step(cfg, w, op);
    var settles := op.SettleOp? && InTable(w.db.leases, op.id);
    if settles {
      SettleAppends(cfg, w, op);
      FoundHasId(w.db.leases, op.id);
    }
    forall id | InTable(after.db.leases, id)
      ensures id in after.issued && !SettledIds(after.settled, id)
    {
      TableAfter(cfg, w, op, id);
    }
  }

  /** A lease that has left the table, settled or expired, never comes back, and settling it again
      reports False and changes nothing. */
  lemma {:induction false} GoneStaysGone(cfg: Config, w: World, ops: seq<Op>, id: string)
    requires id in w.issued && !InTable(w.db.leases, id) && RunFresh(cfg, w, ops)
    ensures var after := Run(cfg, w, ops);
            && !InTable(after.db.leases, id)
            && forall usage, footprint, now ::
                 Settle(cfg, after.db, id, usage, footprint, now) == (false, after.db)
    decreases |ops|
  {
    if ops != [] {
      TableAfter(cfg, w, ops[0], id);
      GoneStaysGone(cfg, Step(cfg, w, ops[0]), ops[1..], id);
    }
  }

  /** No lease is ever settled twice in a run. */
  lemma {:induction false} SettledAtMostOnce(cfg: Config, w: World, ops: seq<Op>)
    requires OnceInv(w) && RunFresh(cfg, w, ops)
    ensures OnceInv(Run(cfg, w, ops))
    decreases |ops|
  {
    if ops != [] {
      StepKeepsOnce(cfg, w, ops[0]);
      SettledAtMostOnce(cfg, Step(cfg, w, ops[0]), ops[1..]);
    }
  }

  // Isolation between tenants.

  function Actor(w: World, op: Op): Option<string> {
    match op
    case AcquireOp(t, _, _, _) => Some(t)
    case SettleOp(id, _, _, _) =>
      (match FindLease(w.db.leases, id) case None => None case Some(l) => Some(l.tenant))
    case DropOp(t, _, _) => Some(t)
  }

  function LeasesOf(leases: seq<Lease>, tenant: string): seq<Lease> {
    if leases == [] then []
    else if leases[0].tenant == tenant then [leases[0]] + LeasesOf(leases[1..], tenant)
    else LeasesOf(leases[1..], tenant)
  }

  function RowsOf(rows: seq<SessionRow>, tenant: string): seq<SessionRow> {
    if rows == [] then []
    else if rows[0].tenant == tenant then [rows[0]] + RowsOf(rows[1..], tenant)
    else RowsOf(rows[1..], tenant)
  }

  lemma {:induction false} LeasesOfAre(leases: seq<Lease>, tenant: string)
    ensures Remain(leases, LeasesOf(leases, tenant), (l: Lease) => l.tenant == tenant)
  {
    var own := (l: Lease) => l.tenant == tenant;
    if leases == [] {
      NothingRemains(own);
    } else {
      LeasesOfAre(leases[1..], tenant);
      RemainCons(leases[0], leases[1..], LeasesOf(leases[1..], tenant), own);
      assert [leases[0]] + leases[1..] == leases;
    }
  }

  lemma {:induction false} RowsOfAre(rows: seq<SessionRow>, tenant: string)
    ensures Remain(rows, RowsOf(rows, tenant), (r: SessionRow) => r.tenant == tenant)
  {
    var own := (r: SessionRow) => r.tenant == tenant;
    if rows == [] {
      NothingRemains(own);
    } else {
      RowsOfAre(rows[1..], tenant);
      RemainCons(rows[0], rows[1..], RowsOf(rows[1..], tenant), own);
      assert [rows[0]] + rows[1..] == rows;
    }
  }

  lemma {:induction false} PurgeCommutes(leases: seq<Lease>, now: real, tenant: string)
    ensures LeasesOf(Purge(leases, now), tenant) == Purge(LeasesOf(leases, tenant), now)
  {
    if leases != [] {
      PurgeCommutes(leases[1..], now, tenant);
    }
  }

  lemma {:induction false} LeasesOfAppend(leases: seq<Lease>, l: Lease, tenant: string)
    requires l.tenant != tenant
    ensures LeasesOf(leases + [l], tenant) == LeasesOf(leases, tenant)
  {
    if leases == [] {
      assert [] + [l] == [l];
    } else {
      assert (leases + [l])[1..] == leases[1..] + [l];
      LeasesOfAppend(leases[1..], l, tenant);
    }
  }

  /** The primary key: an id names one lease. */
  ghost predicate DistinctIds(leases: seq<Lease>) {
    leases != [] ==> !InTable(leases[1..], leases[0].id) && DistinctIds(leases[1..])
  }

  lemma {:induction false} PurgeKeepsDistinct(leases: seq<Lease>, now: real)
    requires DistinctIds(leases)
    ensures DistinctIds(Purge(leases, now))
  {
    if leases != [] {
      PurgeKeepsDistinct(leases[1..], now);
      FindInPurged(leases[1..], now, leases[0].id);
    }
  }

  lemma {:induction false} AppendKeepsDistinct(leases: seq<Lease>, l: Lease)
    requires DistinctIds(leases) && !InTable(leases, l.id)
    ensures DistinctIds(leases + [l])
  {
    if leases == [] {
      assert [] + [l] == [l];
    } else {
      assert (leases + [l])[1..] == leases[1..] + [l];
      AppendKeepsDistinct(leases[1..], l);
      FindInAppended(leases[1..], l, leases[0].id);
    }
  }

  lemma {:induction false} WithoutKeepsDistinct(leases: seq<Lease>, id: string)
    requires DistinctIds(leases)
    ensures DistinctIds(Without(leases, id))
  {
    if leases != [] {
      WithoutKeepsDistinct(leases[1..], id);
      FindInWithout(leases[1..], id, leases[0].id);
    }
  }

  /** The primary key holds throughout every run. */
  lemma {:induction false} IdsStayDistinct(cfg: Config, w: World, ops: seq<Op>)
    requires DistinctIds(w.db.leases)
    ensures DistinctIds(Run(cfg, w, ops).db.leases)
    decreases |ops|
  {
    if ops != [] {
      match ops[0] {
        case AcquireOp(t, session, id, now) =>
          var (r, db) := Acquire(cfg, w.db, t, session, id, now);
          PurgeKeepsDistinct(w.db.leases, now);
          if r.Leased? {
            AppendKeepsDistinct(Purge(w.db.leases, now), db.leases[|Purge(w.db.leases, now)|]);
          }
        case SettleOp(id, _, _, _) => WithoutKeepsDistinct(w.db.leases, id);
        case DropOp(_, _, _) =>
      }
      IdsStayDistinct(cfg, Step(cfg, w, ops[0]), ops[1..]);
    }
  }

  // The registry's own primary key.

  ghost predicate HasRow(rows: seq<SessionRow>, tenant: string, session: string) {
    exists i :: 0 <= i < |rows| && rows[i].tenant == tenant && rows[i].session == session
  }

  /** A tenant and a session name one row. */
  ghost predicate DistinctRows(rows: seq<SessionRow>) {
    rows != [] ==> !HasRow(rows[1..], rows[0].tenant, rows[0].session) && DistinctRows(rows[1..])
  }

  lemma HasRowCons(row: SessionRow, rest: seq<SessionRow>, tenant: string, session: string)
    ensures HasRow([row] + rest, tenant, session) <==>
            (row.tenant == tenant && row.session == session) || HasRow(rest, tenant, session)
  {
    var rows := [row] + rest;
    if HasRow(rest, tenant, session) {
      var i :| 0 <= i < |rest| && rest[i].tenant == tenant && rest[i].session == session;
      assert rows[i + 1] == rest[i];
    }
    if row.tenant == tenant && row.session == session {
      assert rows[0] == row;
    }
  }

  lemma {:induction false} TouchHas(rows: seq<SessionRow>, tenant: string, session: string, now: real,
      t: string, s: string)
    ensures HasRow(Touch(rows, tenant, session, now), t, s) <==>
            HasRow(rows, t, s) || (t == tenant && s == session)
  {
    if rows == [] {
      HasRowCons(SessionRow(tenant, session, 0, 0, now), [], t, s);
    } else {
      assert [rows[0]] + rows[1..] == rows;
      HasRowCons(rows[0], rows[1..], t, s);
      if rows[0].tenant == tenant && rows[0].session == session {
        HasRowCons(rows[0].(lastActivity := Later(rows[0].lastActivity, now)), rows[1..], t, s);
      } else {
        TouchHas(rows[1..], tenant, session, now, t, s);
        HasRowCons(rows[0], Touch(rows[1..], tenant, session, now), t, s);
      }
    }
  }

  lemma {:induction false} TouchKeepsRows(rows: seq<SessionRow>, tenant: string, session: string, now: real)
    requires DistinctRows(rows)
    ensures DistinctRows(Touch(rows, tenant, session, now))
  {
    if rows != [] && !(rows[0].tenant == tenant && rows[0].session == session) {
      TouchKeepsRows(rows[1..], tenant, session, now);
      TouchHas(rows[1..], tenant, session, now, rows[0].tenant, rows[0].session);
    }
  }

  lemma {:induction false} MeasureHas(rows: seq<SessionRow>, tenant: string, f: Footprint, t: string, s: string)
    ensures HasRow(Measure(rows, tenant, f), t, s) <==>
            HasRow(rows, t, s) || (t == tenant && s == f.session)
  {
    var row := SessionRow(tenant, f.session, AtLeastZero(f.storage), AtLeastZero(f.audit), f.activity);
    if rows == [] {
      HasRowCons(row, [], t, s);
    } else {
      assert [rows[0]] + rows[1..] == rows;
      HasRowCons(rows[0], rows[1..], t, s);
      if rows[0].tenant == tenant && rows[0].session == f.session {
        HasRowCons(row.(lastActivity := Later(rows[0].lastActivity, f.activity)), rows[1..], t, s);
      } else {
        MeasureHas(rows[1..], tenant, f, t, s);
        HasRowCons(rows[0], Measure(rows[1..], tenant, f), t, s);
      }
    }
  }

  lemma {:induction false} MeasureKeepsRows(rows: seq<SessionRow>, tenant: string, f: Footprint)
    requires DistinctRows(rows)
    ensures DistinctRows(Measure(rows, tenant, f))
  {
    if rows != [] && !(rows[0].tenant == tenant && rows[0].session == f.session) {
      MeasureKeepsRows(rows[1..], tenant, f);
      MeasureHas(rows[1..], tenant, f, rows[0].tenant, rows[0].session);
    }
  }

  lemma {:induction false} DropHas(rows: seq<SessionRow>, tenant: string, session: string, cutoff: Option<real>,
      t: string, s: string)
    ensures HasRow(DropSession(rows, tenant, session, cutoff), t, s) ==> HasRow(rows, t, s)
  {
    if rows != [] {
      assert [rows[0]] + rows[1..] == rows;
      HasRowCons(rows[0], rows[1..], t, s);
      DropHas(rows[1..], tenant, session, cutoff, t, s);
      HasRowCons(rows[0], DropSession(rows[1..], tenant, session, cutoff), t, s);
    }
  }

  lemma {:induction false} DropKeepsRows(rows: seq<SessionRow>, tenant: string, session: string,
      cutoff: Option<real>)
    requires DistinctRows(rows)
    ensures DistinctRows(DropSession(rows, tenant, session, cutoff))
  {
    if rows != [] {
      DropKeepsRows(rows[1..], tenant, session, cutoff);
      DropHas(rows[1..], tenant, session, cutoff, rows[0].tenant, rows[0].session);
    }
  }

  lemma {:induction false} DropNothing(rows: seq<SessionRow>, tenant: string, session: string,
      cutoff: Option<real>)
    requires !HasRow(rows, tenant, session)
    ensures DropSession(rows, tenant, session, cutoff) == rows
  {
    if rows != [] {
      assert [rows[0]] + rows[1..] == rows;
      HasRowCons(rows[0], rows[1..], tenant, session);
      DropNothing(rows[1..], tenant, session, cutoff);
    }
  }

  /** Where the key holds, a removal takes out one row, the one it asked for, or none. */
  lemma {:induction false} DropTakesOne(rows: seq<SessionRow>, tenant: string, session: string,
      cutoff: Option<real>)
    requires DistinctRows(rows)
    ensures |DropSession(rows, tenant, session, cutoff)|
            == |rows| - (if exists i :: 0 <= i < |rows| && Drops(rows[i], tenant, session, cutoff) then 1 else 0)
  {
    if rows != [] {
      if Drops(rows[0], tenant, session, cutoff) {
        DropNothing(rows[1..], tenant, session, cutoff);
      } else {
        DropTakesOne(rows[1..], tenant, session, cutoff);
        if i :| 0 <= i < |rows[1..]| && Drops(rows[1..][i], tenant, session, cutoff) {
          assert rows[i + 1] == rows[1..][i];
        }
        if i :| 0 <= i < |rows| && Drops(rows[i], tenant, session, cutoff) {
          assert rows[1..][i - 1] == rows[i];
        }
      }
    }
  }

  lemma StepKeepsRows(cfg: Config, w: World, op: Op)
    requires DistinctRows(w.db.sessions)
    ensures DistinctRows(Step(cfg, w, op).db.sessions)
  {
    match op
    case AcquireOp(t, session, id, now) =>
      if session.Some? {
        TouchKeepsRows(w.db.sessions, t, session.value, now);
      }
    case SettleOp(id, _, footprint, _) =>
      if InTable(w.db.leases, id) && footprint.Some? {
        MeasureKeepsRows(w.db.sessions, FindLease(w.db.leases, id).value.tenant, footprint.value);
      }
    case DropOp(t, session, cutoff) => DropKeepsRows(w.db.sessions, t, session, cutoff);
  }

  /** The registry's key holds throughout every run. */
  lemma {:induction false} RowKeysStayDistinct(cfg: Config, w: World, ops: seq<Op>)
    requires DistinctRows(w.db.sessions)
    ensures DistinctRows(Run(cfg, w, ops).db.sessions)
    decreases |ops|
  {
    if ops != [] {
      StepKeepsRows(cfg, w, ops[0]);
      RowKeysStayDistinct(cfg, Step(cfg, w, ops[0]), ops[1..]);
    }
  }

  lemma {:induction false} WithoutAbsent(leases: seq<Lease>, id: string)
    requires !InTable(leases, id)
    ensures Without(leases, id) == leases
  {
    if leases != [] {
      WithoutAbsent(leases[1..], id);
    }
  }

  lemma {:induction false} WithoutKeepsOthers(leases: seq<Lease>, id: string, tenant: string)
    requires DistinctIds(leases) && InTable(leases, id) && FindLease(leases, id).value.tenant != tenant
    ensures LeasesOf(Without(leases, id), tenant) == LeasesOf(leases, tenant)
  {
    if leases[0].id == id {
      WithoutAbsent(leases[1..], id);
    } else {
      WithoutKeepsOthers(leases[1..], id, tenant);
    }
  }

  lemma {:induction false} TouchKeepsOtherRows(rows: seq<SessionRow>, tenant: string, session: string,
      now: real, other: string)
    requires other != tenant
    ensures RowsOf(Touch(rows, tenant, session, now), other) == RowsOf(rows, other)
  {
    if rows != [] && !(rows[0].tenant == tenant && rows[0].session == session) {
      TouchKeepsOtherRows(rows[1..], tenant, session, now, other);
    }
  }

  lemma {:induction false} MeasureKeepsOtherRows(rows: seq<SessionRow>, tenant: string, f: Footprint, other: string)
    requires other != tenant
    ensures RowsOf(Measure(rows, tenant, f), other) == RowsOf(rows, other)
  {
    if rows != [] && !(rows[0].tenant == tenant && rows[0].session == f.session) {
      MeasureKeepsOtherRows(rows[1..], tenant, f, other);
    }
  }

  lemma {:induction false} DropKeepsOtherRows(rows: seq<SessionRow>, tenant: string, session: string,
      cutoff: Option<real>, other: string)
    requires other != tenant
    ensures RowsOf(DropSession(rows, tenant, session, cutoff), other) == RowsOf(rows, other)
  {
    if rows != [] {
      DropKeepsOtherRows(rows[1..], tenant, session, cutoff, other);
    }
  }

  /** What a tenant owns: its counters, its session rows and its leases. */
  ghost predicate SameCounters(before: Db, after: Db, tenant: string) {
    && (tenant in after.tokens <==> tenant in before.tokens)
    && (tenant in before.tokens ==> after.tokens[tenant] == before.tokens[tenant])
    && after.requests == before.requests
    && RowsOf(after.sessions, tenant) == RowsOf(before.sessions, tenant)
  }

  lemma AcquireLeavesOthers(cfg: Config, db: Db, t: string, session: Option<string>, id: string, now: real,
      tenant: string)
    requires t != tenant
    ensures var (r, after) := Acquire(cfg, db, t, session, id, now);
            && SameCounters(db, after, tenant)
            && LeasesOf(after.leases, tenant)
               == if r.Leased? then Purge(LeasesOf(db.leases, tenant), now) else LeasesOf(db.leases, tenant)
  {
    var (r, after) := Acquire(cfg, db, t, session, id, now);
    if r.Leased? {
      var live := Purge(db.leases, now);
      PurgeCommutes(db.leases, now, tenant);
      LeasesOfAppend(live, after.leases[|live|], tenant);
      if session.Some? {
        TouchKeepsOtherRows(db.sessions, t, session.value, now, tenant);
      }
    }
  }

  lemma SettleLeavesOthers(cfg: Config, db: Db, id: string, usage: Option<Tokens>,
      footprint: Option<Footprint>, now: real, tenant: string)
    requires DistinctIds(db.leases)
    requires InTable(db.leases, id) ==> FindLease(db.leases, id).value.tenant != tenant
    ensures var (done, after) := Settle(cfg, db, id, usage, footprint, now);
            SameCounters(db, after, tenant) && LeasesOf(after.leases, tenant) == LeasesOf(db.leases, tenant)
  {
    if InTable(db.leases, id) {
      WithoutKeepsOthers(db.leases, id, tenant);
      SettleLeavesCounters(cfg, db, id, usage, footprint, now, tenant);
    }
    SettleTakesLease(cfg, db, id, usage, footprint, now);
  }

  lemma SettleTakesLease(cfg: Config, db: Db, id: string, usage: Option<Tokens>,
      footprint: Option<Footprint>, now: real)
    ensures var (done, after) := Settle(cfg, db, id, usage, footprint, now);
            && (done <==> InTable(db.leases, id))
            && after.leases == (if done then Without(db.leases, id) else db.leases)
            && (!done ==> after == db)
  {
  }

  lemma SettleLeavesCounters(cfg: Config, db: Db, id: string, usage: Option<Tokens>,
      footprint: Option<Footprint>, now: real, tenant: string)
    requires InTable(db.leases, id) && FindLease(db.leases, id).value.tenant != tenant
    ensures SameCounters(db, Settle(cfg, db, id, usage, footprint, now).1, tenant)
  {
    if footprint.Some? {
      MeasureKeepsOtherRows(db.sessions, FindLease(db.leases, id).value.tenant, footprint.value, tenant);
    }
  }

  predicate Granted(cfg: Config, w: World, op: Op)
    requires op.AcquireOp?
  {
    Acquire(cfg, w.db, op.tenant, op.session, op.id, op.now).0.Leased?
  }

  /** One tenant's operation leaves every other tenant's counters and session rows as they were. Of its
      leases a granted acquire takes exactly the expired ones, and nothing else takes any. */
  lemma OtherTenantsUntouched(cfg: Config, w: World, op: Op, tenant: string)
    requires Actor(w, op) != Some(tenant) && DistinctIds(w.db.leases)
    ensures var after := Step(cfg, w, op).db;
            && SameCounters(w.db, after, tenant)
            && if op.AcquireOp? && Granted(cfg, w, op) then
                 Remain(LeasesOf(w.db.leases, tenant), LeasesOf(after.leases, tenant), InForce(op.now))
               else LeasesOf(after.leases, tenant) == LeasesOf(w.db.leases, tenant)
  {
    match op
    case AcquireOp(t, session, id, now) =>
      AcquireLeavesOthers(cfg, w.db, t, session, id, now, tenant);
      PurgeLeaves(LeasesOf(w.db.leases, tenant), now);
    case SettleOp(id, usage, footprint, now) =>
      SettleLeavesOthers(cfg, w.db, id, usage, footprint, now, tenant);
    case DropOp(t, session, cutoff) => DropKeepsOtherRows(w.db.sessions, t, session, cutoff, tenant);
  }
}
