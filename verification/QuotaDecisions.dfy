/** What one quota transaction decides and leaves behind, in terms of the tables' own rows:
    product_service.py, DurableQuotaStore.acquire_turn and settle_turn. */
module QuotaDecisions {
  import opened Wrappers
  import opened Remains
  import opened Quota
  import RateLimit
  import QuotaSafety

  /** Turns under way and what they reserve. */
  datatype Held = Held(turns: nat, tokens: nat, storage: nat, audit: nat)

  /** What the tenant's leases still in force at `now` hold together. */
  function HeldBy(leases: seq<Lease>, tenant: string, now: real): Held {
    if leases == [] then Held(0, 0, 0, 0)
    else
      var l, rest := leases[0], HeldBy(leases[1..], tenant, now);
      if l.tenant == tenant && now < l.expires then
        Held(rest.turns + 1, rest.tokens + l.tokens, rest.storage + l.storage, rest.audit + l.audit)
      else rest
  }

  /** The bytes measured for the tenant's sessions. */
  function MeasuredFor(rows: seq<SessionRow>, tenant: string): (measured: (nat, nat)) {
    if rows == [] then (0, 0)
    else
      var (storage, audit) := MeasuredFor(rows[1..], tenant);
      if rows[0].tenant == tenant then (storage + rows[0].storage, audit + rows[0].audit) else (storage, audit)
  }

  /** The tokens charged to the tenant on the day of `now`. */
  function SpentOn(tokens: map<string, TokenWindow>, tenant: string, now: real): nat {
    if tenant in tokens && tokens[tenant].day as real <= now < (tokens[tenant].day + 86400) as real
    then tokens[tenant].tokens else 0
  }

  /** Days are whole, 86400 seconds long, and `now` lies in its own. */
  lemma DayMeans(now: real)
    ensures DayOf(now) % 86400 == 0 && DayOf(now) as real <= now < (DayOf(now) + 86400) as real
  {
    var d := (now / 86400.0).Floor;
    assert d as real <= now / 86400.0 < d as real + 1.0;
    assert now == now / 86400.0 * 86400.0;
  }

  lemma OneDayAtATime(day: int, now: real)
    requires day % 86400 == 0 && day as real <= now < (day + 86400) as real
    ensures day == DayOf(now)
  {
    DayMeans(now);
    SameMultiple(day / 86400, DayOf(now) / 86400, now);
  }

  lemma SameMultiple(a: int, b: int, now: real)
    requires (a * 86400) as real <= now < (a * 86400 + 86400) as real
    requires (b * 86400) as real <= now < (b * 86400 + 86400) as real
    ensures a == b
  {
  }

  /** Stored windows start on whole days. */
  ghost predicate WholeDays(tokens: map<string, TokenWindow>) {
    forall tenant :: tenant in tokens ==> tokens[tenant].day % 86400 == 0
  }

  lemma {:induction false} HeldAreSums(leases: seq<Lease>, tenant: string, now: real)
    ensures var held, live := HeldBy(leases, tenant, now), Purge(leases, now);
            && held.turns == LeaseSum(live, tenant, One)
            && held.tokens == LeaseSum(live, tenant, LeaseTokens)
            && held.storage == LeaseSum(live, tenant, LeaseStorage)
            && held.audit == LeaseSum(live, tenant, LeaseAudit)
  {
    if leases != [] {
      HeldAreSums(leases[1..], tenant, now);
    }
  }

  lemma {:induction false} MeasuredAreSums(rows: seq<SessionRow>, tenant: string)
    ensures MeasuredFor(rows, tenant) == (RowSum(rows, tenant, RowStorage), RowSum(rows, tenant, RowAudit))
  {
    if rows != [] {
      MeasuredAreSums(rows[1..], tenant);
    }
  }

  lemma SpentIsToday(db: Db, tenant: string, now: real)
    requires WholeDays(db.tokens)
    ensures SpentOn(db.tokens, tenant, now) == TokensOn(db, tenant, DayOf(now))
  {
    DayMeans(now);
    if tenant in db.tokens && db.tokens[tenant].day as real <= now < (db.tokens[tenant].day + 86400) as real {
      OneDayAtATime(db.tokens[tenant].day, now);
    }
  }

  ghost predicate Names(leases: seq<Lease>, id: string, now: real) {
    exists i :: 0 <= i < |leases| && leases[i].id == id && now < leases[i].expires
  }

  lemma {:induction false} NamedIsFound(leases: seq<Lease>, id: string, now: real)
    ensures FindLease(Purge(leases, now), id).Some? <==> Names(leases, id, now)
  {
    if leases != [] {
      NamedIsFound(leases[1..], id, now);
      if Names(leases[1..], id, now) {
        var i :| 0 <= i < |leases[1..]| && leases[1..][i].id == id && now < leases[1..][i].expires;
        assert leases[i + 1].id == id;
      }
      if i :| 0 <= i < |leases| && leases[i].id == id && now < leases[i].expires {
        assert i > 0 ==> leases[1..][i - 1] == leases[i];
      }
    }
  }

  /** Whether, and in which order, each quota is in the way. */
  predicate Busy(cfg: Config, db: Db, tenant: string, now: real) {
    HeldBy(db.leases, tenant, now).turns >= cfg.maxTurns
  }

  predicate TokensShort(cfg: Config, db: Db, tenant: string, now: real) {
    cfg.limits.Some? &&
    SpentOn(db.tokens, tenant, now) + HeldBy(db.leases, tenant, now).tokens + cfg.limits.value.tokenReserve
    > cfg.limits.value.tokensPerDay
  }

  predicate StorageShort(cfg: Config, db: Db, tenant: string, now: real) {
    cfg.limits.Some? &&
    MeasuredFor(db.sessions, tenant).0 + HeldBy(db.leases, tenant, now).storage + cfg.limits.value.storageReserve
    > cfg.limits.value.storageMax
  }

  predicate AuditShort(cfg: Config, db: Db, tenant: string, now: real) {
    cfg.limits.Some? &&
    MeasuredFor(db.sessions, tenant).1 + HeldBy(db.leases, tenant, now).audit + cfg.limits.value.auditReserve
    > cfg.limits.value.auditMax
  }

  lemma QuotasInTheWay(cfg: Config, db: Db, tenant: string, now: real)
    requires WholeDays(db.tokens)
    ensures var live, r := Purge(db.leases, now), cfg.Reserve();
            && (Busy(cfg, db, tenant, now) <==> LeaseSum(live, tenant, One) >= cfg.maxTurns)
            && (TokensShort(cfg, db, tenant, now) <==>
                  cfg.limits.Some? &&
                  TokensOn(db, tenant, DayOf(now)) + LeaseSum(live, tenant, LeaseTokens) + r.tokenReserve
                  > r.tokensPerDay)
            && (StorageShort(cfg, db, tenant, now) <==>
                  cfg.limits.Some? &&
                  RowSum(db.sessions, tenant, RowStorage) + LeaseSum(live, tenant, LeaseStorage)
                  + r.storageReserve > r.storageMax)
            && (AuditShort(cfg, db, tenant, now) <==>
                  cfg.limits.Some? &&
                  RowSum(db.sessions, tenant, RowAudit) + LeaseSum(live, tenant, LeaseAudit)
                  + r.auditReserve > r.auditMax)
  {
    HeldAreSums(db.leases, tenant, now);
    MeasuredAreSums(db.sessions, tenant);
    SpentIsToday(db, tenant, now);
  }

  /** The lease a granted acquire adds. */
  predicate IsNewLease(cfg: Config, l: Lease, tenant: string, id: string, now: real) {
    && l.id == id && l.tenant == tenant && l.expires == now + cfg.leaseS
    && (cfg.limits.None? ==> l.tokens == 0 && l.storage == 0 && l.audit == 0)
    && (cfg.limits.Some? ==>
          && l.tokens == cfg.limits.value.tokenReserve
          && l.storage == cfg.limits.value.storageReserve && l.audit == cfg.limits.value.auditReserve)
  }

  /** The decision, from the rows: the first quota in the way refuses, by the leases in force and
      nothing else; a refusal changes nothing. A grant takes exactly the expired leases, of every
      tenant, and adds one with the full reservation. */
  lemma AcquireDecides(cfg: Config, db: Db, tenant: string, session: Option<string>, id: string, now: real)
    requires WholeDays(db.tokens)
    ensures var (r, after) := Acquire(cfg, db, tenant, session, id, now);
            && (r.TenantBusy? <==> Busy(cfg, db, tenant, now))
            && (r.TokenQuotaExceeded? <==> !Busy(cfg, db, tenant, now) && TokensShort(cfg, db, tenant, now))
            && (r.StorageQuotaExceeded? <==>
                  && !Busy(cfg, db, tenant, now) && !TokensShort(cfg, db, tenant, now)
                  && StorageShort(cfg, db, tenant, now))
            && (r.AuditQuotaExceeded? <==>
                  && !Busy(cfg, db, tenant, now) && !TokensShort(cfg, db, tenant, now)
                  && !StorageShort(cfg, db, tenant, now) && AuditShort(cfg, db, tenant, now))
            && (r.Leased? <==>
                  && !Busy(cfg, db, tenant, now) && !TokensShort(cfg, db, tenant, now)
                  && !StorageShort(cfg, db, tenant, now) && !AuditShort(cfg, db, tenant, now)
                  && !Names(db.leases, id, now))
  {
    QuotasInTheWay(cfg, db, tenant, now);
    NamedIsFound(db.leases, id, now);
  }

  lemma AcquireLeaves(cfg: Config, db: Db, tenant: string, session: Option<string>, id: string, now: real)
    ensures var (r, after) := Acquire(cfg, db, tenant, session, id, now);
            && (!r.Leased? ==> after == db)
            && (r.Leased? ==>
                  && after.requests == db.requests && after.tokens == db.tokens && after.leases != []
                  && var n := |after.leases| - 1;
                  && Remain(db.leases, after.leases[..n], InForce(now))
                  && IsNewLease(cfg, after.leases[n], tenant, id, now)
                  && (cfg.limits.None? || session.None? ==> after.sessions == db.sessions)
                  && (cfg.limits.Some? && session.Some? ==>
                        TouchedAt(db.sessions, after.sessions, tenant, session.value, now)))
  {
    var (r, after) := Acquire(cfg, db, tenant, session, id, now);
    if r.Leased? {
      PurgeLeaves(db.leases, now);
      assert after.leases[..|after.leases| - 1] == Purge(db.leases, now);
      if cfg.limits.Some? && session.Some? {
        TouchDoes(db.sessions, tenant, session.value, now);
      }
    }
  }

  /** A refused caller is told to wait into the next day, but for less than a second: waiting it reaches
      the next day exactly when the time left is whole or at most one second. */
  lemma TokenRetryAfterSufficesIff(cfg: Config, db: Db, tenant: string, session: Option<string>, id: string,
                                   now: real)
    requires Acquire(cfg, db, tenant, session, id, now).0.TokenQuotaExceeded?
    ensures var wait := Acquire(cfg, db, tenant, session, id, now).0.retryAfter;
            var left := (DayOf(now) + 86400) as real - now;
            && left - 1.0 < wait as real && 1 <= wait && (wait == 1 || wait as real <= left)
            && (DayOf(now + wait as real) == DayOf(now) + 86400 <==> left <= 1.0 || left == left.Floor as real)
  {
    var day := DayOf(now);
    var left := (day + 86400) as real - now;
    var back := now + Acquire(cfg, db, tenant, session, id, now).0.retryAfter as real;
    DayMeans(now);
    if (day + 86400) as real <= back {
      OneDayAtATime(day + 86400, back);
    } else {
      OneDayAtATime(day, back);
    }
  }

  // Session rows.

  predicate IsRow(r: SessionRow, tenant: string, session: string) {
    r.tenant == tenant && r.session == session
  }

  /** The later of two times. */
  predicate IsLater(t: real, a: real, b: real) {
    t >= a && t >= b && (t == a || t == b)
  }

  /** Row i is the session's first, or stands behind all rows and there was none; no other row changes. */
  ghost predicate OnlyRow(before: seq<SessionRow>, after: seq<SessionRow>, tenant: string, session: string, i: nat) {
    && i <= |before| && |after| == (if i < |before| then |before| else i + 1)
    && (forall j :: 0 <= j < |before| && j < i ==> !IsRow(before[j], tenant, session))
    && (i < |before| ==> IsRow(before[i], tenant, session))
    && (forall j :: 0 <= j < |before| && j != i ==> after[j] == before[j])
    && IsRow(after[i], tenant, session)
  }

  ghost predicate Touched(before: seq<SessionRow>, after: seq<SessionRow>, tenant: string, session: string,
                          now: real, i: nat)
  {
    && OnlyRow(before, after, tenant, session, i)
    && if i == |before| then after[i].storage == 0 && after[i].audit == 0 && after[i].lastActivity == now
       else
         && after[i].storage == before[i].storage && after[i].audit == before[i].audit
         && IsLater(after[i].lastActivity, before[i].lastActivity, now)
  }

  /** Acquiring registers the session, or moves its activity on, and changes no other row. */
  ghost predicate TouchedAt(before: seq<SessionRow>, after: seq<SessionRow>, tenant: string, session: string,
                            now: real)
  {
    exists i :: Touched(before, after, tenant, session, now, i)
  }

  lemma OnlyRowCons(row: SessionRow, before: seq<SessionRow>, after: seq<SessionRow>, tenant: string,
                    session: string, i: nat)
    requires !IsRow(row, tenant, session) && OnlyRow(before, after, tenant, session, i)
    ensures OnlyRow([row] + before, [row] + after, tenant, session, i + 1)
  {
  }

  lemma {:induction false} TouchDoes(rows: seq<SessionRow>, tenant: string, session: string, now: real)
    ensures TouchedAt(rows, Touch(rows, tenant, session, now), tenant, session, now)
  {
    var after := Touch(rows, tenant, session, now);
    if rows == [] || IsRow(rows[0], tenant, session) {
      assert Touched(rows, after, tenant, session, now, 0);
    } else {
      TouchDoes(rows[1..], tenant, session, now);
      var i: nat :| Touched(rows[1..], Touch(rows[1..], tenant, session, now), tenant, session, now, i);
      OnlyRowCons(rows[0], rows[1..], Touch(rows[1..], tenant, session, now), tenant, session, i);
      assert [rows[0]] + rows[1..] == rows;
      assert Touched(rows, after, tenant, session, now, i + 1);
    }
  }

  predicate IsMax0(n: nat, m: int) {
    n >= m && (n == m || n == 0)
  }

  ghost predicate Measured(before: seq<SessionRow>, after: seq<SessionRow>, tenant: string, f: Footprint, i: nat) {
    && OnlyRow(before, after, tenant, f.session, i)
    && IsMax0(after[i].storage, f.storage) && IsMax0(after[i].audit, f.audit)
    && if i == |before| then after[i].lastActivity == f.activity
       else IsLater(after[i].lastActivity, before[i].lastActivity, f.activity)
  }

  /** Settling replaces the session's sizes by what was measured, negative figures by nothing, moves its
      activity on, and changes no other row. */
  ghost predicate MeasuredAt(before: seq<SessionRow>, after: seq<SessionRow>, tenant: string, f: Footprint) {
    exists i :: Measured(before, after, tenant, f, i)
  }

  lemma {:induction false} MeasureDoes(rows: seq<SessionRow>, tenant: string, f: Footprint)
    ensures MeasuredAt(rows, Measure(rows, tenant, f), tenant, f)
  {
    var after := Measure(rows, tenant, f);
    if rows == [] || IsRow(rows[0], tenant, f.session) {
      assert Measured(rows, after, tenant, f, 0);
    } else {
      MeasureDoes(rows[1..], tenant, f);
      var i: nat :| Measured(rows[1..], Measure(rows[1..], tenant, f), tenant, f, i);
      OnlyRowCons(rows[0], rows[1..], Measure(rows[1..], tenant, f), tenant, f.session, i);
      assert [rows[0]] + rows[1..] == rows;
      assert Measured(rows, after, tenant, f, i + 1);
    }
  }

  // Settlement.

  lemma {:induction false} WithoutLeaves(leases: seq<Lease>, id: string)
    ensures Remain(leases, Without(leases, id), (l: Lease) => l.id != id)
  {
    var others := (l: Lease) => l.id != id;
    if leases == [] {
      NothingRemains(others);
    } else {
      WithoutLeaves(leases[1..], id);
      RemainCons(leases[0], leases[1..], Without(leases[1..], id), others);
      assert [leases[0]] + leases[1..] == leases;
    }
  }

  lemma {:induction false} FoundIsFirst(leases: seq<Lease>, id: string) returns (i: nat)
    ensures FindLease(leases, id).Some? ==>
              i < |leases| && leases[i].id == id && FindLease(leases, id).value == leases[i]
    ensures FindLease(leases, id).None? ==> forall j :: 0 <= j < |leases| ==> leases[j].id != id
  {
    i := 0;
    if leases != [] && leases[0].id != id {
      i := FoundIsFirst(leases[1..], id);
      if FindLease(leases, id).None? {
        forall j | 0 <= j < |leases|
          ensures leases[j].id != id
        {
          assert j > 0 ==> leases[j] == leases[1..][j - 1];
        }
      }
      i := i + 1;
    }
  }

  /** What the caller's usage comes to: the tokens in and the tokens out, neither below nothing. */
  ghost predicate ChargeIs(charged: nat, usage: Option<Tokens>) {
    if usage.None? then charged == 0
    else exists a: nat, b: nat :: IsMax0(a, usage.value.input) && IsMax0(b, usage.value.output) && charged == a + b
  }

  lemma ChargeMeans(usage: Option<Tokens>)
    ensures ChargeIs(Charge(usage), usage)
  {
    if usage.Some? {
      var a: nat := if usage.value.input < 0 then 0 else usage.value.input;
      var b: nat := if usage.value.output < 0 then 0 else usage.value.output;
      assert IsMax0(a, usage.value.input) && IsMax0(b, usage.value.output) && Charge(usage) == a + b;
    }
  }

  /** A lease that is not there settles to nothing; one that is goes, and no other with it. */
  lemma SettleTakes(cfg: Config, db: Db, id: string, usage: Option<Tokens>, footprint: Option<Footprint>,
                    now: real) returns (i: nat)
    ensures var (done, after) := Settle(cfg, db, id, usage, footprint, now);
            && (!done ==> after == db && forall j :: 0 <= j < |db.leases| ==> db.leases[j].id != id)
            && (done ==>
                  && i < |db.leases| && db.leases[i].id == id
                  && FindLease(db.leases, id) == Some(db.leases[i])
                  && Remain(db.leases, after.leases, (l: Lease) => l.id != id)
                  && after.requests == db.requests
                  && (cfg.limits.None? ==> after.tokens == db.tokens && after.sessions == db.sessions))
  {
    i := FoundIsFirst(db.leases, id);
    WithoutLeaves(db.leases, id);
  }

  /** The tenant's tokens of the day of `now` grow by `charged`, and no other tenant's change. */
  ghost predicate Grows(before: map<string, TokenWindow>, after: map<string, TokenWindow>, tenant: string,
                        charged: nat, now: real)
  {
    && SpentOn(after, tenant, now) == SpentOn(before, tenant, now) + charged
    && (charged == 0 ==> after == before)
    && (forall other :: other != tenant ==>
          && (other in after <==> other in before)
          && (other in before ==> after[other] == before[other]))
  }

  /** Under limits the lease's tenant is charged the tokens in and out on the day of `now`, and what was
      measured replaces its session's sizes. */
  lemma SettleCharges(cfg: Config, db: Db, id: string, usage: Option<Tokens>, footprint: Option<Footprint>,
                      now: real) returns (charged: nat)
    requires WholeDays(db.tokens) && cfg.limits.Some? && FindLease(db.leases, id).Some?
    ensures ChargeIs(charged, usage)
    ensures var after, tenant := Settle(cfg, db, id, usage, footprint, now).1, FindLease(db.leases, id).value.tenant;
            && Grows(db.tokens, after.tokens, tenant, charged, now) && WholeDays(after.tokens)
            && (footprint.None? ==> after.sessions == db.sessions)
            && (footprint.Some? ==> MeasuredAt(db.sessions, after.sessions, tenant, footprint.value))
  {
    charged := Charge(usage);
    var tenant := FindLease(db.leases, id).value.tenant;
    ChargeMeans(usage);
    SpentIsToday(db, tenant, now);
    DayMeans(now);
    if footprint.Some? {
      MeasureDoes(db.sessions, tenant, footprint.value);
    }
  }

  /** What a run records of a settlement: the lease it closed, the day, the tokens charged under limits,
      and by how much the tenant's measured bytes grew. */
  lemma SettlementRecords(cfg: Config, w: QuotaSafety.World, op: QuotaSafety.Op)
    requires op.SettleOp? && FindLease(w.db.leases, op.id).Some?
    ensures var lease, after := FindLease(w.db.leases, op.id).value, QuotaSafety.Step(cfg, w, op);
            && |after.settled| == |w.settled| + 1 && w.settled <= after.settled
            && var s := after.settled[|w.settled|];
            && s.lease == lease && s.day as real <= op.now < (s.day + 86400) as real
            && (cfg.limits.Some? ==> ChargeIs(s.charged, op.usage)) && (cfg.limits.None? ==> s.charged == 0)
            && MeasuredFor(after.db.sessions, lease.tenant).0
               == MeasuredFor(w.db.sessions, lease.tenant).0 + s.storageGrowth
            && MeasuredFor(after.db.sessions, lease.tenant).1
               == MeasuredFor(w.db.sessions, lease.tenant).1 + s.auditGrowth
  {
    var tenant := FindLease(w.db.leases, op.id).value.tenant;
    DayMeans(op.now);
    ChargeMeans(op.usage);
    MeasuredAreSums(w.db.sessions, tenant);
    MeasuredAreSums(QuotaSafety.Step(cfg, w, op).db.sessions, tenant);
  }

  /** The stored windows start on whole days throughout every run. */
  lemma {:induction false} RunsKeepWholeDays(cfg: Config, w: QuotaSafety.World, ops: seq<QuotaSafety.Op>)
    requires WholeDays(w.db.tokens)
    ensures WholeDays(QuotaSafety.Run(cfg, w, ops).db.tokens)
    decreases |ops|
  {
    if ops != [] {
      StepKeepsWholeDays(cfg, w, ops[0]);
      RunsKeepWholeDays(cfg, QuotaSafety.Step(cfg, w, ops[0]), ops[1..]);
    }
  }

  lemma StepKeepsWholeDays(cfg: Config, w: QuotaSafety.World, op: QuotaSafety.Op)
    requires WholeDays(w.db.tokens)
    ensures WholeDays(QuotaSafety.Step(cfg, w, op).db.tokens)
  {
    match op
    case AcquireOp(t, session, id, now) => AcquireLeaves(cfg, w.db, t, session, id, now);
    case SettleOp(id, usage, footprint, now) =>
      if cfg.limits.Some? && FindLease(w.db.leases, id).Some? {
        var charged := SettleCharges(cfg, w.db, id, usage, footprint, now);
      }
    case DropOp(_, _, _) =>
  }
}
