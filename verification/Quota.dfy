/** Durable tenant quotas: product_service.py, DurableQuotaStore and _DurableTurnLease. Each method of
    the store is one transaction over four tables. */
module Quota {
  import opened Wrappers
  import opened Remains
  import RateLimit

  datatype Limits = Limits(tokensPerDay: nat, tokenReserve: nat, storageMax: nat, storageReserve: nat,
                           auditMax: nat, auditReserve: nat)

  datatype Config = Config(requestsPerMinute: nat, maxTurns: nat, leaseS: real, limits: Option<Limits>) {
    function Reserve(): Limits {
      if limits.Some? then limits.value else Limits(0, 0, 0, 0, 0, 0)
    }
  }

  datatype Lease = Lease(id: string, tenant: string, expires: real,
                         tokens: nat, storage: nat, audit: nat)

  datatype TokenWindow = TokenWindow(day: int, tokens: nat)

  datatype SessionRow = SessionRow(tenant: string, session: string, storage: nat, audit: nat,
                                   lastActivity: real)

  datatype Db = Db(leases: seq<Lease>, requests: map<string, RateLimit.WindowRow>,
                   tokens: map<string, TokenWindow>, sessions: seq<SessionRow>)

  /** int(now // 86400) * 86400. */
  function DayOf(now: real): int {
    (now / 86400.0).Floor * 86400
  }

  function Purge(leases: seq<Lease>, now: real): seq<Lease> {
    if leases == [] then []
    else if leases[0].expires <= now then Purge(leases[1..], now)
    else [leases[0]] + Purge(leases[1..], now)
  }

  /** The leases still in force at `now`. */
  function InForce(now: real): Lease -> bool {
    (l: Lease) => now < l.expires
  }

  lemma {:induction false} PurgeLeaves(leases: seq<Lease>, now: real)
    ensures Remain(leases, Purge(leases, now), InForce(now))
  {
    if leases == [] {
      NothingRemains(InForce(now));
    } else {
      PurgeLeaves(leases[1..], now);
      RemainCons(leases[0], leases[1..], Purge(leases[1..], now), InForce(now));
      assert [leases[0]] + leases[1..] == leases;
    }
  }

  function Without(leases: seq<Lease>, id: string): seq<Lease> {
    if leases == [] then []
    else if leases[0].id == id then Without(leases[1..], id)
    else [leases[0]] + Without(leases[1..], id)
  }

  function FindLease(leases: seq<Lease>, id: string): Option<Lease> {
    if leases == [] then None
    else if leases[0].id == id then Some(leases[0])
    else FindLease(leases[1..], id)
  }

  // What a lease and a session row weigh in each account.

  function One(l: Lease): nat { 1 }
  function LeaseTokens(l: Lease): nat { l.tokens }
  function LeaseStorage(l: Lease): nat { l.storage }
  function LeaseAudit(l: Lease): nat { l.audit }
  function RowStorage(r: SessionRow): nat { r.storage }
  function RowAudit(r: SessionRow): nat { r.audit }

  function LeaseSum(leases: seq<Lease>, tenant: string, weigh: Lease -> nat): nat {
    if leases == [] then 0
    else (if leases[0].tenant == tenant then weigh(leases[0]) else 0) + LeaseSum(leases[1..], tenant, weigh)
  }

  function RowSum(rows: seq<SessionRow>, tenant: string, weigh: SessionRow -> nat): nat {
    if rows == [] then 0
    else (if rows[0].tenant == tenant then weigh(rows[0]) else 0) + RowSum(rows[1..], tenant, weigh)
  }

  function TokensOn(db: Db, tenant: string, day: int): nat {
    if tenant in db.tokens && db.tokens[tenant].day == day then db.tokens[tenant].tokens else 0
  }

  function Later(a: real, b: real): real {
    if a < b then b else a
  }

  /** Registering a session, or refreshing its activity. */
  function Touch(rows: seq<SessionRow>, tenant: string, session: string, now: real): seq<SessionRow> {
    if rows == [] then [SessionRow(tenant, session, 0, 0, now)]
    else if rows[0].tenant == tenant && rows[0].session == session then
      [rows[0].(lastActivity := Later(rows[0].lastActivity, now))] + rows[1..]
    else [rows[0]] + Touch(rows[1..], tenant, session, now)
  }

  datatype Footprint = Footprint(session: string, storage: int, audit: int, activity: real)

  function AtLeastZero(n: int): nat {
    if n < 0 then 0 else n
  }

  /** Replacing a session's measured sizes. */
  function Measure(rows: seq<SessionRow>, tenant: string, f: Footprint): seq<SessionRow> {
    if rows == [] then
      [SessionRow(tenant, f.session, AtLeastZero(f.storage), AtLeastZero(f.audit), f.activity)]
    else if rows[0].tenant == tenant && rows[0].session == f.session then
      [SessionRow(tenant, f.session, AtLeastZero(f.storage), AtLeastZero(f.audit),
                  Later(rows[0].lastActivity, f.activity))] + rows[1..]
    else [rows[0]] + Measure(rows[1..], tenant, f)
  }

  datatype Acquired =
    | Leased
    | TenantBusy
    | TokenQuotaExceeded(retryAfter: int)
    | StorageQuotaExceeded
    | AuditQuotaExceeded
    | DuplicateLease

  /** acquire_turn; every refusal rolls the transaction back, the purge of expired leases included. */
  function Acquire(cfg: Config, db: Db, tenant: string, session: Option<string>, id: string, now: real)
    : (Acquired, Db)
  {
    var live := Purge(db.leases, now);
    var r := cfg.Reserve();
    if LeaseSum(live, tenant, One) >= cfg.maxTurns then (TenantBusy, db)
    else if cfg.limits.Some?
            && TokensOn(db, tenant, DayOf(now)) + LeaseSum(live, tenant, LeaseTokens) + r.tokenReserve
               > r.tokensPerDay then
      (TokenQuotaExceeded(RateLimit.AtLeastOne(
         RateLimit.Truncate((DayOf(now) + 86400) as real - now))), db)
    else if cfg.limits.Some?
            && RowSum(db.sessions, tenant, RowStorage) + LeaseSum(live, tenant, LeaseStorage)
               + r.storageReserve > r.storageMax then
      (StorageQuotaExceeded, db)
    else if cfg.limits.Some?
            && RowSum(db.sessions, tenant, RowAudit) + LeaseSum(live, tenant, LeaseAudit)
               + r.auditReserve > r.auditMax then
      (AuditQuotaExceeded, db)
    else if FindLease(live, id).Some? then (DuplicateLease, db)
    else
      (Leased, db.(
         leases := live + [Lease(id, tenant, now + cfg.leaseS, r.tokenReserve, r.storageReserve, r.auditReserve)],
         sessions := if cfg.limits.Some? && session.Some?
                     then Touch(db.sessions, tenant, session.value, now) else db.sessions))
  }

  datatype Tokens = TokenUse(input: int, output: int)

  function Charge(usage: Option<Tokens>): nat {
    if usage.None? then 0 else AtLeastZero(usage.value.input) + AtLeastZero(usage.value.output)
  }

  /** settle_turn. */
  function Settle(cfg: Config, db: Db, id: string, usage: Option<Tokens>, footprint: Option<Footprint>, now: real)
    : (bool, Db)
  {
    match FindLease(db.leases, id)
    case None => (false, db)
    case Some(lease) =>
      var db1 := db.(leases := Without(db.leases, id));
      if cfg.limits.None? then (true, db1) else
      var db2 := if Charge(usage) == 0 then db1 else
        db1.(tokens := db1.tokens[lease.tenant :=
               TokenWindow(DayOf(now), TokensOn(db, lease.tenant, DayOf(now)) + Charge(usage))]);
      var db3 := if footprint.None? then db2 else
        db2.(sessions := Measure(db2.sessions, lease.tenant, footprint.value));
      (true, db3)
  }

  function DropSession(rows: seq<SessionRow>, tenant: string, session: string, cutoff: Option<real>)
    : seq<SessionRow>
  {
    if rows == [] then []
    else if rows[0].tenant == tenant && rows[0].session == session
            && (cutoff.None? || rows[0].lastActivity <= cutoff.value) then
      DropSession(rows[1..], tenant, session, cutoff)
    else [rows[0]] + DropSession(rows[1..], tenant, session, cutoff)
  }

  predicate Drops(r: SessionRow, tenant: string, session: string, cutoff: Option<real>) {
    r.tenant == tenant && r.session == session && (cutoff.None? || r.lastActivity <= cutoff.value)
  }

  /** The rows a removal of this session leaves. */
  function Stays(tenant: string, session: string, cutoff: Option<real>): SessionRow -> bool {
    (r: SessionRow) => !Drops(r, tenant, session, cutoff)
  }

  lemma {:induction false} DropSessionLeaves(rows: seq<SessionRow>, tenant: string, session: string,
                                             cutoff: Option<real>) returns (kept: seq<nat>)
    ensures LeftBehind(rows, DropSession(rows, tenant, session, cutoff), kept, Stays(tenant, session, cutoff))
  {
    kept := [];
    if rows != [] {
      var rest := DropSessionLeaves(rows[1..], tenant, session, cutoff);
      LeftBehindCons(rows[0], rows[1..], DropSession(rows[1..], tenant, session, cutoff), rest,
                     Stays(tenant, session, cutoff));
      assert [rows[0]] + rows[1..] == rows;
      kept := Shifted(rest, !Drops(rows[0], tenant, session, cutoff));
    }
  }

  class DurableQuotaStore {
    const cfg: Config
    var leases: seq<Lease>
    var requests: map<string, RateLimit.WindowRow>
    var tokens: map<string, TokenWindow>
    var sessions: seq<SessionRow>

    /** Opening the store drops the leases that expired while nobody held it open. */
    constructor (cfg: Config, stored: Db, now: real)
      requires cfg.requestsPerMinute > 0 && cfg.maxTurns > 0 && cfg.leaseS > 0.0
      ensures this.cfg == cfg && Tables() == stored.(leases := leases)
      ensures Remain(stored.leases, leases, InForce(now))
    {
      PurgeLeaves(stored.leases, now);
      this.cfg := cfg;
      leases := Purge(stored.leases, now);
      requests := stored.requests;
      tokens := stored.tokens;
      sessions := stored.sessions;
    }

    function Tables(): Db
      reads this
    {
      Db(leases, requests, tokens, sessions)
    }

    method AdmitRequest(tenant: string, now: real) returns (ok: bool, retryAfter: int)
      modifies this
      ensures var row := if tenant in old(requests) then Some(old(requests)[tenant]) else None;
              var a := RateLimit.AdmitInWindow(row, now, cfg.requestsPerMinute);
              && ok == a.admitted && retryAfter == a.retryAfter
              && Tables() == old(Tables()).(
                   requests := if a.admitted then old(requests)[tenant := a.row.value] else old(requests))
    {
      var window := RateLimit.WindowOf(now);
      var count := if tenant in requests && requests[tenant].start == window then requests[tenant].count else 0;
      if count >= cfg.requestsPerMinute {
        return false, RateLimit.AtLeastOne(RateLimit.Truncate((window + 60) as real - now));
      }
      requests := requests[tenant := RateLimit.WindowRow(window, count + 1)];
      return true, 0;
    }

    method AcquireTurn(tenant: string, session: Option<string>, id: string, now: real) returns (r: Acquired)
      modifies this
      ensures (r, Tables()) == Acquire(cfg, old(Tables()), tenant, session, id, now)
      ensures r.Leased? ==>
                && leases != [] && leases[|leases| - 1].id == id
                && Remain(old(leases), leases[..|leases| - 1], InForce(now))
    {
      PurgeLeaves(leases, now);
      var live := Purge(leases, now);
      if LeaseSum(live, tenant, One) >= cfg.maxTurns {
        return TenantBusy;
      }
      var reserve := cfg.Reserve();
      if cfg.limits.Some? {
        var day := DayOf(now);
        var today := if tenant in tokens && tokens[tenant].day == day then tokens[tenant].tokens else 0;
        if today + LeaseSum(live, tenant, LeaseTokens) + reserve.tokenReserve > reserve.tokensPerDay {
          return TokenQuotaExceeded(RateLimit.AtLeastOne(RateLimit.Truncate((day + 86400) as real - now)));
        }
        if RowSum(sessions, tenant, RowStorage) + LeaseSum(live, tenant, LeaseStorage)
           + reserve.storageReserve > reserve.storageMax {
          return StorageQuotaExceeded;
        }
        if RowSum(sessions, tenant, RowAudit) + LeaseSum(live, tenant, LeaseAudit)
           + reserve.auditReserve > reserve.auditMax {
          return AuditQuotaExceeded;
        }
      }
      if FindLease(live, id).Some? {
        return DuplicateLease;
      }
      if cfg.limits.Some? && session.Some? {
        sessions := Touch(sessions, tenant, session.value, now);
      }
      leases := live + [Lease(id, tenant, now + cfg.leaseS,
                              reserve.tokenReserve, reserve.storageReserve, reserve.auditReserve)];
      return Leased;
    }

    method SettleTurn(id: string, usage: Option<Tokens>, footprint: Option<Footprint>, now: real)
      returns (settled: bool)
      modifies this
      ensures (settled, Tables()) == Settle(cfg, old(Tables()), id, usage, footprint, now)
    {
      var row := FindLease(leases, id);
      if row.None? {
        return false;
      }
      var tenant := row.value.tenant;
      leases := Without(leases, id);
      if cfg.limits.Some? {
        var actual := Charge(usage);
        if actual != 0 {
          var day := DayOf(now);
          var prior := if tenant in tokens && tokens[tenant].day == day then tokens[tenant].tokens else 0;
          tokens := tokens[tenant := TokenWindow(day, prior + actual)];
        }
        if footprint.Some? {
          sessions := Measure(sessions, tenant, footprint.value);
        }
      }
      return true;
    }

    /** remove_session_usage without a cutoff, remove_registered_session with one: exactly the rows of
        this session that the cutoff allows are gone, every other row stays in its place in the order,
        and the answer says whether one row went. */
    method RemoveSession(tenant: string, session: string, cutoff: Option<real>)
      returns (removed: bool, ghost kept: seq<nat>)
      modifies this
      ensures LeftBehind(old(sessions), sessions, kept, Stays(tenant, session, cutoff))
      ensures Tables() == old(Tables()).(sessions := DropSession(old(sessions), tenant, session, cutoff))
      ensures removed <==> |old(sessions)| - |kept| == 1
    {
      kept := DropSessionLeaves(sessions, tenant, session, cutoff);
      var before := |sessions|;
      sessions := DropSession(sessions, tenant, session, cutoff);
      removed := before - |sessions| == 1;
    }
  }

  /** The handle a turn holds: however often it is released, the store settles it at most once. */
  class DurableTurnLease {
    const store: DurableQuotaStore
    const id: string
    var released: bool

    constructor (store: DurableQuotaStore, id: string)
      ensures this.store == store && this.id == id && !released
    {
      this.store := store;
      this.id := id;
      released := false;
    }

    method Release(usage: Option<Tokens>, footprint: Option<Footprint>, now: real)
      modifies this, store
      ensures released
      ensures store.Tables() == if old(released) then old(store.Tables())
                                else Settle(store.cfg, old(store.Tables()), id, usage, footprint, now).1
    {
      if !released {
        var settled := store.SettleTurn(id, usage, footprint, now);
        released := true;
      }
    }
  }
}
