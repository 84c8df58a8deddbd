/** Request admission: product_service.py, FixedWindowRateLimiter.admit and the request windows of
    DurableQuotaStore.admit_request. */
module RateLimit {
  import opened Wrappers

  /** int() of a float. */
  function Truncate(x: real): int {
    if x >= 0.0 then x.Floor else -((-x).Floor)
  }

  function AtLeastOne(n: int): int {
    if n < 1 then 1 else n
  }

  // The sliding window.

  /** The events younger than a minute: expired ones leave from the front. */
  function Live(events: seq<real>, now: real): seq<real> {
    if events != [] && events[0] <= now - 60.0 then Live(events[1..], now) else events
  }

  datatype Decision = Decision(admitted: bool, retryAfter: int, events: seq<real>)

  function AdmitOne(events: seq<real>, now: real, limit: nat): Decision
    requires limit > 0
  {
    var live := Live(events, now);
    if |live| >= limit then
      Decision(false, AtLeastOne(Truncate(61.0 - (now - live[0]))), live)
    else
      Decision(true, 0, live + [now])
  }

  class FixedWindowRateLimiter {
    const limit: nat
    var events: map<string, seq<real>>

    constructor (requestsPerMinute: nat)
      requires requestsPerMinute > 0
      ensures limit == requestsPerMinute && events == map[]
    {
      limit := requestsPerMinute;
      events := map[];
    }

    function EventsOf(tenant: string): (queue: seq<real>)
      reads this
      ensures events[tenant := queue] == events || (tenant !in events && |queue| == 0)
    {
      if tenant in events then events[tenant] else []
    }

    /** One call under the limiter's lock; only this tenant's events change. */
    method Admit(tenant: string, now: real) returns (ok: bool, retryAfter: int)
      requires limit > 0
      modifies this
      ensures var d := AdmitOne(old(EventsOf(tenant)), now, limit);
              && ok == d.admitted && retryAfter == d.retryAfter
              && events == old(events)[tenant := d.events]
    {
      var queue := EventsOf(tenant);
      while queue != [] && queue[0] <= now - 60.0
        invariant Live(queue, now) == Live(old(EventsOf(tenant)), now)
        invariant events == old(events)
        decreases |queue|
      {
        queue := queue[1..];
      }
      if |queue| >= limit {
        events := events[tenant := queue];
        return false, AtLeastOne(Truncate(61.0 - (now - queue[0])));
      }
      events := events[tenant := queue + [now]];
      return true, 0;
    }
  }

  /** One tenant's whole life: its event queue, and every admission ever granted. */
  datatype Life = Life(events: seq<real>, admitted: seq<real>)

  function Call(life: Life, now: real, limit: nat): Life
    requires limit > 0
  {
    var d := AdmitOne(life.events, now, limit);
    Life(d.events, if d.admitted then life.admitted + [now] else life.admitted)
  }

  function Calls(nows: seq<real>, limit: nat): Life
    requires limit > 0
  {
    if nows == [] then Life([], []) else Call(Calls(nows[..|nows| - 1], limit), nows[|nows| - 1], limit)
  }

  /** The calls reach the lock in clock order. */
  ghost predicate InClockOrder(nows: seq<real>) {
    forall i, j :: 0 <= i < j < |nows| ==> nows[i] <= nows[j]
  }

  /** How many of `times` lie in (t - 60, t]. */
  function CountInMinute(times: seq<real>, t: real): nat {
    if times == [] then 0 else
    var last := times[|times| - 1];
    CountInMinute(times[..|times| - 1], t) + (if t - 60.0 < last <= t then 1 else 0)
  }

  ghost predicate AtOrBefore(times: seq<real>, n: int, bound: real)
    requires n <= |times|
  {
    forall i :: 0 <= i < n ==> times[i] <= bound
  }

  /** Admissions `limit` apart are a minute apart. */
  ghost predicate SpacedAt(times: seq<real>, i: int, limit: nat)
    requires 0 <= i && i + limit < |times|
  {
    forall j :: 0 <= j <= i ==> times[j] <= times[i + limit] - 60.0
  }

  ghost predicate Spaced(times: seq<real>, limit: nat) {
    forall i :: 0 <= i < |times| - limit ==> SpacedAt(times, i, limit)
  }

  ghost predicate LifeInv(life: Life, last: real, limit: nat) {
    var dropped := |life.admitted| - |life.events|;
    && 0 <= dropped && life.events == life.admitted[dropped..]
    && |life.events| <= limit
    && AtOrBefore(life.admitted, |life.admitted|, last)
    && AtOrBefore(life.admitted, dropped, last - 60.0)
    && Spaced(life.admitted, limit)
  }

  lemma {:induction false} LiveDropsExpired(events: seq<real>, now: real) returns (k: nat)
    ensures k <= |events| && Live(events, now) == events[k..]
    ensures AtOrBefore(events, k, now - 60.0)
    ensures k < |events| ==> events[k] > now - 60.0
  {
    k := 0;
    if events != [] && events[0] <= now - 60.0 {
      k := LiveDropsExpired(events[1..], now);
      k := k + 1;
      forall i | 0 <= i < k
        ensures events[i] <= now - 60.0
      {
        if i > 0 {
          assert events[i] == events[1..][i - 1];
        }
      }
    }
  }

  lemma SpacedAppend(times: seq<real>, now: real, limit: nat)
    requires limit > 0 && Spaced(times, limit)
    requires |times| >= limit ==> AtOrBefore(times, |times| - limit + 1, now - 60.0)
    ensures Spaced(times + [now], limit)
  {
    var more := times + [now];
    forall i | 0 <= i < |more| - limit
      ensures SpacedAt(more, i, limit)
    {
      if i < |times| - limit {
        assert SpacedAt(times, i, limit);
      }
    }
  }

  /** Pruning splits the history further along: everything before the split is a minute old. */
  lemma PruneSplits(life: Life, last: real, now: real, limit: nat) returns (dropped: nat)
    requires LifeInv(life, last, limit)
    ensures dropped <= |life.admitted| && Live(life.events, now) == life.admitted[dropped..]
    ensures |Live(life.events, now)| <= limit
    ensures last <= now ==> AtOrBefore(life.admitted, dropped, now - 60.0)
  {
    var d := |life.admitted| - |life.events|;
    var k := LiveDropsExpired(life.events, now);
    dropped := d + k;
    assert life.admitted[d..][k..] == life.admitted[d + k..];
    if last <= now {
      forall i | 0 <= i < dropped
        ensures life.admitted[i] <= now - 60.0
      {
        if i >= d {
          assert life.admitted[i] == life.events[i - d];
        }
      }
    }
  }

  lemma GrowLife(admitted: seq<real>, dropped: nat, now: real, limit: nat)
    requires dropped <= |admitted| && |admitted| - dropped < limit
    requires AtOrBefore(admitted, |admitted|, now) && AtOrBefore(admitted, dropped, now - 60.0)
    requires Spaced(admitted, limit)
    ensures LifeInv(Life(admitted[dropped..] + [now], admitted + [now]), now, limit)
  {
    SpacedAppend(admitted, now, limit);
    assert (admitted + [now])[dropped..] == admitted[dropped..] + [now];
  }

  lemma CallKeepsInv(life: Life, last: real, now: real, limit: nat)
    requires limit > 0 && LifeInv(life, last, limit) && last <= now
    ensures LifeInv(Call(life, now, limit), now, limit)
  {
    var dropped := PruneSplits(life, last, now, limit);
    assert AtOrBefore(life.admitted, |life.admitted|, now);
    if |Live(life.events, now)| < limit {
      GrowLife(life.admitted, dropped, now, limit);
    }
  }

  lemma {:induction false} CallsKeepInv(nows: seq<real>, limit: nat)
    requires limit > 0 && InClockOrder(nows)
    ensures nows == [] ==> Calls(nows, limit) == Life([], [])
    ensures nows != [] ==> LifeInv(Calls(nows, limit), nows[|nows| - 1], limit)
    decreases |nows|
  {
    if nows != [] {
      var n := |nows| - 1;
      CallsKeepInv(nows[..n], limit);
      if n == 0 {
        assert LifeInv(Life([], []), nows[0], limit);
        assert nows[..0] == [];
      } else {
        assert nows[..n][n - 1] == nows[n - 1];
      }
      CallKeepsInv(Calls(nows[..n], limit), if n == 0 then nows[0] else nows[n - 1], nows[n], limit);
    }
  }

  lemma {:induction false} CountNoneEarly(times: seq<real>, n: nat, t: real)
    requires n <= |times| && AtOrBefore(times, n, t - 60.0)
    ensures CountInMinute(times, t) <= |times| - n
    decreases |times|
  {
    if times != [] {
      var m := |times| - 1;
      if n <= m {
        CountNoneEarly(times[..m], n, t);
      } else {
        CountNoneEarly(times[..m], m, t);
      }
    }
  }

  lemma {:induction false} SpacedBoundsCount(times: seq<real>, limit: nat, t: real)
    requires Spaced(times, limit)
    ensures CountInMinute(times, t) <= limit
    decreases |times|
  {
    if |times| > limit {
      var m := |times| - 1;
      if t - 60.0 < times[m] <= t {
        assert SpacedAt(times, m - limit, limit);
        CountNoneEarly(times, |times| - limit, t);
      } else {
        forall i | 0 <= i < |times[..m]| - limit
          ensures SpacedAt(times[..m], i, limit)
        {
          assert SpacedAt(times, i, limit);
        }
        SpacedBoundsCount(times[..m], limit, t);
      }
    } else {
      CountNoneEarly(times, 0, t);
    }
  }

  // A limit of one needs no clock order: the queue is always the last admission.

  ghost predicate OneLife(life: Life) {
    && life.events == (if life.admitted == [] then [] else [life.admitted[|life.admitted| - 1]])
    && Spaced(life.admitted, 1)
    && (life.admitted != [] ==> AtOrBefore(life.admitted, |life.admitted|, life.admitted[|life.admitted| - 1]))
  }

  lemma OneCallKeeps(life: Life, now: real)
    requires OneLife(life)
    ensures OneLife(Call(life, now, 1))
  {
    if life.admitted == [] {
      CallAdmits(life, [], now, 1);
    } else if life.events[0] <= now - 60.0 {
      assert life.events[1..] == [];
      CallAdmits(life, [], now, 1);
      SpacedAppend(life.admitted, now, 1);
    }
  }

  lemma CallAdmits(life: Life, live: seq<real>, now: real, limit: nat)
    requires Live(life.events, now) == live && |live| < limit
    ensures Call(life, now, limit) == Life(live + [now], life.admitted + [now])
  {
  }

  lemma {:induction false} OneCallsKeep(nows: seq<real>)
    ensures OneLife(Calls(nows, 1))
    decreases |nows|
  {
    if nows != [] {
      OneCallsKeep(nows[..|nows| - 1]);
      OneCallKeeps(Calls(nows[..|nows| - 1], 1), nows[|nows| - 1]);
    }
  }

  /** Whatever a tenant asks for and whenever: no minute (t - 60, t] sees more than `limit` admissions. */
  lemma SlidingWindowBound(nows: seq<real>, limit: nat, t: real)
    requires limit > 0 && (limit == 1 || InClockOrder(nows))
    ensures CountInMinute(Calls(nows, limit).admitted, t) <= limit
  {
    if limit == 1 {
      OneCallsKeep(nows);
    } else {
      CallsKeepInv(nows, limit);
    }
    SpacedBoundsCount(Calls(nows, limit).admitted, limit, t);
  }

  function Copies(x: real, n: nat): seq<real> {
    if n == 0 then [] else Copies(x, n - 1) + [x]
  }

  lemma {:induction false} CopiesAre(x: real, n: nat)
    ensures |Copies(x, n)| == n && forall i :: 0 <= i < n ==> Copies(x, n)[i] == x
  {
    if n > 0 {
      CopiesAre(x, n - 1);
    }
  }

  lemma {:induction false} CountCopies(x: real, n: nat, t: real)
    requires t - 60.0 < x <= t
    ensures CountInMinute(Copies(x, n), t) == n
  {
    if n > 0 {
      CountCopies(x, n - 1, t);
      assert Copies(x, n)[..|Copies(x, n)| - 1] == Copies(x, n - 1);
    }
  }

  lemma {:induction false} LiveKeepsYoung(events: seq<real>, now: real)
    requires forall i :: 0 <= i < |events| ==> events[i] > now - 60.0
    ensures Live(events, now) == events
  {
  }

  lemma {:induction false} LiveDropsOld(events: seq<real>, now: real)
    requires forall i :: 0 <= i < |events| ==> events[i] <= now - 60.0
    ensures Live(events, now) == []
  {
    if events != [] {
      LiveDropsOld(events[1..], now);
    }
  }

  predicate AllAre(many: seq<real>, x: real) {
    forall i :: 0 <= i < |many| ==> many[i] == x
  }

  /** A run that admitted all these copies of x, fewer than the limit, admits one more. */
  predicate AdmitsNext(run: seq<real> -> Life, many: seq<real>, x: real, limit: nat) {
    |many| < limit && AllAre(many, x) && run(many) == Life(many, many) ==>
      run(many + [x]) == Life(many + [x], many + [x])
  }

  lemma OneMoreCopy(many: seq<real>, x: real, limit: nat)
    requires |many| < limit && AllAre(many, x) && Calls(many, limit) == Life(many, many)
    ensures Calls(many + [x], limit) == Life(many + [x], many + [x])
  {
    LiveKeepsYoung(many, x);
    CallsAppend(many, x, limit);
    CallAdmits(Life(many, many), many, x, limit);
  }

  lemma {:induction false} RunOfCopies(run: seq<real> -> Life, x: real, n: nat, limit: nat)
    requires n <= limit && run([]) == Life([], [])
    requires forall many :: AdmitsNext(run, many, x, limit)
    ensures run(Copies(x, n)) == Life(Copies(x, n), Copies(x, n))
  {
    if n > 0 {
      RunOfCopies(run, x, n - 1, limit);
      CopiesAre(x, n - 1);
      assert AdmitsNext(run, Copies(x, n - 1), x, limit);
    }
  }

  lemma CallsOfCopies(x: real, n: nat, limit: nat)
    requires 0 < limit && n <= limit
    ensures Calls(Copies(x, n), limit) == Life(Copies(x, n), Copies(x, n))
  {
    var run := (nows: seq<real>) => Calls(nows, limit);
    forall many
      ensures AdmitsNext(run, many, x, limit)
    {
      if |many| < limit && AllAre(many, x) && run(many) == Life(many, many) {
        OneMoreCopy(many, x, limit);
      }
    }
    RunOfCopies(run, x, n, limit);
  }

  lemma CallsAppend(nows: seq<real>, now: real, limit: nat)
    requires limit > 0
    ensures Calls(nows + [now], limit) == Call(Calls(nows, limit), now, limit)
  {
    assert (nows + [now])[..|nows|] == nows;
  }

  lemma CountAppend(times: seq<real>, now: real, t: real)
    ensures CountInMinute(times + [now], t) == CountInMinute(times, t) + (if t - 60.0 < now <= t then 1 else 0)
  {
    assert (times + [now])[..|times|] == times;
  }

  /** The calls by which an inversion, a call at `now` behind one at `before`, exceeds the limit. */
  function Inverted(before: real, now: real, limit: nat): seq<real> {
    Copies(if before - 60.0 <= now then before - 60.0 else now, limit) + [before] + [now]
  }

  /** At every limit above one the clock order is needed, and for every inversion: admit reads its
      clock before it takes the lock, and a call that carries a reading older than its predecessor's
      can be the admission that is one too many for its minute. */
  lemma StaleClockExceedsBound(before: real, now: real, limit: nat)
    requires now < before && limit >= 2
    ensures CountInMinute(Calls(Inverted(before, now, limit), limit).admitted, now) == limit + 1
  {
    var x := if before - 60.0 <= now then before - 60.0 else now;
    var many := Copies(x, limit);
    CallsOfCopies(x, limit, limit);
    CopiesAre(x, limit);
    OldLeave(many, many, before, limit);
    StaleIsAdmitted(many + [before], many + [before], before, now, limit);
    CountCopies(x, limit, now);
    CountAppend(many, before, now);
    CountAppend(many + [before], now, now);
  }

  lemma OldLeave(nows: seq<real>, many: seq<real>, before: real, limit: nat)
    requires limit > 0 && Calls(nows, limit) == Life(many, many)
    requires forall i :: 0 <= i < |many| ==> many[i] <= before - 60.0
    ensures Calls(nows + [before], limit) == Life([before], many + [before])
  {
    LiveDropsOld(many, before);
    CallsAppend(nows, before, limit);
    assert [] + [before] == [before];
  }

  lemma StaleIsAdmitted(nows: seq<real>, admitted: seq<real>, before: real, now: real, limit: nat)
    requires now < before && limit >= 2 && Calls(nows, limit) == Life([before], admitted)
    ensures Calls(nows + [now], limit) == Life([before] + [now], admitted + [now])
  {
    LiveKeepsYoung([before], now);
    CallsAppend(nows, now, limit);
  }

  ghost predicate BoundWhateverClocks(limit: nat)
    requires limit > 0
  {
    forall nows: seq<real>, t: real :: CountInMinute(Calls(nows, limit).admitted, t) <= limit
  }

  /** The bound survives every order of clock readings exactly when the limit is one. */
  lemma BoundWhateverClocksIff(limit: nat)
    requires limit > 0
    ensures BoundWhateverClocks(limit) <==> limit == 1
  {
    if limit == 1 {
      forall nows: seq<real>, t: real
        ensures CountInMinute(Calls(nows, limit).admitted, t) <= limit
      {
        SlidingWindowBound(nows, limit, t);
      }
    } else {
      StaleClockExceedsBound(1.0, 0.0, limit);
    }
  }

  /** A refused caller learns exactly when to come back, whatever readings the queue holds: it stays
      refused while the oldest live event is younger than a minute, the Retry-After given overshoots
      that moment by less than a second, and after waiting it, with nobody else admitted, the caller is
      admitted. */
  lemma RetryAfterIsExact(events: seq<real>, now: real, limit: nat, later: real)
    requires limit > 0 && |events| <= limit && now <= later
    requires !AdmitOne(events, now, limit).admitted
    ensures var d := AdmitOne(events, now, limit);
            var opens := d.events[0] + 60.0;
            && opens < now + d.retryAfter as real <= opens + 1.0
            && (AdmitOne(d.events, later, limit).admitted <==> opens <= later)
  {
    var k := LiveDropsExpired(events, now);
    var live := Live(events, now);
    var j := LiveDropsExpired(live, later);
  }

  // Aligned windows, as the durable store keeps them.

  datatype WindowRow = WindowRow(start: int, count: nat)

  /** int(now // 60) * 60. */
  function WindowOf(now: real): int {
    (now / 60.0).Floor * 60
  }

  datatype Admission = Admission(admitted: bool, retryAfter: int, row: Option<WindowRow>)

  function AdmitInWindow(row: Option<WindowRow>, now: real, limit: nat): Admission {
    var window := WindowOf(now);
    var count := if row.None? || row.value.start != window then 0 else row.value.count;
    if count >= limit then
      Admission(false, AtLeastOne(Truncate((window + 60) as real - now)), row)
    else
      Admission(true, 0, Some(WindowRow(window, count + 1)))
  }

  datatype WindowLife = WindowLife(row: Option<WindowRow>, admitted: seq<real>)

  function WindowCall(life: WindowLife, now: real, limit: nat): WindowLife {
    var a := AdmitInWindow(life.row, now, limit);
    WindowLife(a.row, if a.admitted then life.admitted + [now] else life.admitted)
  }

  function WindowCalls(nows: seq<real>, limit: nat): WindowLife {
    if nows == [] then WindowLife(None, [])
    else WindowCall(WindowCalls(nows[..|nows| - 1], limit), nows[|nows| - 1], limit)
  }

  function CountInWindow(times: seq<real>, window: int): nat {
    if times == [] then 0 else
    CountInWindow(times[..|times| - 1], window)
    + (if WindowOf(times[|times| - 1]) == window then 1 else 0)
  }

  lemma WindowBounds(now: real)
    ensures WindowOf(now) as real <= now < (WindowOf(now) + 60) as real
  {
    var k := (now / 60.0).Floor;
    assert k as real <= now / 60.0 < k as real + 1.0;
    assert (k * 60) as real == k as real * 60.0;
  }

  lemma WindowUnique(now: real, k: int)
    requires (k * 60) as real <= now < (k * 60 + 60) as real
    ensures WindowOf(now) == k * 60
  {
    assert k as real <= now / 60.0 < k as real + 1.0;
  }

  ghost predicate WindowInv(life: WindowLife, last: real, limit: nat) {
    && (forall w :: CountInWindow(life.admitted, w) <= limit)
    && (life.row.None? ==> life.admitted == [])
    && (life.row.Some? ==>
          && life.row.value.count == CountInWindow(life.admitted, life.row.value.start)
          && life.row.value.start <= WindowOf(last)
          && forall w :: w > life.row.value.start ==> CountInWindow(life.admitted, w) == 0)
  }

  lemma CountInWindowAppend(times: seq<real>, now: real, w: int)
    ensures CountInWindow(times + [now], w) == CountInWindow(times, w) + (if WindowOf(now) == w then 1 else 0)
  {
    assert (times + [now])[..|times|] == times;
  }

  /** The calls reach the transaction in window order: a reading may be stale within its window. */
  ghost predicate InWindowOrder(nows: seq<real>) {
    forall i, j :: 0 <= i < j < |nows| ==> NotEarlier(nows, i, j)
  }

  predicate NotEarlier(nows: seq<real>, i: nat, j: nat)
    requires i < j < |nows|
  {
    WindowOf(nows[i]) <= WindowOf(nows[j])
  }

  lemma WindowCallKeepsInv(life: WindowLife, last: real, now: real, limit: nat)
    requires WindowInv(life, last, limit) && WindowOf(last) <= WindowOf(now)
    ensures WindowInv(WindowCall(life, now, limit), now, limit)
  {
    forall w
      ensures CountInWindow(life.admitted + [now], w)
              == CountInWindow(life.admitted, w) + (if WindowOf(now) == w then 1 else 0)
    {
      CountInWindowAppend(life.admitted, now, w);
    }
  }

  lemma {:induction false} WindowCallsKeepInv(nows: seq<real>, limit: nat)
    requires InWindowOrder(nows)
    ensures nows != [] ==> WindowInv(WindowCalls(nows, limit), nows[|nows| - 1], limit)
    decreases |nows|
  {
    if nows != [] {
      var n := |nows| - 1;
      forall i, j | 0 <= i < j < n
        ensures NotEarlier(nows[..n], i, j)
      {
        assert NotEarlier(nows, i, j);
      }
      WindowCallsKeepInv(nows[..n], limit);
      if n == 0 {
        assert nows[..0] == [];
        assert WindowInv(WindowLife(None, []), nows[0], limit);
      } else {
        assert NotEarlier(nows, n - 1, n);
        assert nows[..n][n - 1] == nows[n - 1];
      }
      WindowCallKeepsInv(WindowCalls(nows[..n], limit), if n == 0 then nows[0] else nows[n - 1], nows[n], limit);
    }
  }

  lemma {:induction false} MinuteTouchesTwoWindows(times: seq<real>, t: real)
    ensures CountInMinute(times, t)
            <= CountInWindow(times, WindowOf(t)) + CountInWindow(times, WindowOf(t) - 60)
    decreases |times|
  {
    if times != [] {
      var x := times[|times| - 1];
      MinuteTouchesTwoWindows(times[..|times| - 1], t);
      if t - 60.0 < x <= t {
        WindowBounds(t);
        var k := (t / 60.0).Floor;
        if x < (k * 60) as real {
          WindowUnique(x, k - 1);
        } else {
          WindowUnique(x, k);
        }
      }
    }
  }

  /** Aligned windows admit at most the limit each, and at most twice the limit in any minute, for
      calls in window order. */
  lemma AlignedWindowBound(nows: seq<real>, limit: nat, t: real)
    requires InWindowOrder(nows)
    ensures CountInMinute(WindowCalls(nows, limit).admitted, t) <= 2 * limit
    ensures forall w :: CountInWindow(WindowCalls(nows, limit).admitted, w) <= limit
  {
    WindowCallsKeepInv(nows, limit);
    MinuteTouchesTwoWindows(WindowCalls(nows, limit).admitted, t);
  }

  function Alternating(early: real, late: real, n: nat): seq<real> {
    if n == 0 then [] else Alternating(early, late, n - 1) + [early] + [late]
  }

  lemma WindowCallsAppend(nows: seq<real>, now: real, limit: nat)
    ensures WindowCalls(nows + [now], limit) == WindowCall(WindowCalls(nows, limit), now, limit)
  {
    assert (nows + [now])[..|nows|] == nows;
  }

  lemma BothAdmitted(life: WindowLife, early: real, late: real, limit: nat)
    requires limit > 0 && WindowOf(early) != WindowOf(late)
    requires life.row.Some? ==> life.row.value.start == WindowOf(late)
    ensures WindowCall(WindowCall(life, early, limit), late, limit)
            == WindowLife(Some(WindowRow(WindowOf(late), 1)), life.admitted + [early] + [late])
  {
  }

  lemma {:induction false} AlternatingCounts(early: real, late: real, n: nat)
    requires WindowOf(early) != WindowOf(late)
    ensures CountInWindow(Alternating(early, late, n), WindowOf(late)) == n
    ensures CountInWindow(Alternating(early, late, n), WindowOf(early)) == n
  {
    if n > 0 {
      var before := Alternating(early, late, n - 1);
      AlternatingCounts(early, late, n - 1);
      CountInWindowAppend(before, early, WindowOf(late));
      CountInWindowAppend(before + [early], late, WindowOf(late));
      CountInWindowAppend(before, early, WindowOf(early));
      CountInWindowAppend(before + [early], late, WindowOf(early));
    }
  }

  /** Everything asked was admitted, and the row, if any, is of the window `late`. */
  ghost predicate AllTaken(life: WindowLife, nows: seq<real>, late: int) {
    life.admitted == nows && (life.row.Some? ==> life.row.value.start == late)
  }

  lemma AlternatingStep(nows: seq<real>, life: WindowLife, early: real, late: real, limit: nat)
    requires limit > 0 && WindowOf(early) != WindowOf(late)
    requires life == WindowCalls(nows, limit) && AllTaken(life, nows, WindowOf(late))
    ensures AllTaken(WindowCalls(nows + [early] + [late], limit), nows + [early] + [late], WindowOf(late))
  {
    WindowCallsAppend(nows, early, limit);
    WindowCallsAppend(nows + [early], late, limit);
    BothAdmitted(life, early, late, limit);
  }

  lemma AlternatingRun(early: real, late: real, limit: nat, n: nat)
    requires limit > 0 && WindowOf(early) != WindowOf(late)
    ensures AllTaken(WindowCalls(Alternating(early, late, n), limit), Alternating(early, late, n), WindowOf(late))
  {
    var nows: seq<real> := [];
    for i := 0 to n
      invariant nows == Alternating(early, late, i)
      invariant AllTaken(WindowCalls(nows, limit), nows, WindowOf(late))
    {
      AlternatingStep(nows, WindowCalls(nows, limit), early, late, limit);
      nows := nows + [early] + [late];
    }
  }

  /** The window order is needed: admit_request reads its clock before it holds the write lock, and a
      reading from another window overwrites the row. Calls that alternate between two windows are all
      admitted, at every limit, however many they are. */
  lemma AlternatingWindowsAllAdmitted(early: real, late: real, limit: nat, n: nat)
    requires limit > 0 && WindowOf(early) != WindowOf(late)
    ensures var admitted := WindowCalls(Alternating(early, late, n), limit).admitted;
            && admitted == Alternating(early, late, n)
            && CountInWindow(admitted, WindowOf(late)) == CountInWindow(admitted, WindowOf(early)) == n
  {
    AlternatingRun(early, late, limit, n);
    AlternatingCounts(early, late, n);
  }

  /** One reading from an earlier window empties the row of a full one: refused before it, the late
      window admits again after it. */
  lemma StaleReadingReopensWindow(early: real, late: real, limit: nat, row: WindowRow)
    requires limit > 0 && WindowOf(early) != WindowOf(late) && row == WindowRow(WindowOf(late), limit)
    ensures !AdmitInWindow(Some(row), late, limit).admitted
    ensures var stale := AdmitInWindow(Some(row), early, limit);
            stale.admitted && AdmitInWindow(stale.row, late, limit).admitted
  {
  }

  /** A refused caller who waits exactly the Retry-After of an aligned window, with nobody else
      admitted, is admitted if and only if the time left was a whole number of seconds or at most
      one; otherwise it comes back too early, by less than a second. */
  lemma AlignedRetryAfterSufficesIff(row: Option<WindowRow>, now: real, limit: nat)
    requires limit > 0 && !AdmitInWindow(row, now, limit).admitted
    ensures var a := AdmitInWindow(row, now, limit);
            var left := (WindowOf(now) + 60) as real - now;
            && left - 1.0 < a.retryAfter as real && 1 <= a.retryAfter
            && (a.retryAfter == 1 || a.retryAfter as real <= left)
            && (AdmitInWindow(a.row, now + a.retryAfter as real, limit).admitted <==>
                  left <= 1.0 || left == left.Floor as real)
  {
    var a := AdmitInWindow(row, now, limit);
    var k := (now / 60.0).Floor;
    var left := (k * 60 + 60) as real - now;
    var back := now + a.retryAfter as real;
    WindowBounds(now);
    if left <= a.retryAfter as real {
      assert back < (k * 60 + 120) as real;
      WindowUnique(back, k + 1);
    } else {
      WindowUnique(back, k);
    }
  }
}
