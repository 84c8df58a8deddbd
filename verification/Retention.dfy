/** One undisturbed retention sweep, one explicit deletion, and the restart check: product_service.py,
    ProductDataManager and ProductRetentionMonitor.tick. Attribution has their interleavings. */
module Retention {
  import opened Sessions
  import opened Wrappers
  import Schedules

  /** Everything a sweep touches: the registry's rows, the sessions that have a file under each of the
      three roots, and the schedules. */
  datatype Product = Product(rows: map<SessionId, real>, conversations: set<SessionId>,
                             sandboxes: set<SessionId>, audits: set<SessionId>, data: Schedules.Table)

  function Owners(p: Product): set<SessionId> {
    p.conversations + p.sandboxes + p.audits
  }

  lemma StrayOwner(p: Product)
    requires !(p.conversations - p.rows.Keys == {} && p.audits - p.rows.Keys == {} && p.sandboxes - p.rows.Keys == {})
    ensures !Attributed(p)
  {
    if p.conversations - p.rows.Keys != {} {
      var id :| id in p.conversations - p.rows.Keys;
      assert id in Owners(p);
    } else if p.audits - p.rows.Keys != {} {
      var id :| id in p.audits - p.rows.Keys;
      assert id in Owners(p);
    } else {
      var id :| id in p.sandboxes - p.rows.Keys;
      assert id in Owners(p);
    }
  }

  ghost predicate Attributed(p: Product) {
    forall id :: id in Owners(p) ==> id in p.rows
  }

  predicate Scheduled(data: Schedules.Table, id: SessionId, cutoff: real, now: real) {
    exists key :: key in data && Schedules.OfSession(data[key], id.tenant, id.session)
                  && Schedules.Fresh(data[key], cutoff, now)
  }

  /** The sessions a sweep is to delete: inactive, and kept by no schedule. */
  ghost predicate Doomed(rows: map<SessionId, real>, data: Schedules.Table, id: SessionId, cutoff: real, now: real) {
    id in rows && rows[id] <= cutoff && !Scheduled(data, id, cutoff, now)
  }

  predicate HasSchedules(data: Schedules.Table, id: SessionId) {
    exists key :: key in data && Schedules.OfSession(data[key], id.tenant, id.session)
  }

  ghost predicate TrimmedAt(data: Schedules.Table, was: Schedules.Table, gone: set<SessionId>, key: Schedules.Key) {
    && (key in data <==> key in was && SessionId(was[key].tenant, was[key].plan.session) !in gone)
    && (key in data ==> data[key] == was[key])
  }

  /** The schedules left while only those of some doomed sessions are gone. */
  ghost predicate Trimmed(data: Schedules.Table, was: Schedules.Table, gone: set<SessionId>) {
    forall key :: TrimmedAt(data, was, gone, key)
  }

  lemma TrimOne(was: Schedules.Table, data: Schedules.Table, gone: set<SessionId>, id: SessionId)
    requires Trimmed(data, was, gone)
    ensures Trimmed(Schedules.WithoutSession(data, id.tenant, id.session), was, gone + {id})
  {
    forall key
      ensures TrimmedAt(Schedules.WithoutSession(data, id.tenant, id.session), was, gone + {id}, key)
    {
      assert TrimmedAt(data, was, gone, key);
    }
  }

  /** Sweeping other sessions does not change whether a schedule keeps this one. */
  lemma TrimKeepsScheduled(was: Schedules.Table, data: Schedules.Table, gone: set<SessionId>, id: SessionId,
                           cutoff: real, now: real)
    requires Trimmed(data, was, gone) && id !in gone
    ensures Scheduled(data, id, cutoff, now) <==> Scheduled(was, id, cutoff, now)
  {
    if key :| key in was && Schedules.OfSession(was[key], id.tenant, id.session)
              && Schedules.Fresh(was[key], cutoff, now) {
      assert TrimmedAt(data, was, gone, key);
    }
    if key :| key in data && Schedules.OfSession(data[key], id.tenant, id.session)
              && Schedules.Fresh(data[key], cutoff, now) {
      assert TrimmedAt(data, was, gone, key);
    }
  }

  function WithoutFiles(p: Product, id: SessionId): Product {
    p.(conversations := p.conversations - {id}, sandboxes := p.sandboxes - {id}, audits := p.audits - {id})
  }

  /** One session swept: its schedules, its files, and last its row. */
  function WithoutOne(p: Product, id: SessionId): Product {
    Product(p.rows - {id}, p.conversations - {id}, p.sandboxes - {id}, p.audits - {id},
            Schedules.WithoutSession(p.data, id.tenant, id.session))
  }

  lemma NothingToDelete(p: Product, id: SessionId)
    requires id !in Owners(p) && !HasSchedules(p.data, id)
    ensures WithoutOne(p, id).(rows := p.rows) == p
  {
    assert Schedules.WithoutSession(p.data, id.tenant, id.session) == p.data;
    assert p.conversations - {id} == p.conversations && p.sandboxes - {id} == p.sandboxes
        && p.audits - {id} == p.audits;
  }

  /** The sessions in `gone` are gone, everything else is as it was. */
  ghost predicate Without(p: Product, was: Product, gone: set<SessionId>) {
    && p.rows == was.rows - gone
    && p.conversations == was.conversations - gone
    && p.sandboxes == was.sandboxes - gone
    && p.audits == was.audits - gone
    && Trimmed(p.data, was.data, gone)
  }

  lemma OneMoreGone(p: Product, was: Product, gone: set<SessionId>, id: SessionId)
    requires Without(p, was, gone)
    ensures Without(WithoutOne(p, id), was, gone + {id})
  {
    TrimOne(was.data, p.data, gone, id);
    assert was.rows - gone - {id} == was.rows - (gone + {id});
    assert was.conversations - gone - {id} == was.conversations - (gone + {id});
    assert was.sandboxes - gone - {id} == was.sandboxes - (gone + {id});
    assert was.audits - gone - {id} == was.audits - (gone + {id});
  }

  ghost predicate DoomedAt(was: Product, gone: set<SessionId>, id: SessionId, cutoff: real, now: real) {
    id in gone <==> Doomed(was.rows, was.data, id, cutoff, now)
  }

  /** `gone` is exactly the sessions a sweep is to delete. */
  ghost predicate AllDoomed(was: Product, gone: set<SessionId>, cutoff: real, now: real) {
    forall id :: DoomedAt(was, gone, id, cutoff, now)
  }

  /** `gone` is some of the sessions a sweep is to delete. */
  ghost predicate SomeDoomed(was: Product, gone: set<SessionId>, cutoff: real, now: real) {
    forall id :: id in gone ==> Doomed(was.rows, was.data, id, cutoff, now)
  }

  /** inactive_sessions. */
  function Candidates(rows: map<SessionId, real>, cutoff: real): set<SessionId> {
    set id | id in rows && rows[id] <= cutoff
  }

  ghost predicate DecidedAt(was: Product, seen: set<SessionId>, gone: set<SessionId>, id: SessionId,
                            cutoff: real, now: real)
  {
    if id in seen then DoomedAt(was, gone, id, cutoff, now) else id !in gone
  }

  /** `gone` is the doomed among the sessions looked at. */
  ghost predicate Decided(was: Product, seen: set<SessionId>, gone: set<SessionId>, cutoff: real, now: real) {
    forall id :: DecidedAt(was, seen, gone, id, cutoff, now)
  }

  /** What a session's sweep removed early, the sweep of the schedules would have removed anyway. */
  lemma TrimmedThenSwept(was: Product, data: Schedules.Table, gone: set<SessionId>, cutoff: real, now: real)
    requires Trimmed(data, was.data, gone) && AllDoomed(was, gone, cutoff, now)
    ensures Schedules.Swept(data, cutoff, now) == Schedules.Swept(was.data, cutoff, now)
  {
    forall key
      ensures key in was.data && Schedules.Fresh(was.data[key], cutoff, now) ==>
                key in data && data[key] == was.data[key]
      ensures key in data ==> key in was.data && data[key] == was.data[key]
    {
      assert TrimmedAt(data, was.data, gone, key);
      if key in was.data && Schedules.Fresh(was.data[key], cutoff, now) {
        var id := SessionId(was.data[key].tenant, was.data[key].plan.session);
        assert Scheduled(was.data, id, cutoff, now);
        assert DoomedAt(was, gone, id, cutoff, now);
      }
    }
  }

  /** Where the loop over the candidates stands. */
  ghost predicate Progress(was: Product, p: Product, seen: set<SessionId>, gone: set<SessionId>,
                           cutoff: real, now: real)
  {
    Decided(was, seen, gone, cutoff, now) && Without(p, was, gone)
  }

  lemma ProgressStarts(was: Product, cutoff: real, now: real)
    ensures Progress(was, was, {}, {}, cutoff, now)
  {
    assert was.rows - {} == was.rows;
    forall id
      ensures DecidedAt(was, {}, {}, id, cutoff, now)
    {
    }
    forall key
      ensures TrimmedAt(was.data, was.data, {}, key)
    {
    }
  }

  lemma ProgressEnds(was: Product, p: Product, seen: set<SessionId>, gone: set<SessionId>,
                     cutoff: real, now: real)
    requires Progress(was, p, seen, gone, cutoff, now)
    ensures SomeDoomed(was, gone, cutoff, now)
    ensures seen == Candidates(was.rows, cutoff) ==> AllDoomed(was, gone, cutoff, now)
  {
    forall id | id in gone
      ensures Doomed(was.rows, was.data, id, cutoff, now)
    {
      assert DecidedAt(was, seen, gone, id, cutoff, now);
    }
    if seen == Candidates(was.rows, cutoff) {
      forall id
        ensures DoomedAt(was, gone, id, cutoff, now)
      {
        assert DecidedAt(was, seen, gone, id, cutoff, now);
      }
    }
  }

  lemma DoomedStill(was: Product, p: Product, gone: set<SessionId>, id: SessionId, cutoff: real, now: real)
    requires Without(p, was, gone) && id !in gone
    ensures Doomed(p.rows, p.data, id, cutoff, now) <==> Doomed(was.rows, was.data, id, cutoff, now)
  {
    TrimKeepsScheduled(was.data, p.data, gone, id, cutoff, now);
  }

  lemma DecidedGrows(was: Product, seen: set<SessionId>, gone: set<SessionId>, id: SessionId, swept: bool,
                     cutoff: real, now: real)
    requires Decided(was, seen, gone, cutoff, now) && id !in seen
    requires swept <==> Doomed(was.rows, was.data, id, cutoff, now)
    ensures Decided(was, seen + {id}, if swept then gone + {id} else gone, cutoff, now)
  {
    var gone' := if swept then gone + {id} else gone;
    forall other
      ensures DecidedAt(was, seen + {id}, gone', other, cutoff, now)
    {
      assert DecidedAt(was, seen, gone, other, cutoff, now);
    }
  }

  lemma UnseenStays(was: Product, seen: set<SessionId>, gone: set<SessionId>, id: SessionId, cutoff: real, now: real)
    requires Decided(was, seen, gone, cutoff, now) && id !in seen
    ensures id !in gone
  {
    assert DecidedAt(was, seen, gone, id, cutoff, now);
  }

  lemma ProgressGrows(was: Product, p: Product, seen: set<SessionId>, gone: set<SessionId>,
                      id: SessionId, cutoff: real, now: real)
    requires Progress(was, p, seen, gone, cutoff, now) && id !in seen
    requires Doomed(p.rows, p.data, id, cutoff, now)
    ensures Progress(was, WithoutOne(p, id), seen + {id}, gone + {id}, cutoff, now)
  {
    UnseenStays(was, seen, gone, id, cutoff, now);
    DoomedStill(was, p, gone, id, cutoff, now);
    DecidedGrows(was, seen, gone, id, true, cutoff, now);
    OneMoreGone(p, was, gone, id);
  }

  lemma ProgressSkips(was: Product, p: Product, seen: set<SessionId>, gone: set<SessionId>,
                      id: SessionId, cutoff: real, now: real)
    requires Progress(was, p, seen, gone, cutoff, now) && id !in seen
    requires !Doomed(p.rows, p.data, id, cutoff, now)
    ensures Progress(was, p, seen + {id}, gone, cutoff, now)
  {
    UnseenStays(was, seen, gone, id, cutoff, now);
    DoomedStill(was, p, gone, id, cutoff, now);
    DecidedGrows(was, seen, gone, id, false, cutoff, now);
  }

  class ProductRetentionMonitor {
    const retention: real
    var product: Product
    var checks: nat
    var failures: nat
    var deletedSessions: nat
    var deletedSchedules: int
    var healthy: bool

    constructor (retention: real, product: Product)
      requires retention > 0.0
      ensures this.retention == retention && this.product == product
      ensures checks == failures == deletedSessions == deletedSchedules == 0 && !healthy
    {
      this.retention := retention;
      this.product := product;
      checks := 0;
      failures := 0;
      deletedSessions := 0;
      deletedSchedules := 0;
      healthy := false;
    }

    /** verify_quota_registry over the rows. */
    method VerifyQuotaRegistry() returns (ok: bool)
      ensures ok <==> Attributed(product)
    {
      var registered := product.rows.Keys;
      ok := product.conversations - registered == {} && product.audits - registered == {}
            && product.sandboxes - registered == {};
      if ok {
        forall id | id in Owners(product)
          ensures id in registered
        {
          assert id !in product.conversations - registered && id !in product.audits - registered
                 && id !in product.sandboxes - registered;
        }
      } else {
        StrayOwner(product);
      }
    }

    method DeleteInternalFiles(id: SessionId) returns (found: bool)
      modifies `product
      ensures found <==> id in Owners(old(product))
      ensures product == WithoutFiles(old(product), id)
    {
      found := id in product.conversations || id in product.sandboxes || id in product.audits;
      product := product.(conversations := product.conversations - {id});
      product := product.(sandboxes := product.sandboxes - {id});
      product := product.(audits := product.audits - {id});
    }

    /** delete, undisturbed: schedules, files, row; a session without any of the first two is not found
        and keeps its row. */
    method Delete(id: SessionId) returns (found: bool)
      modifies `product
      ensures found <==> id in Owners(old(product)) || HasSchedules(old(product).data, id)
      ensures product == if found then WithoutOne(old(product), id) else old(product)
    {
      ghost var was := product;
      found := HasSchedules(product.data, id);
      product := product.(data := Schedules.WithoutSession(product.data, id.tenant, id.session));
      var files := DeleteInternalFiles(id);
      found := found || files;
      if found {
        product := product.(rows := product.rows - {id});
      } else {
        NothingToDelete(was, id);
      }
    }

    /** One candidate under its session lock. */
    method SweepOne(id: SessionId, cutoff: real, now: real) returns (swept: bool)
      modifies `product
      ensures swept <==> Doomed(old(product).rows, old(product).data, id, cutoff, now)
      ensures product == if swept then WithoutOne(old(product), id) else old(product)
    {
      if id !in product.rows || product.rows[id] > cutoff {
        return false;
      }
      if Scheduled(product.data, id, cutoff, now) {
        return false;
      }
      product := product.(data := Schedules.WithoutSession(product.data, id.tenant, id.session));
      var found := DeleteInternalFiles(id);
      if id in product.rows && product.rows[id] <= cutoff {
        product := product.(rows := product.rows - {id});
      }
      swept := true;
    }

    /** The loop over the inactive sessions; `gone` is the sessions it deletes. With a fault it is left
        by an exception once that many sessions were looked at, before anything of the next is touched. */
    method SweepSessions(cutoff: real, now: real, fault: Option<nat>)
      returns (sessions: nat, raised: bool, ghost gone: set<SessionId>)
      modifies `product
      ensures SomeDoomed(old(product), gone, cutoff, now) && Without(product, old(product), gone)
      ensures sessions == |gone|
      ensures raised <==> fault.Some? && fault.value <= |Candidates(old(product).rows, cutoff)|
      ensures !raised ==> AllDoomed(old(product), gone, cutoff, now)
    {
      sessions, gone := 0, {};
      ghost var was := product;
      ghost var seen: set<SessionId> := {};
      var left := Candidates(product.rows, cutoff);
      ghost var candidates := left;
      var looked := 0;
      ProgressStarts(was, cutoff, now);
      while left != {} && !(fault.Some? && looked == fault.value)
        invariant seen !! left && seen + left == candidates && looked + |left| == |candidates|
        invariant fault.Some? ==> looked <= fault.value
        invariant Progress(was, product, seen, gone, cutoff, now) && sessions == |gone|
        decreases |left|
      {
        var id :| id in left;
        ghost var before := product;
        UnseenStays(was, seen, gone, id, cutoff, now);
        var swept := SweepOne(id, cutoff, now);
        if swept {
          ProgressGrows(was, before, seen, gone, id, cutoff, now);
          gone := gone + {id};
          sessions := sessions + 1;
        } else {
          ProgressSkips(was, before, seen, gone, id, cutoff, now);
        }
        left := left - {id};
        seen := seen + {id};
        looked := looked + 1;
      }
      raised := fault.Some? && looked == fault.value;
      ProgressEnds(was, product, seen, gone, cutoff, now);
    }

    /** The whole sweep: sessions first, then the inactive schedules, unless an exception came. */
    method Sweep(cutoff: real, now: real, fault: Option<nat>)
      returns (sessions: nat, removed: int, raised: bool, ghost gone: set<SessionId>)
      modifies `product
      ensures raised <==> fault.Some? && fault.value <= |Candidates(old(product).rows, cutoff)|
      ensures !raised ==> AllDoomed(old(product), gone, cutoff, now)
                          && SweptOf(old(product), product, gone, cutoff, now)
      ensures raised ==> SomeDoomed(old(product), gone, cutoff, now) && Without(product, old(product), gone)
      ensures sessions == |gone| && removed == |old(product).data| - |product.data|
    {
      removed := |product.data|;
      ghost var was := product;
      sessions, raised, gone := SweepSessions(cutoff, now, fault);
      if !raised {
        ghost var swept := product;
        product := product.(data := Schedules.Swept(product.data, cutoff, now));
        SweepEnds(was, swept, gone, cutoff, now);
      }
      removed := removed - |product.data|;
    }

    /** tick: the sessions to go lose their schedules, their files and last their row; then inactive
        schedules go. A failed precheck deletes nothing, an exception stops the sweep where it is, and
        either way the tick reports what did go and a failure. */
    method Tick(now: real, precheck: bool, fault: Option<nat>) returns (ok: bool, ghost gone: set<SessionId>)
      modifies this
      ensures ok == healthy
      ensures ok <==> precheck && !(fault.Some? && fault.value <= |Candidates(old(product).rows, now - retention)|)
      ensures checks == old(checks) + 1 && failures == old(failures) + (if ok then 0 else 1)
      ensures ok ==> AllDoomed(old(product), gone, now - retention, now)
                     && SweptOf(old(product), product, gone, now - retention, now)
      ensures !ok && precheck ==> SomeDoomed(old(product), gone, now - retention, now)
                                  && Without(product, old(product), gone)
      ensures !precheck ==> gone == {} && product == old(product)
      ensures deletedSessions == old(deletedSessions) + |gone|
      ensures deletedSchedules == old(deletedSchedules) + (|old(product).data| - |product.data|)
    {
      ok, gone := precheck, {};
      var sessions, removed := 0, 0;
      if precheck {
        var raised;
        sessions, removed, raised, gone := Sweep(now - retention, now, fault);
        ok := !raised;
      }
      checks, healthy := checks + 1, ok;
      failures := failures + (if ok then 0 else 1);
      deletedSessions, deletedSchedules := deletedSessions + sessions, deletedSchedules + removed;
    }
  }

  /** What an undisturbed sweep that deletes `gone` leaves. */
  ghost predicate SweptOf(was: Product, p: Product, gone: set<SessionId>, cutoff: real, now: real) {
    && p.rows == was.rows - gone
    && p.conversations == was.conversations - gone
    && p.sandboxes == was.sandboxes - gone
    && p.audits == was.audits - gone
    && p.data == Schedules.Swept(was.data, cutoff, now)
  }

  lemma SweepEnds(was: Product, p: Product, gone: set<SessionId>, cutoff: real, now: real)
    requires Without(p, was, gone) && AllDoomed(was, gone, cutoff, now)
    ensures SweptOf(was, p.(data := Schedules.Swept(p.data, cutoff, now)), gone, cutoff, now)
  {
    TrimmedThenSwept(was, p.data, gone, cutoff, now);
  }

  // What a sweep means.

  /** After a sweep every session left is recent or kept by a schedule that is left too, every file
      left still has its row, and a second sweep at the same time has nothing to delete. */
  lemma SweepIsComplete(was: Product, p: Product, gone: set<SessionId>, cutoff: real, now: real)
    requires AllDoomed(was, gone, cutoff, now) && SweptOf(was, p, gone, cutoff, now)
    ensures forall id :: id in p.rows ==> p.rows[id] > cutoff || Scheduled(p.data, id, cutoff, now)
    ensures Attributed(was) ==> Attributed(p)
    ensures AllDoomed(p, {}, cutoff, now) && Schedules.Swept(p.data, cutoff, now) == p.data
  {
    forall id | id in p.rows && p.rows[id] <= cutoff
      ensures Scheduled(p.data, id, cutoff, now)
    {
      assert DoomedAt(was, gone, id, cutoff, now);
      var key :| key in was.data && Schedules.OfSession(was.data[key], id.tenant, id.session)
                 && Schedules.Fresh(was.data[key], cutoff, now);
      assert key in p.data;
    }
    forall id
      ensures DoomedAt(p, {}, id, cutoff, now)
    {
    }
  }

  /** A sweep that an exception cut short still leaves every file with its row, and only sessions it
      was to delete are gone. */
  lemma PartialSweepIsSound(was: Product, p: Product, gone: set<SessionId>, cutoff: real, now: real)
    requires SomeDoomed(was, gone, cutoff, now) && Without(p, was, gone)
    ensures Attributed(was) ==> Attributed(p)
    ensures forall id :: id in was.rows && id !in p.rows ==>
              was.rows[id] <= cutoff && !Scheduled(was.data, id, cutoff, now)
  {
  }

  /** A deletion that nothing overlaps leaves every other session's state alone, nothing of its own,
      and a registry the restart check accepts. */
  lemma DeletionIsComplete(was: Product, id: SessionId)
    ensures var p := WithoutOne(was, id);
            && id !in p.rows && id !in Owners(p) && !HasSchedules(p.data, id)
            && (forall other :: other != id ==>
                  && (other in p.rows <==> other in was.rows)
                  && (other in was.rows ==> p.rows[other] == was.rows[other])
                  && (other in Owners(p) <==> other in Owners(was))
                  && (HasSchedules(p.data, other) <==> HasSchedules(was.data, other)))
            && (Attributed(was) ==> Attributed(p))
  {
    var p := WithoutOne(was, id);
    forall other | other != id
      ensures HasSchedules(p.data, other) <==> HasSchedules(was.data, other)
    {
      if key :| key in was.data && Schedules.OfSession(was.data[key], other.tenant, other.session) {
        assert key in p.data;
      }
    }
  }
}
