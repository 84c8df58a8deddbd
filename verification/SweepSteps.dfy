/** The erasing steps of Attribution against the whole sweeps and deletions of Retention:
    product_service.py, ProductDataManager.delete_internal_files and verify_quota_registry. */
module SweepSteps {
  import opened Attribution
  import opened Sessions
  import Retention
  import Schedules

  /** What Retention sees of a state: its rows and files, beside a table of schedules. */
  function ProductOf(s: State, data: Schedules.Table): Retention.Product {
    Retention.Product(s.rows, SessionsWith(s.files, Conversation), SessionsWith(s.files, Sandbox),
                      SessionsWith(s.files, Audit), data)
  }

  /** Both models mean the same by a registry that accounts for every file. */
  lemma AttributedAgree(s: State, data: Schedules.Table)
    ensures Attributed(s) <==> Retention.Attributed(ProductOf(s, data))
  {
    var p := ProductOf(s, data);
    if Retention.Attributed(p) {
      forall f | f in s.files
        ensures f.session in s.rows
      {
        assert f.session in SessionsWith(s.files, f.kind);
        assert f.session in Retention.Owners(p);
      }
    }
    if Attributed(s) {
      forall id | id in Retention.Owners(p)
        ensures id in p.rows
      {
        assert exists f :: f in s.files && f.session == id;
      }
    }
  }

  function WithoutFile(files: set<File>, kind: Kind, session: SessionId): set<File> {
    files - {File(kind, session)}
  }

  function WithoutFiles(files: set<File>, session: SessionId): set<File> {
    WithoutFile(WithoutFile(WithoutFile(files, Conversation, session), Sandbox, session), Audit, session)
  }

  lemma RemoveOneFile(files: set<File>, kind: Kind, session: SessionId, other: Kind)
    ensures var fewer := WithoutFile(files, kind, session);
            forall id :: id in SessionsWith(fewer, other) <==>
              id in SessionsWith(files, other) && !(kind == other && id == session)
  {
    var fewer := WithoutFile(files, kind, session);
    forall id | id in SessionsWith(files, other) && !(kind == other && id == session)
      ensures id in SessionsWith(fewer, other)
    {
      var f :| f in files && f.kind == other && f.session == id;
      assert f in fewer;
    }
  }

  lemma RemoveThreeFiles(files: set<File>, id: SessionId, kind: Kind)
    ensures SessionsWith(WithoutFiles(files, id), kind) == SessionsWith(files, kind) - {id}
  {
    var f1 := WithoutFile(files, Conversation, id);
    RemoveOneFile(files, Conversation, id, kind);
    RemoveOneFile(f1, Sandbox, id, kind);
    RemoveOneFile(WithoutFile(f1, Sandbox, id), Audit, id, kind);
  }

  function StepsLeft(stage: Stage): nat {
    match stage
    case RemoveConversation => 4
    case RemoveSandbox => 3
    case RemoveAudit => 2
    case DropRow => 1
  }

  function EraseTimes(s: State, t: nat, n: nat): State
    requires t in s.threads && s.threads[t].Erasing? && n <= StepsLeft(s.threads[t].stage)
    decreases n
  {
    if n == 0 then s
    else if s.threads[t].stage.DropRow? then AfterErase(s, t)
    else EraseTimes(AfterErase(s, t), t, n - 1)
  }

  lemma EraseSteps(s: State, t: nat)
    requires t in s.threads && s.threads[t].Erasing? && s.threads[t].stage.RemoveConversation?
    ensures var e := EraseTimes(s, t, 3);
            && e.rows == s.rows && t in e.threads && e.threads[t] == s.threads[t].(stage := DropRow)
            && e.files == WithoutFiles(s.files, s.threads[t].session)
            && EraseTimes(s, t, 4) == AfterErase(e, t)
  {
    var s1 := AfterErase(s, t);
    var s2 := AfterErase(s1, t);
    var s3 := AfterErase(s2, t);
    assert EraseTimes(s2, t, 1) == s3;
    assert EraseTimes(s1, t, 2) == s3;
    assert EraseTimes(s, t, 3) == s3;
    assert EraseTimes(s3, t, 1) == AfterErase(s3, t);
    assert EraseTimes(s2, t, 2) == AfterErase(s3, t);
    assert EraseTimes(s1, t, 3) == AfterErase(s3, t);
  }

  /** The four erasing steps, run together, are the one step Retention takes for a session: a sweep's
      when the session is still inactive, a deletion's when it found something. */
  lemma ErasingIsWithoutOne(s: State, t: nat, data: Schedules.Table)
    requires t in s.threads && s.threads[t].Erasing? && s.threads[t].stage.RemoveConversation?
    requires DropsRow(s, s.threads[t])
    ensures var id := s.threads[t].session;
            ProductOf(EraseTimes(s, t, 4), Schedules.WithoutSession(data, id.tenant, id.session))
            == Retention.WithoutOne(ProductOf(s, data), id)
  {
    var id := s.threads[t].session;
    EraseSteps(s, t);
    RemoveThreeFiles(s.files, id, Conversation);
    RemoveThreeFiles(s.files, id, Sandbox);
    RemoveThreeFiles(s.files, id, Audit);
  }
}
