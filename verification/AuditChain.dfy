/** The hash-linked, optionally signed chain: agent.py, entry_hash, sign_entry and verify_chain. */
module AuditChain {
  import opened Wrappers

  /** Sixty-four zeros. */
  const GENESIS: string := seq(64, _ => '0')

  /** One record as read back from disk: any of the chain fields may be missing. `session` and
      `content` stand for everything else it states. */
  datatype Record = Record(seqNo: Option<int>, prevHash: Option<string>, session: string,
                           content: string, sig: Option<string>)

  /** entry_hash: the digest of a whole record, signature included. */
  type Hash = Record -> string

  /** HMAC under one key, over a record's digest. */
  type Mac = string -> string

  function Unsigned(r: Record): Record {
    r.(sig := None)
  }

  function SignEntry(r: Record, mac: Mac, hash: Hash): string {
    mac(hash(Unsigned(r)))
  }

  datatype Problem =
    | NotLinked(index: nat)
    | BadSequence(index: nat)
    | MissingSignature(index: nat)
    | BadSignature(index: nat)

  /** What is wrong with the record at index i when its predecessor's digest is `expected`. */
  function RecordProblem(r: Record, i: nat, expected: string, key: Option<Mac>, hash: Hash): Option<Problem> {
    if r.prevHash != Some(expected) then Some(NotLinked(i))
    else if r.seqNo != Some(i) then Some(BadSequence(i))
    else if key.None? then None
    else if r.sig.None? || r.sig.value == "" then Some(MissingSignature(i))
    else if r.sig.value != SignEntry(r, key.value, hash) then Some(BadSignature(i))
    else None
  }

  function Expected(records: seq<Record>, i: nat, hash: Hash): string
    requires i <= |records|
  {
    if i == 0 then GENESIS else hash(records[i - 1])
  }

  /** verify_chain: one pass carrying the expected digest. It reports the first break, and a break at
      an index vouches for everything before it. */
  method VerifyChain(records: seq<Record>, key: Option<Mac>, hash: Hash) returns (problem: Option<Problem>)
    ensures problem.None? <==> Verifies(records, key, hash)
    ensures problem.Some? ==>
      var i := problem.value.index;
      && i < |records| && Verifies(records[..i], key, hash)
      && problem == RecordProblem(records[i], i, Expected(records, i, hash), key, hash)
  {
    var expected := GENESIS;
    var i := 0;
    while i < |records|
      invariant 0 <= i <= |records|
      invariant expected == Expected(records, i, hash)
      invariant Verifies(records[..i], key, hash)
    {
      problem := RecordProblem(records[i], i, expected, key, hash);
      if problem.Some? {
        assert !RecordOk(records, i, key, hash);
        return;
      }
      ExtendVerified(records, i, key, hash);
      expected := hash(records[i]);
      i := i + 1;
    }
    assert records[..|records|] == records;
    problem := None;
  }

  /** A chain verifies when every record is the one its position asks for. */
  ghost predicate Verifies(records: seq<Record>, key: Option<Mac>, hash: Hash) {
    forall i :: 0 <= i < |records| ==> RecordOk(records, i, key, hash)
  }

  ghost predicate RecordOk(records: seq<Record>, i: nat, key: Option<Mac>, hash: Hash)
    requires i < |records|
  {
    RecordProblem(records[i], i, Expected(records, i, hash), key, hash) == None
  }

  lemma ExtendVerified(records: seq<Record>, i: nat, key: Option<Mac>, hash: Hash)
    requires i < |records| && Verifies(records[..i], key, hash)
    requires RecordOk(records, i, key, hash)
    ensures Verifies(records[..i + 1], key, hash)
  {
    var longer := records[..i + 1];
    forall j | 0 <= j < |longer|
      ensures RecordOk(longer, j, key, hash)
    {
      if j < i {
        assert RecordOk(records[..i], j, key, hash);
        assert Expected(longer, j, hash) == Expected(records[..i], j, hash);
      }
    }
  }

  /** The digests of the records in hand do not collide: all that is asked of SHA-256. */
  ghost predicate NoCollision(a: seq<Record>, b: seq<Record>, hash: Hash) {
    forall i :: 0 <= i < |a| && i < |b| && hash(a[i]) == hash(b[i]) ==> a[i] == b[i]
  }

  /** Losing the tail leaves a chain that verifies: truncation is invisible without an anchor. */
  lemma PrefixVerifies(records: seq<Record>, n: nat, key: Option<Mac>, hash: Hash)
    requires n <= |records| && Verifies(records, key, hash)
    ensures Verifies(records[..n], key, hash)
  {
    forall i | 0 <= i < n
      ensures RecordOk(records[..n], i, key, hash)
    {
      assert RecordOk(records, i, key, hash);
      assert Expected(records[..n], i, hash) == Expected(records, i, hash);
    }
  }

  lemma LinkAndPosition(records: seq<Record>, i: nat, key: Option<Mac>, hash: Hash)
    requires Verifies(records, key, hash) && i < |records|
    ensures records[i].seqNo == Some(i) && records[i].prevHash == Some(Expected(records, i, hash))
  {
    assert RecordOk(records, i, key, hash);
  }

  ghost predicate AgreesBack(a: seq<Record>, b: seq<Record>, i: nat)
    requires 0 < i < |a| && i < |b|
  {
    a[i] == b[i] ==> a[i - 1] == b[i - 1]
  }

  lemma LinkedAgreeBack(a: seq<Record>, b: seq<Record>, i: nat, hash: Hash)
    requires NoCollision(a, b, hash) && Verifies(a, None, hash) && Verifies(b, None, hash)
    requires 0 < i < |a| && i < |b|
    ensures AgreesBack(a, b, i)
  {
    if a[i] == b[i] {
      LinkAndPosition(a, i, None, hash);
      LinkAndPosition(b, i, None, hash);
    }
  }

  lemma {:induction false} AgreeThroughout(a: seq<Record>, b: seq<Record>, n: nat)
    requires n < |a| && n < |b| && a[n] == b[n]
    requires forall i :: 0 < i <= n ==> AgreesBack(a, b, i)
    ensures a[..n + 1] == b[..n + 1]
  {
    if n > 0 {
      assert AgreesBack(a, b, n);
      AgreeThroughout(a, b, n - 1);
      assert a[..n + 1] == a[..n] + [a[n]];
      assert b[..n + 1] == b[..n] + [b[n]];
    }
  }

  /** Two verifying chains that hold the same record at one position agree on everything before it. */
  lemma SharedRecordSharesPast(a: seq<Record>, b: seq<Record>, n: nat, hash: Hash)
    requires NoCollision(a, b, hash) && Verifies(a, None, hash) && Verifies(b, None, hash)
    requires n < |a| && n < |b| && a[n] == b[n]
    ensures a[..n + 1] == b[..n + 1]
  {
    forall i | 0 < i <= n
      ensures AgreesBack(a, b, i)
    {
      LinkedAgreeBack(a, b, i, hash);
    }
    AgreeThroughout(a, b, n);
  }

  /** The digest of the head pins the whole chain. */
  lemma HeadHashPinsChain(a: seq<Record>, b: seq<Record>, hash: Hash)
    requires NoCollision(a, b, hash) && Verifies(a, None, hash) && Verifies(b, None, hash)
    requires |a| == |b|
    requires Expected(a, |a|, hash) == Expected(b, |b|, hash)
    ensures a == b
  {
    if a != [] {
      SharedRecordSharesPast(a, b, |a| - 1, hash);
      assert a[..|a|] == a && b[..|b|] == b;
    }
  }

  /** Without a key: replacing one record of a verifying chain goes unnoticed exactly when the
      replacement keeps the position fields and either is the last record or is no change at all. */
  lemma UnkeyedEditUnnoticedIff(records: seq<Record>, i: nat, edited: Record, hash: Hash)
    requires Verifies(records, None, hash) && i < |records|
    requires hash(edited) == hash(records[i]) ==> edited == records[i]
    ensures Verifies(records[i := edited], None, hash) <==>
              && edited.seqNo == Some(i) && edited.prevHash == records[i].prevHash
              && (i == |records| - 1 || edited == records[i])
  {
    var after := records[i := edited];
    assert Expected(after, i, hash) == Expected(records, i, hash);
    LinkAndPosition(records, i, None, hash);
    if Verifies(after, None, hash) {
      LinkAndPosition(after, i, None, hash);
      if i < |records| - 1 {
        LinkAndPosition(after, i + 1, None, hash);
        LinkAndPosition(records, i + 1, None, hash);
      }
    } else {
      var j :| 0 <= j < |after| && !RecordOk(after, j, None, hash);
      LinkAndPosition(records, j, None, hash);
    }
  }

  /** The record at index k of the list stands at that index among the records too. */
  ghost predicate SamePlace(records: seq<Record>, list: seq<Record>, k: nat)
    requires k < |list|
  {
    k < |records| && list[k] == records[k]
  }

  lemma LinkedRecordKeepsPlace(records: seq<Record>, list: seq<Record>, k: nat, hash: Hash)
    requires Verifies(records, None, hash) && Verifies(list, None, hash)
    requires k < |list| && list[k] in records
    ensures SamePlace(records, list, k)
  {
    var j :| 0 <= j < |records| && records[j] == list[k];
    LinkAndPosition(list, k, None, hash);
    LinkAndPosition(records, j, None, hash);
  }

  lemma AllInPlaceIsPrefix(records: seq<Record>, list: seq<Record>)
    requires forall k :: 0 <= k < |list| ==> SamePlace(records, list, k)
    ensures list <= records
  {
    if list != [] {
      assert SamePlace(records, list, |list| - 1);
      forall k | 0 <= k < |list|
        ensures list[k] == records[k]
      {
        assert SamePlace(records, list, k);
      }
    }
  }

  /** Without a key: a list made only of records of one verifying chain verifies exactly when it is a
      prefix of it, so deletions from the middle, reorderings and repetitions are all caught. */
  lemma RearrangedVerifiesIffPrefix(records: seq<Record>, list: seq<Record>, hash: Hash)
    requires Verifies(records, None, hash)
    requires forall k :: 0 <= k < |list| ==> list[k] in records
    ensures Verifies(list, None, hash) <==> list <= records
  {
    if Verifies(list, None, hash) {
      forall k | 0 <= k < |list|
        ensures SamePlace(records, list, k)
      {
        LinkedRecordKeepsPlace(records, list, k, hash);
      }
      AllInPlaceIsPrefix(records, list);
    }
    if list <= records {
      PrefixVerifies(records, |list|, None, hash);
      assert records[..|list|] == list;
    }
  }

  // Chains as the log appends them.

  datatype Body = Body(session: string, content: string)

  /** The record append_or_raise writes behind `prior`. */
  function NewEntry(prior: Option<Record>, body: Body, key: Option<Mac>, hash: Hash): Option<Record> {
    if prior.Some? && prior.value.seqNo.None? then None else
    var entry := Record(Some(if prior.None? then 0 else prior.value.seqNo.value + 1),
                        Some(if prior.None? then GENESIS else hash(prior.value)),
                        body.session, body.content, None);
    Some(if key.None? then entry else entry.(sig := Some(SignEntry(entry, key.value, hash))))
  }

  function Last(records: seq<Record>): Option<Record> {
    if records == [] then None else Some(records[|records| - 1])
  }

  ghost predicate SignsSomething(key: Option<Mac>) {
    key.Some? ==> forall h :: key.value(h) != ""
  }

  /** Appending keeps a chain verifying, with and without a key. */
  lemma AppendVerifies(records: seq<Record>, body: Body, key: Option<Mac>, hash: Hash)
    requires Verifies(records, key, hash) && SignsSomething(key)
    ensures var entry := NewEntry(Last(records), body, key, hash);
            entry.Some? && Verifies(records + [entry.value], key, hash)
  {
    var n := |records|;
    if n > 0 {
      assert RecordOk(records, n - 1, key, hash);
    }
    var longer := records + [NewEntry(Last(records), body, key, hash).value];
    assert longer[..n] == records && longer[..n + 1] == longer;
    assert Unsigned(longer[n]) == longer[n].(sig := None);
    ExtendVerified(longer, n, key, hash);
  }

  /** The chain that appending `bodies` one after the other leaves. */
  function Appended(bodies: seq<Body>, key: Option<Mac>, hash: Hash): (records: seq<Record>)
    ensures |records| == |bodies|
    ensures records != [] ==> records[|records| - 1].seqNo.Some?
  {
    if bodies == [] then [] else
    var before := Appended(bodies[..|bodies| - 1], key, hash);
    match NewEntry(Last(before), bodies[|bodies| - 1], key, hash)
    case Some(entry) => before + [entry]
  }

  lemma {:induction false} AppendedVerifies(bodies: seq<Body>, key: Option<Mac>, hash: Hash)
    requires SignsSomething(key)
    ensures Verifies(Appended(bodies, key, hash), key, hash)
  {
    if bodies != [] {
      AppendedVerifies(bodies[..|bodies| - 1], key, hash);
      AppendVerifies(Appended(bodies[..|bodies| - 1], key, hash), bodies[|bodies| - 1], key, hash);
    }
  }

  /** The record says who did what. */
  predicate States(r: Record, body: Body) {
    r.session == body.session && r.content == body.content
  }

  /** A new record states this body, follows its predecessor, and is signed exactly under a key. */
  lemma NewEntryStates(prior: Option<Record>, body: Body, key: Option<Mac>, hash: Hash)
    requires prior.Some? ==> prior.value.seqNo.Some?
    ensures var entry := NewEntry(prior, body, key, hash);
            && entry.Some? && States(entry.value, body)
            && (prior.None? ==> entry.value.seqNo == Some(0))
            && (prior.Some? ==> entry.value.seqNo == Some(prior.value.seqNo.value + 1)
                                && entry.value.prevHash == Some(hash(prior.value)))
            && (entry.value.sig.Some? <==> key.Some?)
  {
  }

  /** The i-th record of a chain states the i-th body appended. */
  lemma {:induction false} AppendedStates(bodies: seq<Body>, key: Option<Mac>, hash: Hash, i: nat)
    requires i < |bodies|
    ensures States(Appended(bodies, key, hash)[i], bodies[i])
  {
    var n := |bodies| - 1;
    NewEntryStates(Last(Appended(bodies[..n], key, hash)), bodies[n], key, hash);
    if i < n {
      AppendedStates(bodies[..n], key, hash, i);
    }
  }

  /** A signature covers everything a record states: where neither the codes nor the digests of the two
      records at hand collide, only records alike but for the signature share one. */
  lemma SignatureCoversAll(a: Record, b: Record, mac: Mac, hash: Hash)
    requires SignEntry(a, mac, hash) == SignEntry(b, mac, hash)
    requires var x, y := hash(a.(sig := None)), hash(b.(sig := None));
             (mac(x) == mac(y) ==> x == y) && (x == y ==> a.(sig := None) == b.(sig := None))
    ensures a.(sig := b.sig) == b
  {
  }

  /** Unforgeability (section 2 of RFC 2104): a signature that checks was made by the key's holder,
      who signs only what it appends, so its record stands in some appended chain. */
  ghost predicate OnlyHolderSigns(list: seq<Record>, logs: map<string, seq<Body>>, mac: Mac, hash: Hash) {
    forall k :: 0 <= k < |list| && list[k].sig == Some(SignEntry(list[k], mac, hash)) ==>
      exists s, j :: s in logs && 0 <= j < |logs[s]|
        && Unsigned(list[k]) == Unsigned(Appended(logs[s], Some(mac), hash)[j])
  }

  lemma LastIsGenuine(list: seq<Record>, logs: map<string, seq<Body>>, mac: Mac, hash: Hash)
      returns (s: string)
    requires SignsSomething(Some(mac)) && list != []
    requires OnlyHolderSigns(list, logs, mac, hash) && Verifies(list, Some(mac), hash)
    ensures s in logs && |list| <= |logs[s]|
    ensures list[|list| - 1] == Appended(logs[s], Some(mac), hash)[|list| - 1]
  {
    var n := |list| - 1;
    assert RecordOk(list, n, Some(mac), hash);
    var j;
    s, j :| s in logs && 0 <= j < |logs[s]|
      && Unsigned(list[n]) == Unsigned(Appended(logs[s], Some(mac), hash)[j]);
    var chain := Appended(logs[s], Some(mac), hash);
    AppendedVerifies(logs[s], Some(mac), hash);
    assert RecordOk(chain, j, Some(mac), hash);
    assert j == n;
  }

  lemma SharedLastIsPrefix(list: seq<Record>, chain: seq<Record>, mac: Mac, hash: Hash)
    requires NoCollision(list, chain, hash)
    requires Verifies(list, Some(mac), hash) && Verifies(chain, Some(mac), hash)
    requires 0 < |list| <= |chain| && list[|list| - 1] == chain[|list| - 1]
    ensures list <= chain
  {
    DropKey(list, mac, hash);
    DropKey(chain, mac, hash);
    SharedRecordSharesPast(list, chain, |list| - 1, hash);
    assert list[..|list|] == list;
  }

  lemma AcceptedIsGenuinePrefix(list: seq<Record>, logs: map<string, seq<Body>>, mac: Mac, hash: Hash)
      returns (s: string)
    requires SignsSomething(Some(mac)) && list != []
    requires forall s :: s in logs ==> NoCollision(list, Appended(logs[s], Some(mac), hash), hash)
    requires OnlyHolderSigns(list, logs, mac, hash) && Verifies(list, Some(mac), hash)
    ensures s in logs && list <= Appended(logs[s], Some(mac), hash)
  {
    s := LastIsGenuine(list, logs, mac, hash);
    var chain := Appended(logs[s], Some(mac), hash);
    AppendedVerifies(logs[s], Some(mac), hash);
    SharedLastIsPrefix(list, chain, mac, hash);
  }

  /** With the key, and any number of sessions appending under it: a list is accepted exactly when it
      is a prefix of one session's genuine chain. Edits, reorderings, deletions from the middle and
      splices across chains all fail. */
  lemma AcceptedIffGenuinePrefix(list: seq<Record>, logs: map<string, seq<Body>>, mac: Mac, hash: Hash)
    requires SignsSomething(Some(mac)) && list != []
    requires forall s :: s in logs ==> NoCollision(list, Appended(logs[s], Some(mac), hash), hash)
    requires OnlyHolderSigns(list, logs, mac, hash)
    ensures Verifies(list, Some(mac), hash) <==>
              exists s :: s in logs && list <= Appended(logs[s], Some(mac), hash)
  {
    if Verifies(list, Some(mac), hash) {
      var s := AcceptedIsGenuinePrefix(list, logs, mac, hash);
    }
    if s :| s in logs && list <= Appended(logs[s], Some(mac), hash) {
      AppendedVerifies(logs[s], Some(mac), hash);
      PrefixVerifies(Appended(logs[s], Some(mac), hash), |list|, Some(mac), hash);
      assert Appended(logs[s], Some(mac), hash)[..|list|] == list;
    }
  }

  /** What verifies under a key verifies without one. */
  lemma DropKey(records: seq<Record>, mac: Mac, hash: Hash)
    requires Verifies(records, Some(mac), hash)
    ensures Verifies(records, None, hash)
  {
    forall i | 0 <= i < |records|
      ensures RecordOk(records, i, None, hash)
    {
      assert RecordOk(records, i, Some(mac), hash);
    }
  }
}
