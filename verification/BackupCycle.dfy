/** Managed backups and their retention: state_tool.py, _managed_backup_metadata,
    _prune_managed_backups_locked and run_managed_backup_cycle. */
module BackupCycle {
  import opened Wrappers
  import opened BackupPaths
  import opened Backup
  import opened BackupRoundTrip
  import Decimal

  /** A file name in the backup directory: the managed form, stamped with a creation time and the
      digest of the file, or anything else. */
  datatype Name = Stamped(created: nat, digest: Digest) | Foreign(name: string)

  /** A directory entry: one private regular file or not, the digest of its bytes, and what tar reads
      in it. */
  datatype Stored = Stored(isPrivate: bool, digest: Digest, archive: Option<seq<Member>>)

  type Directory = map<Name, Stored>

  const TEN_DIGITS: nat := 10_000_000_000

  predicate Managed(name: Name) {
    name.Stamped? && name.created < TEN_DIGITS
  }

  /** A creation time of more than ten digits makes no managed name. */
  lemma ManagedIffTenDigits(created: nat, digest: Digest)
    ensures Managed(Stamped(created, digest)) <==> |Decimal.Digits(created)| <= 10
  {
    assert Decimal.Pow10(5) == 100_000;
    assert Decimal.Pow10(10) == 10_000_000_000;
    if created < TEN_DIGITS {
      Decimal.DigitsWithin(created, 10);
    } else {
      Decimal.DigitsBeyond(created, 10);
    }
  }

  /** The manifest declares exactly the other members, with their sizes. */
  ghost predicate Complete(rest: map<string, Bytes>, files: seq<Entry>) {
    (forall k :: 0 <= k < |files| ==> Listed(rest, files, k)) && rest.Keys == Declared(files)
  }

  ghost predicate ArchiveValid(archive: seq<Member>, created: nat, maxBytes: int, world: World) {
    Readable(archive, maxBytes) &&
    (var m := ManifestOf(ByName(archive), world);
     m.Some? && m.value.created == created && Complete(ByName(archive) - {MANIFEST_NAME}, m.value.files))
  }

  /** _managed_backup_metadata accepts. */
  ghost predicate Valid(name: Name, file: Stored, maxBytes: int, world: World)
    requires Managed(name)
  {
    && file.isPrivate && file.digest == name.digest
    && file.archive.Some? && ArchiveValid(file.archive.value, name.created, maxBytes, world)
  }

  predicate Expired(name: Name, retention: int, now: int)
    requires name.Stamped?
  {
    now - name.created >= retention
  }

  ghost predicate NeighbourOk(files: Directory, name: Name, maxBytes: int, world: World)
    requires name in files
  {
    Managed(name) ==> Valid(name, files[name], maxBytes, world)
  }

  ghost predicate AllValid(files: Directory, maxBytes: int, world: World) {
    forall name :: name in files ==> NeighbourOk(files, name, maxBytes, world)
  }

  function ManagedIn(files: Directory): set<Name> {
    set name | name in files && Managed(name)
  }

  /** The directory without its managed, expired backups. */
  function Pruned(files: Directory, retention: int, now: int): Directory {
    map name | name in files && !(Managed(name) && Expired(name, retention, now)) :: files[name]
  }

  method CheckEntries(rest: map<string, Bytes>, entries: seq<Entry>) returns (ok: bool)
    ensures ok <==> Complete(rest, entries)
  {
    var expected: set<string> := {};
    for k := 0 to |entries|
      invariant expected == Declared(entries[..k])
      invariant forall j :: 0 <= j < k ==> Listed(rest, entries, j)
    {
      var path := SafeRelative(entries[k].path);
      if path.None? {
        assert !Listed(rest, entries, k);
        return false;
      }
      var name := MemberName(path.value);
      ListedIff(rest, entries, k, expected);
      if name in expected || name !in rest || |rest[name]| != entries[k].size {
        assert !Listed(rest, entries, k);
        return false;
      }
      DeclaredGrows(entries, k);
      expected := expected + {name};
    }
    assert entries[..|entries|] == entries;
    return rest.Keys == expected;
  }

  method CheckArchive(archive: seq<Member>, created: nat, maxBytes: int, world: World) returns (ok: bool)
    ensures ok <==> ArchiveValid(archive, created, maxBytes, world)
  {
    var byName := Members(archive, maxBytes);
    if byName.None? {
      return false;
    }
    var m := ManifestOf(byName.value, world);
    if m.None? {
      return false;
    }
    ok := CheckEntries(byName.value - {MANIFEST_NAME}, m.value.files);
    ok := ok && m.value.created == created;
  }

  method Metadata(name: Name, file: Stored, maxBytes: int, world: World) returns (ok: bool)
    requires Managed(name)
    ensures ok <==> Valid(name, file, maxBytes, world)
  {
    if !file.isPrivate || file.digest != name.digest || file.archive.None? {
      return false;
    }
    ok := CheckArchive(file.archive.value, name.created, maxBytes, world);
  }

  lemma WithoutExpired(files: Directory, expired: set<Name>, retention: int, now: int)
    requires expired == set name | name in ManagedIn(files) && Expired(name, retention, now)
    ensures files - expired == Pruned(files, retention, now)
  {
  }

  /** A directory of backups; its methods run under the directory lock. */
  class BackupDirectory {
    var files: Directory

    constructor (files: Directory)
      ensures this.files == files
    {
      this.files := files;
    }

    method ValidateAll(maxBytes: int, world: World) returns (managed: Option<set<Name>>)
      ensures managed.Some? <==> AllValid(files, maxBytes, world)
      ensures managed.Some? ==> managed.value == ManagedIn(files)
    {
      var left := files.Keys;
      var found: set<Name> := {};
      while left != {}
        invariant left <= files.Keys
        invariant forall name :: name in files && name !in left ==> NeighbourOk(files, name, maxBytes, world)
        invariant found == set name | name in files && name !in left && Managed(name)
        decreases |left|
      {
        var name :| name in left;
        left := left - {name};
        if Managed(name) {
          var valid := Metadata(name, files[name], maxBytes, world);
          if !valid {
            assert !NeighbourOk(files, name, maxBytes, world);
            return None;
          }
          found := found + {name};
        }
      }
      return Some(found);
    }

    /** _prune_managed_backups_locked: every managed file is validated before the first is deleted. */
    method Prune(retention: int, now: int, maxBytes: int, world: World) returns (done: bool)
      modifies `files
      ensures done <==> AllValid(old(files), maxBytes, world)
      ensures files == if done then Pruned(old(files), retention, now) else old(files)
    {
      var managed := ValidateAll(maxBytes, world);
      if managed.None? {
        return false;
      }
      var expired := set name | name in managed.value && Expired(name, retention, now);
      WithoutExpired(files, expired, retention, now);
      files := files - expired;
      return true;
    }

    /** run_managed_backup_cycle, from the staged archive create_backup left behind on. */
    method Cycle(staged: Option<Stored>, retention: int, now: int, maxBytes: int, world: World)
      returns (done: bool)
      modifies `files
      ensures files == AfterCycle(old(files), staged, retention, now, maxBytes, world)
      ensures done == CycleSucceeds(old(files), staged, retention, now, maxBytes, world)
    {
      if retention <= 0 || now < 0 || staged.None? {
        return false;
      }
      var final := Stamped(now, staged.value.digest);
      if final in files {
        if files[final].digest != staged.value.digest {
          return false;
        }
      } else {
        files := files[final := staged.value];
      }
      done := Prune(retention, now, maxBytes, world);
    }
  }

  /** The directory once the new backup is linked in; a name already taken keeps its file. */
  function Linked(files: Directory, staged: Stored, now: nat): Directory {
    var final := Stamped(now, staged.digest);
    if final in files then files else files[final := staged]
  }

  predicate Starts(files: Directory, staged: Option<Stored>, retention: int, now: int) {
    && retention > 0 && now >= 0 && staged.Some?
    && var final := Stamped(now, staged.value.digest);
    (final in files ==> files[final].digest == staged.value.digest)
  }

  ghost predicate CycleSucceeds(files: Directory, staged: Option<Stored>, retention: int, now: int,
                                maxBytes: int, world: World)
  {
    Starts(files, staged, retention, now) && AllValid(Linked(files, staged.value, now), maxBytes, world)
  }

  ghost function AfterCycle(files: Directory, staged: Option<Stored>, retention: int, now: int,
                            maxBytes: int, world: World): Directory
  {
    if !Starts(files, staged, retention, now) then files
    else if AllValid(Linked(files, staged.value, now), maxBytes, world) then
      Pruned(Linked(files, staged.value, now), retention, now)
    else Linked(files, staged.value, now)
  }

  // What a cycle deletes.

  /** A cycle removes a file exactly when everything managed is valid and that file is a managed backup
      at least one retention period old; the new backup is never among them, and nothing else is
      touched. */
  lemma CycleDeletesExactlyExpired(files: Directory, staged: Stored, retention: int, now: int,
                                   maxBytes: int, world: World)
    requires Starts(files, Some(staged), retention, now)
    ensures var after := AfterCycle(files, Some(staged), retention, now, maxBytes, world);
            var final := Stamped(now, staged.digest);
            && final in after && after[final].digest == staged.digest
            && (forall name :: name in files && name !in after <==>
                  && name in files && Managed(name) && now - name.created >= retention
                  && AllValid(Linked(files, staged, now), maxBytes, world))
            && (forall name :: name in files && name in after ==> after[name] == files[name])
            && (forall name :: name in after && name !in files ==> name == final)
  {
  }

  /** One invalid managed neighbour, old or new, keeps every backup. */
  lemma InvalidNeighbourKeepsAll(files: Directory, staged: Stored, retention: int, now: int, maxBytes: int,
                                 world: World, bad: Name)
    requires Starts(files, Some(staged), retention, now)
    requires bad in files && Managed(bad) && !Valid(bad, files[bad], maxBytes, world)
    ensures var after := AfterCycle(files, Some(staged), retention, now, maxBytes, world);
            !CycleSucceeds(files, Some(staged), retention, now, maxBytes, world)
            && forall name :: name in files ==> name in after && after[name] == files[name]
  {
    var linked := Linked(files, staged, now);
    assert bad in linked && linked[bad] == files[bad] && !NeighbourOk(linked, bad, maxBytes, world);
  }

  // The new backup as its own neighbour.

  lemma ListedFromHolds(rest: map<string, Bytes>, files: seq<Entry>, world: World)
    requires Holds(rest, files, world)
    ensures Complete(rest, files)
  {
    forall k | 0 <= k < |files|
      ensures Listed(rest, files, k)
    {
      assert EntryOk(rest, files, k, world);
    }
  }

  /** A created archive passes as a managed backup under the same limits under which it restores. */
  lemma CreatedIsValidIff(archive: seq<Member>, m: Manifest, listing: seq<Path>, state: Tree, maxBytes: int,
                          world: World, created: nat)
    requires IsTree(state) && Lists(listing, state) && IsBackup(archive, m, listing, state, world)
    requires world.parse(world.render(m)) == Some(m) && m.created == created
    ensures ArchiveValid(archive, created, maxBytes, world) <==> Fits(m, listing, state, maxBytes, world)
  {
    BackupReadableIff(archive, m, listing, state, maxBytes, world);
    BackupCarries(archive, m, listing, state, world);
    BackupDescribes(archive, m, listing, state, world);
    BackupHolds(m.files, listing, state, world, ByName(archive) - {MANIFEST_NAME});
    ListedFromHolds(ByName(archive) - {MANIFEST_NAME}, m.files, world);
  }

  // Many cycles.

  /** One later cycle: what create_backup staged, if anything, the retention asked for and the time. */
  datatype Attempt = Attempt(staged: Option<Stored>, retention: int, now: int)

  ghost function AfterCycles(files: Directory, attempts: seq<Attempt>, maxBytes: int, world: World): Directory
    decreases |attempts|
  {
    if attempts == [] then files
    else
      var a := attempts[0];
      AfterCycles(AfterCycle(files, a.staged, a.retention, a.now, maxBytes, world), attempts[1..], maxBytes, world)
  }

  ghost predicate Keeps(after: Directory, files: Directory) {
    forall name :: name in files ==> name in after && after[name] == files[name]
  }

  lemma OneCycleKeeps(files: Directory, a: Attempt, maxBytes: int, world: World, bad: Name)
    requires bad in files && Managed(bad) && !Valid(bad, files[bad], maxBytes, world)
    ensures var after := AfterCycle(files, a.staged, a.retention, a.now, maxBytes, world);
            && !CycleSucceeds(files, a.staged, a.retention, a.now, maxBytes, world)
            && Keeps(after, files)
  {
    if Starts(files, a.staged, a.retention, a.now) {
      InvalidNeighbourKeepsAll(files, a.staged.value, a.retention, a.now, maxBytes, world, bad);
    }
  }

  /** While one managed backup is invalid, every cycle fails and none deletes anything. */
  lemma {:induction false} NoCycleDeletes(files: Directory, attempts: seq<Attempt>, maxBytes: int, world: World,
                                          bad: Name)
    requires bad in files && Managed(bad) && !Valid(bad, files[bad], maxBytes, world)
    ensures Keeps(AfterCycles(files, attempts, maxBytes, world), files)
    ensures forall k :: 0 <= k < |attempts| ==>
              var before := AfterCycles(files, attempts[..k], maxBytes, world);
              !CycleSucceeds(before, attempts[k].staged, attempts[k].retention, attempts[k].now, maxBytes, world)
    decreases |attempts|
  {
    if attempts != [] {
      var a := attempts[0];
      var next := AfterCycle(files, a.staged, a.retention, a.now, maxBytes, world);
      OneCycleKeeps(files, a, maxBytes, world, bad);
      NoCycleDeletes(next, attempts[1..], maxBytes, world, bad);
      forall k | 0 <= k < |attempts|
        ensures var before := AfterCycles(files, attempts[..k], maxBytes, world);
                !CycleSucceeds(before, attempts[k].staged, attempts[k].retention, attempts[k].now, maxBytes, world)
      {
        if k > 0 {
          assert attempts[..k][1..] == attempts[1..][..k - 1];
          assert attempts[k] == attempts[1..][k - 1];
        }
      }
    }
  }

  /** A backup that is created but exceeds a limit only restore knows is kept, and fails this cycle
      and every later one: however many cycles follow, at whatever times and with whatever backups,
      nothing is ever deleted. */
  lemma OversizedBackupStopsPruning(files: Directory, archive: seq<Member>, digest: Digest, m: Manifest,
                                    listing: seq<Path>, state: Tree, retention: int, now: nat, maxBytes: int,
                                    world: World, later: seq<Attempt>)
    requires IsTree(state) && Lists(listing, state) && IsBackup(archive, m, listing, state, world)
    requires world.parse(world.render(m)) == Some(m) && m.created == now < TEN_DIGITS
    requires !Fits(m, listing, state, maxBytes, world)
    requires Stamped(now, digest) !in files && retention > 0
    ensures var first := Stored(true, digest, Some(archive));
            var stuck := AfterCycle(files, Some(first), retention, now, maxBytes, world);
            && !CycleSucceeds(files, Some(first), retention, now, maxBytes, world)
            && stuck == files[Stamped(now, digest) := first]
            && Keeps(AfterCycles(stuck, later, maxBytes, world), stuck)
            && forall k :: 0 <= k < |later| ==>
                 var before := AfterCycles(stuck, later[..k], maxBytes, world);
                 !CycleSucceeds(before, later[k].staged, later[k].retention, later[k].now, maxBytes, world)
  {
    CreatedIsValidIff(archive, m, listing, state, maxBytes, world, now);
    var first := Stored(true, digest, Some(archive));
    var final := Stamped(now, digest);
    var linked := Linked(files, first, now);
    assert !NeighbourOk(linked, final, maxBytes, world);
    NoCycleDeletes(linked, later, maxBytes, world, final);
  }

  // Such a backup exists.

  /** Validation never looks into sandbox files: a valid tree stays valid when one of them changes. */
  ghost predicate SandboxBlind(world: World) {
    forall state, path, data :: StaysValid(world, state, path, data)
  }

  predicate StaysValid(world: World, state: Tree, path: Path, data: Bytes) {
    IsTree(state) && world.validates(state) && path in state && InSandbox(path) ==>
      world.validates(state[path := data])
  }

  function Padding(n: int): Bytes {
    if n <= 0 then [] else seq(n, _ => 0)
  }

  /** The state with its file at `path` grown until the whole size limit is used up. */
  function Filled(state: Tree, listing: seq<Path>, path: Path, maxBytes: int): (full: Tree)
    requires IsTree(state) && Lists(listing, state) && path in state
    ensures IsTree(full) && Lists(listing, full)
  {
    var full := state[path := state[path] + Padding(maxBytes - SizeOf(listing, state))];
    SamePaths(state, full, listing);
    full
  }

  lemma SamePaths(state: Tree, full: Tree, listing: seq<Path>)
    requires IsTree(state) && Lists(listing, state) && full.Keys == state.Keys
    ensures IsTree(full) && Lists(listing, full)
  {
    forall path | path in full
      ensures Proper(path) && CanWrite(full, path)
    {
      assert path in state && CanWrite(state, path);
      forall other | other in full
        ensures !(other < path) && !(path < other)
      {
        assert other in state;
      }
    }
    forall path
      ensures path in listing <==> path in full && Supported(path)
    {
      assert path in full <==> path in full.Keys;
      assert path in state <==> path in state.Keys;
    }
  }

  lemma {:induction false} SizeElsewhere(listing: seq<Path>, state: Tree, path: Path, data: Bytes)
    requires path !in listing
    ensures SizeOf(listing, state[path := data]) == SizeOf(listing, state)
  {
    if listing != [] {
      SizeElsewhere(listing[..|listing| - 1], state, path, data);
    }
  }

  lemma {:induction false} SizeChanges(listing: seq<Path>, state: Tree, path: Path, data: Bytes)
    requires AllDiffer(listing) && path in listing && path in state
    ensures SizeOf(listing, state[path := data]) == SizeOf(listing, state) - |state[path]| + |data|
  {
    var front, last := listing[..|listing| - 1], listing[|listing| - 1];
    if last == path {
      SizeElsewhere(front, state, path, data);
    } else {
      SizeChanges(front, state, path, data);
    }
  }

  lemma FilledIsFull(state: Tree, listing: seq<Path>, path: Path, maxBytes: int)
    requires IsTree(state) && Lists(listing, state) && path in state && InSandbox(path)
    requires SizeOf(listing, state) <= maxBytes
    ensures SizeOf(listing, Filled(state, listing, path, maxBytes)) == maxBytes
  {
    SizeChanges(listing, state, path, Filled(state, listing, path, maxBytes)[path]);
  }

  function EntriesFor(listing: seq<Path>, state: Tree, world: World): (entries: seq<Entry>)
    requires IsTree(state) && Lists(listing, state)
    ensures |entries| == |listing|
  {
    seq(|listing|, k requires 0 <= k < |listing| =>
      ListedIsProper(listing, state, k);
      EntryFor(listing[k], FileBytes(state, listing[k]), world))
  }

  function PayloadsFor(listing: seq<Path>, state: Tree): (payloads: seq<Member>)
    requires IsTree(state) && Lists(listing, state)
    ensures |payloads| == |listing|
  {
    seq(|listing|, k requires 0 <= k < |listing| =>
      ListedIsProper(listing, state, k);
      MemberFor(listing[k], FileBytes(state, listing[k])))
  }

  function ManifestFor(listing: seq<Path>, state: Tree, created: int, facts: string, world: World): Manifest
    requires IsTree(state) && Lists(listing, state)
  {
    Manifest(SCHEMA_VERSION, created, facts, EntriesFor(listing, state, world))
  }

  /** The archive create_backup writes of these files. */
  function ArchiveFor(listing: seq<Path>, state: Tree, created: int, facts: string, world: World): seq<Member>
    requires IsTree(state) && Lists(listing, state)
  {
    [Member(MANIFEST_NAME, true, world.render(ManifestFor(listing, state, created, facts, world)))]
    + PayloadsFor(listing, state)
  }

  lemma ArchiveIsBackup(listing: seq<Path>, state: Tree, created: int, facts: string, world: World)
    requires IsTree(state) && Lists(listing, state)
    ensures IsBackup(ArchiveFor(listing, state, created, facts, world),
                     ManifestFor(listing, state, created, facts, world), listing, state, world)
  {
    forall k | 0 <= k < |listing|
      ensures Paired(EntriesFor(listing, state, world)[k], PayloadsFor(listing, state)[k], listing[k], state, world)
    {
      ListedIsProper(listing, state, k);
    }
    BackupFromPairs(ManifestFor(listing, state, created, facts, world), PayloadsFor(listing, state), listing,
                    state, world);
  }

  /** From every valid state that holds a sandbox file and keeps the size limit, however small the rest:
      with that file grown, the state is still valid and still within the limit, so create_backup makes
      an archive of it, and that archive is beyond restore's limits and is never restored. */
  lemma OversizedBackupExists(state: Tree, listing: seq<Path>, path: Path, maxBytes: int, now: nat,
                              facts: string, world: World, marker: Bytes)
    requires IsTree(state) && Lists(listing, state)
    requires world.validates(state) && SandboxBlind(world) && path in state && InSandbox(path)
    requires 0 < maxBytes && SizeOf(listing, state) <= maxBytes
    requires var m := ManifestFor(listing, Filled(state, listing, path, maxBytes), now, facts, world);
             world.render(m) != [] && world.parse(world.render(m)) == Some(m)
    ensures var full := Filled(state, listing, path, maxBytes);
            var m, archive := ManifestFor(listing, full, now, facts, world),
                              ArchiveFor(listing, full, now, facts, world);
            && Creates(full, listing, maxBytes, true, false, world)
            && IsBackup(archive, m, listing, full, world) && m.created == now
            && !Fits(m, listing, full, maxBytes, world)
            && Restored(archive, maxBytes, world, marker) == None
  {
    var full := Filled(state, listing, path, maxBytes);
    FilledIsFull(state, listing, path, maxBytes);
    assert StaysValid(world, state, path, full[path]);
    ArchiveIsBackup(listing, full, now, facts, world);
    RestoredFromBackup(ArchiveFor(listing, full, now, facts, world), ManifestFor(listing, full, now, facts, world),
                       listing, full, maxBytes, world, marker);
  }

  /** Whatever restore accepts from a file under its own name, a cycle accepts as a neighbour. */
  lemma RestorableIsValid(name: Name, file: Stored, maxBytes: int, world: World, marker: Bytes, m: Manifest)
    requires Managed(name) && file.isPrivate && file.digest == name.digest && file.archive.Some?
    requires Restored(file.archive.value, maxBytes, world, marker).Some?
    requires ManifestOf(ByName(file.archive.value), world) == Some(m) && m.created == name.created
    ensures Valid(name, file, maxBytes, world)
  {
    RestHolds(ByName(file.archive.value) - {MANIFEST_NAME}, m.files, world, marker);
    ListedFromHolds(ByName(file.archive.value) - {MANIFEST_NAME}, m.files, world);
  }
}
