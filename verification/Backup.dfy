/** Offline backup and fail-closed restore: state_tool.py, create_backup, _members and restore_backup.
    An archive is the list of members tar and gzip deliver; a state is its files by path. */
module Backup {
  import opened Wrappers
  import opened BackupPaths

  type Bytes = seq<bv8>

  type Tree = map<Path, Bytes>

  type Digest = nat

  datatype Member = Member(name: string, regular: bool, data: Bytes)

  datatype Entry = Entry(path: string, sha256: Digest, size: nat)

  datatype Manifest = Manifest(schema: int, created: int, facts: string, files: seq<Entry>)

  /** The manifest's JSON codec, the digest, and the validation of a finished state. */
  datatype World = World(render: Manifest -> Bytes, parse: Bytes -> Option<Manifest>,
                         sha: Bytes -> Digest, validates: Tree -> bool)

  const SCHEMA_VERSION: int := 1
  const MANIFEST_NAME: string := "manifest.json"
  const CLEAN_MARKER: string := ".product-clean-shutdown.json"
  const MANIFEST_LIMIT: nat := 4 * 1024 * 1024
  const MEMBER_LIMIT: nat := 1_000_000

  // Reading members.

  function Total(archive: seq<Member>): nat {
    if archive == [] then 0
    else Total(archive[..|archive| - 1]) + |archive[|archive| - 1].data|
  }

  function ByName(archive: seq<Member>): map<string, Bytes> {
    if archive == [] then map[]
    else ByName(archive[..|archive| - 1])[archive[|archive| - 1].name := archive[|archive| - 1].data]
  }

  predicate Fresh(archive: seq<Member>, i: nat)
    requires i < |archive|
  {
    forall j :: 0 <= j < i ==> archive[j].name != archive[i].name
  }

  predicate MemberOk(archive: seq<Member>, i: nat)
    requires i < |archive|
  {
    archive[i].regular && SafeRelative(archive[i].name).Some? && Fresh(archive, i)
  }

  /** Regular members with safe, distinct names, not too many and not too large. */
  predicate Readable(archive: seq<Member>, maxBytes: int) {
    && |archive| <= MEMBER_LIMIT
    && (forall i :: 0 <= i < |archive| ==> MemberOk(archive, i))
    && (archive != [] ==> Total(archive) <= maxBytes)
  }

  lemma {:induction false} TotalGrows(archive: seq<Member>, i: nat)
    requires i <= |archive|
    ensures Total(archive[..i]) <= Total(archive)
    decreases |archive|
  {
    if i == |archive| {
      assert archive[..i] == archive;
    } else {
      var front := archive[..|archive| - 1];
      TotalGrows(front, i);
      assert front[..i] == archive[..i];
    }
  }

  lemma {:induction false} NamesIn(archive: seq<Member>, name: string)
    ensures name in ByName(archive) <==> exists i :: 0 <= i < |archive| && archive[i].name == name
    decreases |archive|
  {
    if archive != [] {
      var n := |archive| - 1;
      var front := archive[..n];
      NamesIn(front, name);
      if i :| 0 <= i < n && archive[i].name == name {
        assert front[i].name == name;
      }
    }
  }

  lemma {:induction false} DataOf(archive: seq<Member>, i: nat)
    requires i < |archive| && forall j :: 0 <= j < |archive| ==> Fresh(archive, j)
    ensures archive[i].name in ByName(archive) && ByName(archive)[archive[i].name] == archive[i].data
    decreases |archive|
  {
    var n := |archive| - 1;
    if i < n {
      var front := archive[..n];
      assert Fresh(archive, n);
      forall j | 0 <= j < |front|
        ensures Fresh(front, j)
      {
        assert Fresh(archive, j);
      }
      DataOf(front, i);
    }
  }

  /** _members. */
  method Members(archive: seq<Member>, maxBytes: int) returns (byName: Option<map<string, Bytes>>)
    ensures byName == if Readable(archive, maxBytes) then Some(ByName(archive)) else None
  {
    if |archive| > MEMBER_LIMIT {
      return None;
    }
    var total := 0;
    var found: map<string, Bytes> := map[];
    for i := 0 to |archive|
      invariant total == Total(archive[..i]) && found == ByName(archive[..i])
      invariant forall j :: 0 <= j < i ==> MemberOk(archive, j)
      invariant i > 0 ==> total <= maxBytes
    {
      var member := archive[i];
      NamesIn(archive[..i], member.name);
      assert Fresh(archive, i) <==> member.name !in found by {
        if j :| 0 <= j < i && archive[j].name == member.name {
          assert archive[..i][j].name == member.name;
        }
      }
      if !member.regular || SafeRelative(member.name).None? || member.name in found {
        assert !MemberOk(archive, i);
        return None;
      }
      assert archive[..i + 1][..i] == archive[..i];
      total := total + |member.data|;
      if total > maxBytes {
        TotalGrows(archive, i + 1);
        return None;
      }
      found := found[member.name := member.data];
    }
    assert archive[..|archive|] == archive;
    return Some(found);
  }

  // What the manifest declares.

  function EntryName(e: Entry): string {
    var path := SafeRelative(e.path);
    if path.Some? then MemberName(path.value) else ""
  }

  /** Entry k names a path not named before, and a member of the declared size. */
  predicate Listed(members: map<string, Bytes>, files: seq<Entry>, k: nat)
    requires k < |files|
  {
    && SafeRelative(files[k].path).Some?
    && (forall j :: 0 <= j < k ==> EntryName(files[j]) != EntryName(files[k]))
    && EntryName(files[k]) in members
    && |members[EntryName(files[k])]| == files[k].size
  }

  predicate Authentic(members: map<string, Bytes>, files: seq<Entry>, k: nat, world: World)
    requires k < |files|
  {
    EntryName(files[k]) in members && world.sha(members[EntryName(files[k])]) == files[k].sha256
  }

  function TreeOf(members: map<string, Bytes>, files: seq<Entry>): Tree {
    if files == [] then map[]
    else
      var rest, e := files[..|files| - 1], files[|files| - 1];
      if SafeRelative(e.path).Some? && EntryName(e) in members then
        TreeOf(members, rest)[SafeRelative(e.path).value := members[EntryName(e)]]
      else TreeOf(members, rest)
  }

  /** No file stands where the path needs a directory, and no directory where it needs a file. */
  predicate CanWrite(tree: Tree, path: Path) {
    forall other :: other in tree ==> !(other < path) && !(path < other)
  }

  predicate Writable(members: map<string, Bytes>, files: seq<Entry>, k: nat)
    requires k < |files|
  {
    SafeRelative(files[k].path).Some? && CanWrite(TreeOf(members, files[..k]), SafeRelative(files[k].path).value)
  }

  predicate EntryOk(members: map<string, Bytes>, files: seq<Entry>, k: nat, world: World)
    requires k < |files|
  {
    Listed(members, files, k) && Authentic(members, files, k, world) && Writable(members, files, k)
  }

  ghost function Declared(files: seq<Entry>): set<string> {
    set k | 0 <= k < |files| :: EntryName(files[k])
  }

  function ManifestOf(members: map<string, Bytes>, world: World): Option<Manifest> {
    if MANIFEST_NAME in members && |members[MANIFEST_NAME]| <= MANIFEST_LIMIT then
      var m := world.parse(members[MANIFEST_NAME]);
      if m.Some? && m.value.schema == SCHEMA_VERSION then m else None
    else None
  }

  const MARKER_PATH: Path := [CLEAN_MARKER]

  /** The finished tree, once the new marker is written into it. */
  function Finished(tree: Tree, marker: Bytes): Tree {
    tree[MARKER_PATH := marker]
  }

  /** What is accepted: exactly the declared members, each with its declared size and digest. */
  ghost predicate Holds(rest: map<string, Bytes>, files: seq<Entry>, world: World) {
    (forall k :: 0 <= k < |files| ==> EntryOk(rest, files, k, world)) && rest.Keys == Declared(files)
  }

  ghost function RestoredRest(rest: map<string, Bytes>, files: seq<Entry>, world: World, marker: Bytes)
    : Option<Tree>
  {
    var tree := TreeOf(rest, files);
    if Holds(rest, files, world) && CanWrite(tree, MARKER_PATH) && world.validates(Finished(tree, marker)) then
      Some(Finished(tree, marker))
    else None
  }

  ghost function Restored(archive: seq<Member>, maxBytes: int, world: World, marker: Bytes): Option<Tree> {
    if !Readable(archive, maxBytes) then None
    else
      var m := ManifestOf(ByName(archive), world);
      if m.None? then None
      else RestoredRest(ByName(archive) - {MANIFEST_NAME}, m.value.files, world, marker)
  }

  lemma DeclaredGrows(files: seq<Entry>, k: nat)
    requires k < |files|
    ensures Declared(files[..k + 1]) == Declared(files[..k]) + {EntryName(files[k])}
  {
    var some, more := files[..k], files[..k + 1];
    forall i | 0 <= i < |more|
      ensures EntryName(more[i]) in Declared(some) + {EntryName(files[k])}
    {
      if i < k {
        assert more[i] == some[i];
      }
    }
    forall i | 0 <= i < |some|
      ensures EntryName(some[i]) in Declared(more)
    {
      assert some[i] == more[i];
    }
    assert more[k] == files[k];
  }

  lemma ListedIff(rest: map<string, Bytes>, files: seq<Entry>, k: nat, expected: set<string>)
    requires k < |files| && SafeRelative(files[k].path).Some? && expected == Declared(files[..k])
    ensures var name := EntryName(files[k]);
            Listed(rest, files, k) <==>
              name !in expected && name in rest && |rest[name]| == files[k].size
  {
    var name := EntryName(files[k]);
    if j :| 0 <= j < k && EntryName(files[j]) == name {
      assert EntryName(files[..k][j]) == name;
    }
  }

  lemma TreeStep(rest: map<string, Bytes>, files: seq<Entry>, k: nat, path: Path)
    requires k < |files| && SafeRelative(files[k].path) == Some(path) && EntryName(files[k]) in rest
    ensures TreeOf(rest, files[..k + 1]) == TreeOf(rest, files[..k])[path := rest[EntryName(files[k])]]
  {
    assert files[..k + 1][..k] == files[..k];
  }

  lemma EntryOkIff(rest: map<string, Bytes>, files: seq<Entry>, k: nat, world: World, staged: Tree,
                   expected: set<string>)
    requires k < |files| && SafeRelative(files[k].path).Some?
    requires staged == TreeOf(rest, files[..k]) && expected == Declared(files[..k])
    ensures var path, name := SafeRelative(files[k].path).value, EntryName(files[k]);
            EntryOk(rest, files, k, world) <==>
              && name !in expected && name in rest && |rest[name]| == files[k].size
              && world.sha(rest[name]) == files[k].sha256 && CanWrite(staged, path)
  {
    ListedIff(rest, files, k, expected);
  }

  ghost predicate AllOk(rest: map<string, Bytes>, files: seq<Entry>, k: nat, world: World)
    requires k <= |files|
  {
    forall j :: 0 <= j < k ==> EntryOk(rest, files, j, world)
  }

  lemma NotOkIsNotHeld(rest: map<string, Bytes>, files: seq<Entry>, k: nat, world: World)
    requires k < |files| && !EntryOk(rest, files, k, world)
    ensures !Holds(rest, files, world)
  {
  }

  lemma OneMoreOk(rest: map<string, Bytes>, files: seq<Entry>, k: nat, world: World)
    requires k < |files| && AllOk(rest, files, k, world) && EntryOk(rest, files, k, world)
    ensures AllOk(rest, files, k + 1, world)
  {
  }

  lemma HoldsIff(rest: map<string, Bytes>, files: seq<Entry>, world: World)
    requires AllOk(rest, files, |files|, world)
    ensures Holds(rest, files, world) <==> rest.Keys == Declared(files[..|files|])
    ensures TreeOf(rest, files[..|files|]) == TreeOf(rest, files)
  {
    assert files[..|files|] == files;
  }

  /** The loop over the declared files: staged stays the tree of what was read so far. */
  method Unpack(rest: map<string, Bytes>, files: seq<Entry>, world: World) returns (tree: Option<Tree>)
    ensures tree.Some? <==> Holds(rest, files, world)
    ensures tree.Some? ==> tree.value == TreeOf(rest, files)
  {
    var staged: Tree := map[];
    var expected: set<string> := {};
    for k := 0 to |files|
      invariant staged == TreeOf(rest, files[..k])
      invariant expected == Declared(files[..k])
      invariant AllOk(rest, files, k, world)
    {
      var path := SafeRelative(files[k].path);
      if path.None? {
        NotOkIsNotHeld(rest, files, k, world);
        return None;
      }
      var name := MemberName(path.value);
      EntryOkIff(rest, files, k, world, staged, expected);
      if name in expected || name !in rest || |rest[name]| != files[k].size
         || world.sha(rest[name]) != files[k].sha256 || !CanWrite(staged, path.value) {
        NotOkIsNotHeld(rest, files, k, world);
        return None;
      }
      OneMoreOk(rest, files, k, world);
      DeclaredGrows(files, k);
      TreeStep(rest, files, k, path.value);
      expected := expected + {name};
      staged := staged[path.value := rest[name]];
    }
    HoldsIff(rest, files, world);
    if rest.Keys != expected {
      return None;
    }
    return Some(staged);
  }

  /** The directory a restore is to create. */
  class RestoreTarget {
    var state: Option<Tree>

    constructor (state: Option<Tree>)
      ensures this.state == state
    {
      this.state := state;
    }

    /** restore_backup: all or nothing, and never over an existing state. */
    method RestoreBackup(archive: seq<Member>, maxBytes: int, keyGiven: bool, world: World, marker: Bytes)
      returns (done: bool)
      modifies `state
      ensures done <==> old(state).None? && maxBytes > 0 && keyGiven
                        && Restored(archive, maxBytes, world, marker).Some?
      ensures state == if done then Restored(archive, maxBytes, world, marker) else old(state)
    {
      if maxBytes <= 0 || !keyGiven || state.Some? {
        return false;
      }
      var byName := Members(archive, maxBytes);
      if byName.None? {
        return false;
      }
      var manifest := ManifestOf(byName.value, world);
      if manifest.None? {
        return false;
      }
      var staged := Unpack(byName.value - {MANIFEST_NAME}, manifest.value.files, world);
      if staged.None? || !CanWrite(staged.value, MARKER_PATH) {
        return false;
      }
      var finished := Finished(staged.value, marker);
      if !world.validates(finished) {
        return false;
      }
      state := Some(finished);
      return true;
    }
  }

  // Creating a backup.

  predicate Suffixed(name: string, suffix: string) {
    |name| > |suffix| && name[|name| - |suffix|..] == suffix
  }

  predicate InSandbox(path: Path) {
    |path| >= 2 && path[0] == "sandboxes"
  }

  /** The files a backup carries. */
  predicate Supported(path: Path) {
    || (|path| >= 2 && path[0] == "sessions" && Suffixed(path[|path| - 1], ".kv"))
    || InSandbox(path)
    || (|path| >= 2 && path[0] == "audit" && Suffixed(path[|path| - 1], ".jsonl"))
    || path == ["product-schedules.json"]
    || path == ["product-quotas.sqlite3"]
  }

  function SupportedFiles(state: Tree): Tree {
    map path | path in state && Supported(path) :: state[path]
  }

  /** A directory tree of regular files. */
  predicate IsTree(state: Tree) {
    forall path :: path in state ==> Proper(path) && CanWrite(state, path)
  }

  /** Two files can stand in one tree unless one would have to be a directory on the other's way. */
  lemma TwoFilesIff(p: Path, q: Path, a: Bytes, b: Bytes)
    requires Proper(p) && Proper(q)
    ensures IsTree(map[p := a, q := b]) <==> !(p < q) && !(q < p)
  {
    var tree := map[p := a, q := b];
    assert p in tree && q in tree;
    if IsTree(tree) {
      assert CanWrite(tree, p);
    }
  }

  ghost predicate Lists(listing: seq<Path>, state: Tree) {
    (forall path :: path in listing <==> path in state && Supported(path)) && AllDiffer(listing)
  }

  ghost predicate AllDiffer(listing: seq<Path>) {
    forall i, j :: 0 <= i < j < |listing| ==> listing[i] != listing[j]
  }

  function FileBytes(state: Tree, path: Path): Bytes {
    if path in state then state[path] else []
  }

  function EntryFor(path: Path, data: Bytes, world: World): Entry
    requires path != []
  {
    Entry(Posix(path), world.sha(data), |data|)
  }

  function MemberFor(path: Path, data: Bytes): Member
    requires path != []
  {
    Member(MemberName(path), true, data)
  }

  /** One file as its manifest entry and its archive member. */
  predicate Paired(e: Entry, m: Member, path: Path, state: Tree, world: World) {
    && path != []
    && e == EntryFor(path, FileBytes(state, path), world)
    && m == MemberFor(path, FileBytes(state, path))
  }

  /** The archive create_backup writes: the manifest, then every listed file in order. */
  predicate IsBackup(archive: seq<Member>, m: Manifest, listing: seq<Path>, state: Tree, world: World) {
    && |archive| == |listing| + 1 && |m.files| == |listing| && m.schema == SCHEMA_VERSION
    && archive[0] == Member(MANIFEST_NAME, true, world.render(m))
    && forall k :: 0 <= k < |listing| ==> Paired(m.files[k], archive[k + 1], listing[k], state, world)
  }

  function SizeOf(listing: seq<Path>, state: Tree): nat {
    if listing == [] then 0
    else SizeOf(listing[..|listing| - 1], state) + |FileBytes(state, listing[|listing| - 1])|
  }

  lemma {:induction false} SizeGrows(listing: seq<Path>, state: Tree, i: nat)
    requires i <= |listing|
    ensures SizeOf(listing[..i], state) <= SizeOf(listing, state)
    decreases |listing|
  {
    if i == |listing| {
      assert listing[..i] == listing;
    } else {
      var front := listing[..|listing| - 1];
      SizeGrows(front, state, i);
      assert front[..i] == listing[..i];
    }
  }

  ghost predicate PairedAll(entries: seq<Entry>, payloads: seq<Member>, listing: seq<Path>, state: Tree, world: World) {
    && |entries| == |payloads| <= |listing|
    && forall k :: 0 <= k < |entries| ==> Paired(entries[k], payloads[k], listing[k], state, world)
  }

  lemma BackupFromPairs(m: Manifest, payloads: seq<Member>, listing: seq<Path>, state: Tree, world: World)
    requires PairedAll(m.files, payloads, listing, state, world) && |payloads| == |listing|
    requires m.schema == SCHEMA_VERSION
    ensures IsBackup([Member(MANIFEST_NAME, true, world.render(m))] + payloads, m, listing, state, world)
  {
    var archive := [Member(MANIFEST_NAME, true, world.render(m))] + payloads;
    forall k | 0 <= k < |listing|
      ensures Paired(m.files[k], archive[k + 1], listing[k], state, world)
    {
      assert archive[k + 1] == payloads[k];
    }
  }

  lemma PairsGrow(entries: seq<Entry>, payloads: seq<Member>, listing: seq<Path>, state: Tree, world: World)
    requires PairedAll(entries, payloads, listing, state, world)
    requires |entries| < |listing| && listing[|entries|] != []
    ensures var path, data := listing[|entries|], FileBytes(state, listing[|entries|]);
            PairedAll(entries + [EntryFor(path, data, world)], payloads + [MemberFor(path, data)], listing, state,
                      world)
  {
  }

  lemma SizeStep(listing: seq<Path>, state: Tree, i: nat)
    requires i < |listing|
    ensures SizeOf(listing[..i + 1], state) == SizeOf(listing[..i], state) + |FileBytes(state, listing[i])|
  {
    assert listing[..i + 1][..i] == listing[..i];
  }

  lemma ListedIsProper(listing: seq<Path>, state: Tree, k: nat)
    requires IsTree(state) && Lists(listing, state) && k < |listing|
    ensures Proper(listing[k]) && listing[k] in state && Supported(listing[k])
  {
    assert listing[k] in listing;
  }

  /** The loop over the state's files: the manifest's entries and the members, within the size limit. */
  method Pack(state: Tree, listing: seq<Path>, maxBytes: int, world: World)
    returns (fits: bool, entries: seq<Entry>, payloads: seq<Member>)
    requires IsTree(state) && Lists(listing, state) && maxBytes > 0
    ensures fits <==> SizeOf(listing, state) <= maxBytes
    ensures fits ==> PairedAll(entries, payloads, listing, state, world) && |entries| == |listing|
  {
    entries, payloads := [], [];
    var total := 0;
    for i := 0 to |listing|
      invariant PairedAll(entries, payloads, listing, state, world) && |entries| == i
      invariant total == SizeOf(listing[..i], state) <= maxBytes
    {
      ListedIsProper(listing, state, i);
      var data := FileBytes(state, listing[i]);
      SizeStep(listing, state, i);
      total := total + |data|;
      if total > maxBytes {
        SizeGrows(listing, state, i + 1);
        return false, [], [];
      }
      PairsGrow(entries, payloads, listing, state, world);
      entries := entries + [EntryFor(listing[i], data, world)];
      payloads := payloads + [MemberFor(listing[i], data)];
    }
    assert listing[..|listing|] == listing;
    fits := true;
  }

  /** When create_backup makes an archive. */
  predicate Creates(state: Tree, listing: seq<Path>, maxBytes: int, keyGiven: bool, outputExists: bool,
                    world: World)
  {
    keyGiven && maxBytes > 0 && world.validates(state) && SizeOf(listing, state) <= maxBytes && !outputExists
  }

  /** create_backup; `listing` is the sorted walk over the state, `facts` stands for the product version,
      the shutdown time and the audit totals. An existing output is never overwritten. */
  method CreateBackup(state: Tree, listing: seq<Path>, created: int, facts: string, maxBytes: int,
                      keyGiven: bool, outputExists: bool, world: World)
    returns (archive: Option<seq<Member>>, manifest: Manifest)
    requires IsTree(state) && Lists(listing, state)
    ensures archive.Some? <==> Creates(state, listing, maxBytes, keyGiven, outputExists, world)
    ensures archive.Some? ==> IsBackup(archive.value, manifest, listing, state, world)
                              && manifest.created == created
  {
    manifest := Manifest(SCHEMA_VERSION, created, facts, []);
    if !keyGiven || maxBytes <= 0 || !world.validates(state) {
      return None, manifest;
    }
    var fits, entries, payloads := Pack(state, listing, maxBytes, world);
    if !fits || outputExists {
      return None, manifest;
    }
    manifest := manifest.(files := entries);
    BackupFromPairs(manifest, payloads, listing, state, world);
    archive := Some([Member(MANIFEST_NAME, true, world.render(manifest))] + payloads);
  }
}
