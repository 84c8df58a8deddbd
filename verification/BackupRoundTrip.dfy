/** What a backup and its restore promise each other: state_tool.py, create_backup and
    restore_backup. */
module BackupRoundTrip {
  import opened Wrappers
  import opened BackupPaths
  import opened Backup

  // The members of a created archive.

  lemma ManifestNameIsSafe()
    ensures SafeRelative(MANIFEST_NAME).Some?
  {
    assert ProperPart(MANIFEST_NAME);
    assert Posix([MANIFEST_NAME]) == MANIFEST_NAME;
    SafeRoundTrip([MANIFEST_NAME]);
  }

  lemma NotTheManifest(path: Path)
    requires path != []
    ensures MemberName(path) != MANIFEST_NAME
  {
    assert MemberName(path)[0] == 'd';
  }

  lemma BackupNamed(archive: seq<Member>, m: Manifest, listing: seq<Path>, state: Tree, world: World, i: nat)
    requires IsTree(state) && Lists(listing, state) && IsBackup(archive, m, listing, state, world)
    requires 0 < i < |archive|
    ensures Proper(listing[i - 1]) && archive[i].name == MemberName(listing[i - 1])
    ensures archive[i].regular && archive[i].data == FileBytes(state, listing[i - 1])
  {
    assert Paired(m.files[i - 1], archive[i], listing[i - 1], state, world);
    ListedIsProper(listing, state, i - 1);
  }

  lemma BackupNamesDiffer(archive: seq<Member>, m: Manifest, listing: seq<Path>, state: Tree, world: World,
                          j: nat, i: nat)
    requires IsTree(state) && Lists(listing, state) && IsBackup(archive, m, listing, state, world)
    requires j < i < |archive|
    ensures archive[j].name != archive[i].name
  {
    BackupNamed(archive, m, listing, state, world, i);
    if j == 0 {
      NotTheManifest(listing[i - 1]);
    } else {
      BackupNamed(archive, m, listing, state, world, j);
      if archive[j].name == archive[i].name {
        MemberNameInjective(listing[j - 1], listing[i - 1]);
      }
    }
  }

  lemma BackupMemberOk(archive: seq<Member>, m: Manifest, listing: seq<Path>, state: Tree, world: World, i: nat)
    requires IsTree(state) && Lists(listing, state) && IsBackup(archive, m, listing, state, world)
    requires i < |archive|
    ensures MemberOk(archive, i)
  {
    forall j | 0 <= j < i
      ensures archive[j].name != archive[i].name
    {
      BackupNamesDiffer(archive, m, listing, state, world, j, i);
    }
    if i == 0 {
      ManifestNameIsSafe();
    } else {
      BackupNamed(archive, m, listing, state, world, i);
      MemberNameIsSafe(listing[i - 1]);
    }
  }

  lemma BackupMembersOk(archive: seq<Member>, m: Manifest, listing: seq<Path>, state: Tree, world: World)
    requires IsTree(state) && Lists(listing, state) && IsBackup(archive, m, listing, state, world)
    ensures forall i :: 0 <= i < |archive| ==> MemberOk(archive, i)
  {
    forall i | 0 <= i < |archive|
      ensures MemberOk(archive, i)
    {
      BackupMemberOk(archive, m, listing, state, world, i);
    }
  }

  lemma {:induction false} BackupTotal(archive: seq<Member>, m: Manifest, listing: seq<Path>, state: Tree,
                                       world: World, k: nat)
    requires IsBackup(archive, m, listing, state, world) && k <= |listing|
    ensures Total(archive[..k + 1]) == |world.render(m)| + SizeOf(listing[..k], state)
    decreases k
  {
    if k == 0 {
      assert archive[..1][..0] == [];
    } else {
      BackupTotal(archive, m, listing, state, world, k - 1);
      assert archive[..k + 1][..k] == archive[..k];
      assert listing[..k][..k - 1] == listing[..k - 1];
      assert Paired(m.files[k - 1], archive[k], listing[k - 1], state, world);
    }
  }

  lemma BackupSize(archive: seq<Member>, m: Manifest, listing: seq<Path>, state: Tree, world: World)
    requires IsBackup(archive, m, listing, state, world)
    ensures Total(archive) == |world.render(m)| + SizeOf(listing, state)
  {
    BackupTotal(archive, m, listing, state, world, |listing|);
    assert archive[..|listing| + 1] == archive && listing[..|listing|] == listing;
  }

  /** The limits restore applies and create does not: the manifest counts, and so does every member. */
  predicate Fits(m: Manifest, listing: seq<Path>, state: Tree, maxBytes: int, world: World) {
    && |world.render(m)| <= MANIFEST_LIMIT
    && |world.render(m)| + SizeOf(listing, state) <= maxBytes
    && |listing| + 1 <= MEMBER_LIMIT
  }

  lemma BackupReadableIff(archive: seq<Member>, m: Manifest, listing: seq<Path>, state: Tree,
                          maxBytes: int, world: World)
    requires IsTree(state) && Lists(listing, state) && IsBackup(archive, m, listing, state, world)
    ensures Readable(archive, maxBytes) <==>
            |world.render(m)| + SizeOf(listing, state) <= maxBytes && |listing| + 1 <= MEMBER_LIMIT
  {
    BackupMembersOk(archive, m, listing, state, world);
    BackupSize(archive, m, listing, state, world);
  }

  /** The members beside the manifest hold exactly the listed files. */
  ghost predicate Carries(rest: map<string, Bytes>, listing: seq<Path>, state: Tree) {
    && (forall k :: 0 <= k < |listing| ==> CarriesAt(rest, listing, state, k))
    && (forall name :: name in rest ==> exists k :: 0 <= k < |listing| && IsNameOf(name, listing, k))
  }

  predicate CarriesAt(rest: map<string, Bytes>, listing: seq<Path>, state: Tree, k: nat)
    requires k < |listing|
  {
    && listing[k] != [] && MemberName(listing[k]) in rest
    && rest[MemberName(listing[k])] == FileBytes(state, listing[k])
  }

  predicate IsNameOf(name: string, listing: seq<Path>, k: nat)
    requires k < |listing|
  {
    listing[k] != [] && name == MemberName(listing[k])
  }

  lemma BackupCarries(archive: seq<Member>, m: Manifest, listing: seq<Path>, state: Tree, world: World)
    requires IsTree(state) && Lists(listing, state) && IsBackup(archive, m, listing, state, world)
    ensures MANIFEST_NAME in ByName(archive) && ByName(archive)[MANIFEST_NAME] == world.render(m)
    ensures Carries(ByName(archive) - {MANIFEST_NAME}, listing, state)
  {
    forall i | 0 <= i < |archive|
      ensures Fresh(archive, i)
    {
      BackupMemberOk(archive, m, listing, state, world, i);
    }
    DataOf(archive, 0);
    var rest := ByName(archive) - {MANIFEST_NAME};
    forall k | 0 <= k < |listing|
      ensures CarriesAt(rest, listing, state, k)
    {
      assert Paired(m.files[k], archive[k + 1], listing[k], state, world);
      DataOf(archive, k + 1);
      NotTheManifest(listing[k]);
    }
    forall name | name in rest
      ensures exists k :: 0 <= k < |listing| && IsNameOf(name, listing, k)
    {
      var k := BackupNameListed(archive, m, listing, state, world, name);
    }
  }

  lemma BackupNameListed(archive: seq<Member>, m: Manifest, listing: seq<Path>, state: Tree, world: World,
                         name: string) returns (k: nat)
    requires IsBackup(archive, m, listing, state, world) && name in ByName(archive) && name != MANIFEST_NAME
    ensures k < |listing| && IsNameOf(name, listing, k)
  {
    NamesIn(archive, name);
    var i :| 0 <= i < |archive| && archive[i].name == name;
    k := i - 1;
    assert Paired(m.files[k], archive[i], listing[k], state, world);
  }

  // The manifest of a created archive.

  predicate Describes(e: Entry, path: Path, state: Tree, world: World) {
    && path != []
    && SafeRelative(e.path) == Some(path) && EntryName(e) == MemberName(path)
    && e.size == |FileBytes(state, path)| && e.sha256 == world.sha(FileBytes(state, path))
  }

  ghost predicate DescribesAll(files: seq<Entry>, listing: seq<Path>, state: Tree, world: World) {
    |files| == |listing| && forall k :: 0 <= k < |listing| ==> Describes(files[k], listing[k], state, world)
  }

  lemma BackupDescribes(archive: seq<Member>, m: Manifest, listing: seq<Path>, state: Tree, world: World)
    requires IsTree(state) && Lists(listing, state) && IsBackup(archive, m, listing, state, world)
    ensures DescribesAll(m.files, listing, state, world)
  {
    forall k | 0 <= k < |listing|
      ensures Describes(m.files[k], listing[k], state, world)
    {
      assert Paired(m.files[k], archive[k + 1], listing[k], state, world);
      ListedIsProper(listing, state, k);
      SafeRoundTrip(listing[k]);
    }
  }

  lemma DeclaresListing(files: seq<Entry>, listing: seq<Path>, state: Tree, world: World, rest: map<string, Bytes>)
    requires DescribesAll(files, listing, state, world) && Carries(rest, listing, state)
    ensures rest.Keys == Declared(files)
  {
    forall name | name in rest
      ensures name in Declared(files)
    {
      var k :| 0 <= k < |listing| && IsNameOf(name, listing, k);
      assert Describes(files[k], listing[k], state, world);
    }
    forall k | 0 <= k < |files|
      ensures EntryName(files[k]) in rest
    {
      assert Describes(files[k], listing[k], state, world);
      assert CarriesAt(rest, listing, state, k);
    }
  }

  /** The staged tree after k files. */
  predicate Staged(tree: Tree, listing: seq<Path>, state: Tree, k: nat)
    requires k <= |listing|
  {
    && (forall path :: path in tree ==> path in listing[..k] && tree[path] == FileBytes(state, path))
    && (forall j :: 0 <= j < k ==> listing[j] in tree)
  }

  lemma StagedGrows(tree: Tree, listing: seq<Path>, state: Tree, k: nat)
    requires k < |listing| && Staged(tree, listing, state, k)
    ensures Staged(tree[listing[k] := FileBytes(state, listing[k])], listing, state, k + 1)
  {
    assert listing[..k + 1] == listing[..k] + [listing[k]];
  }

  lemma StagedNext(files: seq<Entry>, listing: seq<Path>, state: Tree, world: World,
                   rest: map<string, Bytes>, k: nat)
    requires DescribesAll(files, listing, state, world) && Carries(rest, listing, state) && k < |files|
    requires Staged(TreeOf(rest, files[..k]), listing, state, k)
    ensures Staged(TreeOf(rest, files[..k + 1]), listing, state, k + 1)
  {
    assert Describes(files[k], listing[k], state, world);
    assert CarriesAt(rest, listing, state, k);
    TreeStep(rest, files, k, listing[k]);
    StagedGrows(TreeOf(rest, files[..k]), listing, state, k);
  }

  lemma TreeSoFar(files: seq<Entry>, listing: seq<Path>, state: Tree, world: World,
                  rest: map<string, Bytes>, k: nat)
    requires DescribesAll(files, listing, state, world) && Carries(rest, listing, state) && k <= |files|
    ensures Staged(TreeOf(rest, files[..k]), listing, state, k)
  {
    for i := 0 to k
      invariant Staged(TreeOf(rest, files[..i]), listing, state, i)
    {
      StagedNext(files, listing, state, world, rest, i);
    }
  }

  lemma StagedAll(tree: Tree, listing: seq<Path>, state: Tree)
    requires Lists(listing, state) && Staged(tree, listing, state, |listing|)
    ensures tree == SupportedFiles(state)
  {
    assert listing[..|listing|] == listing;
  }

  lemma NamesDiffer(files: seq<Entry>, listing: seq<Path>, state: Tree, world: World, j: nat, k: nat)
    requires IsTree(state) && Lists(listing, state) && DescribesAll(files, listing, state, world)
    requires j < k < |files|
    ensures EntryName(files[j]) != EntryName(files[k])
  {
    assert Describes(files[j], listing[j], state, world) && Describes(files[k], listing[k], state, world);
    ListedIsProper(listing, state, j);
    ListedIsProper(listing, state, k);
    if EntryName(files[j]) == EntryName(files[k]) {
      MemberNameInjective(listing[j], listing[k]);
    }
  }

  lemma StagedStaysWritable(files: seq<Entry>, listing: seq<Path>, state: Tree, world: World,
                            rest: map<string, Bytes>, k: nat)
    requires IsTree(state) && Lists(listing, state)
    requires DescribesAll(files, listing, state, world) && Carries(rest, listing, state) && k < |files|
    ensures Writable(rest, files, k)
  {
    assert Describes(files[k], listing[k], state, world);
    ListedIsProper(listing, state, k);
    TreeSoFar(files, listing, state, world, rest, k);
    var tree := TreeOf(rest, files[..k]);
    assert CanWrite(state, listing[k]);
    forall other | other in tree
      ensures !(other < listing[k]) && !(listing[k] < other)
    {
      assert other in listing[..k];
      assert other in listing;
    }
  }

  lemma BackupEntryOk(files: seq<Entry>, listing: seq<Path>, state: Tree, world: World,
                      rest: map<string, Bytes>, k: nat)
    requires IsTree(state) && Lists(listing, state)
    requires DescribesAll(files, listing, state, world) && Carries(rest, listing, state) && k < |files|
    ensures EntryOk(rest, files, k, world)
  {
    assert Describes(files[k], listing[k], state, world);
    assert CarriesAt(rest, listing, state, k);
    forall j | 0 <= j < k
      ensures EntryName(files[j]) != EntryName(files[k])
    {
      NamesDiffer(files, listing, state, world, j, k);
    }
    StagedStaysWritable(files, listing, state, world, rest, k);
  }

  lemma BackupHolds(files: seq<Entry>, listing: seq<Path>, state: Tree, world: World, rest: map<string, Bytes>)
    requires IsTree(state) && Lists(listing, state)
    requires DescribesAll(files, listing, state, world) && Carries(rest, listing, state)
    ensures Holds(rest, files, world)
  {
    DeclaresListing(files, listing, state, world, rest);
    forall k | 0 <= k < |files|
      ensures EntryOk(rest, files, k, world)
    {
      BackupEntryOk(files, listing, state, world, rest, k);
    }
  }

  lemma BackupTree(files: seq<Entry>, listing: seq<Path>, state: Tree, world: World, rest: map<string, Bytes>)
    requires Lists(listing, state)
    requires DescribesAll(files, listing, state, world) && Carries(rest, listing, state)
    ensures TreeOf(rest, files) == SupportedFiles(state)
  {
    TreeSoFar(files, listing, state, world, rest, |files|);
    StagedAll(TreeOf(rest, files[..|files|]), listing, state);
    WholeTree(rest, files);
  }

  lemma WholeTree(rest: map<string, Bytes>, files: seq<Entry>)
    ensures TreeOf(rest, files[..|files|]) == TreeOf(rest, files)
  {
    assert files[..|files|] == files;
  }

  lemma MarkerIsFree(state: Tree)
    requires IsTree(state)
    ensures CanWrite(SupportedFiles(state), MARKER_PATH)
  {
    forall other | other in SupportedFiles(state)
      ensures !(other < MARKER_PATH) && !(MARKER_PATH < other)
    {
      assert Proper(other);
      assert CLEAN_MARKER[0] == '.';
      assert other[0][0] != '.';
    }
  }

  // The round trip.

  /** What restoring a created archive comes to, whatever the validation of the restored state says. */
  lemma RestoredFromBackup(archive: seq<Member>, m: Manifest, listing: seq<Path>, state: Tree,
                           maxBytes: int, world: World, marker: Bytes)
    requires IsTree(state) && Lists(listing, state) && IsBackup(archive, m, listing, state, world)
    requires world.parse(world.render(m)) == Some(m)
    ensures var finished := Finished(SupportedFiles(state), marker);
            Restored(archive, maxBytes, world, marker) ==
            if Fits(m, listing, state, maxBytes, world) && world.validates(finished) then Some(finished)
            else None
  {
    BackupReadableIff(archive, m, listing, state, maxBytes, world);
    BackupCarries(archive, m, listing, state, world);
    BackupDescribes(archive, m, listing, state, world);
    BackupHolds(m.files, listing, state, world, ByName(archive) - {MANIFEST_NAME});
    BackupTree(m.files, listing, state, world, ByName(archive) - {MANIFEST_NAME});
    MarkerIsFree(state);
  }

  /** Validation looks at a state's supported files and its marker only: a valid state stays valid when
      reduced to its supported files with the marker a restore writes. */
  ghost predicate Revalidates(world: World, marker: Bytes) {
    forall state :: IsTree(state) && world.validates(state) ==>
      world.validates(Finished(SupportedFiles(state), marker))
  }

  /** A created archive restores, to exactly the supported files with a fresh marker, if and only if it
      is within the limits restore applies. */
  lemma RoundTripIff(archive: seq<Member>, m: Manifest, listing: seq<Path>, state: Tree, maxBytes: int,
                     world: World, marker: Bytes)
    requires IsTree(state) && Lists(listing, state) && IsBackup(archive, m, listing, state, world)
    requires world.parse(world.render(m)) == Some(m)
    requires world.validates(state) && Revalidates(world, marker)
    ensures Restored(archive, maxBytes, world, marker) ==
            if Fits(m, listing, state, maxBytes, world) then Some(Finished(SupportedFiles(state), marker))
            else None
  {
    RestoredFromBackup(archive, m, listing, state, maxBytes, world, marker);
  }

  // Tampering.

  predicate NoCollision(a: Bytes, b: Bytes, world: World) {
    world.sha(a) == world.sha(b) ==> a == b
  }

  /** The digest tells the members at hand from the files backed up. */
  ghost predicate NoCollisions(members: map<string, Bytes>, listing: seq<Path>, state: Tree, world: World) {
    forall name, path :: name in members && path in listing ==>
      NoCollision(members[name], FileBytes(state, path), world)
  }

  lemma SameMembers(files: seq<Entry>, listing: seq<Path>, state: Tree, world: World,
                    rest: map<string, Bytes>, other: map<string, Bytes>)
    requires DescribesAll(files, listing, state, world) && Carries(rest, listing, state)
    requires Holds(other, files, world)
    requires NoCollisions(other, listing, state, world)
    ensures other == rest
  {
    DeclaresListing(files, listing, state, world, rest);
    forall name | name in rest
      ensures other[name] == rest[name]
    {
      SameAt(files, listing, state, world, rest, other, name);
    }
  }

  lemma SameAt(files: seq<Entry>, listing: seq<Path>, state: Tree, world: World,
               rest: map<string, Bytes>, other: map<string, Bytes>, name: string)
    requires DescribesAll(files, listing, state, world) && Carries(rest, listing, state) && name in rest
    requires Holds(other, files, world) && NoCollisions(other, listing, state, world)
    ensures name in other && other[name] == rest[name]
  {
    var k :| 0 <= k < |listing| && IsNameOf(name, listing, k);
    SameMember(files, listing, state, world, rest, other, k);
  }

  lemma SameMember(files: seq<Entry>, listing: seq<Path>, state: Tree, world: World,
                   rest: map<string, Bytes>, other: map<string, Bytes>, k: nat)
    requires DescribesAll(files, listing, state, world) && Carries(rest, listing, state) && k < |listing|
    requires Holds(other, files, world) && NoCollisions(other, listing, state, world)
    ensures var name := EntryName(files[k]);
            name in rest && name in other && other[name] == rest[name]
    ensures EntryName(files[k]) == MemberName(listing[k])
  {
    assert Describes(files[k], listing[k], state, world);
    assert CarriesAt(rest, listing, state, k);
    assert EntryOk(other, files, k, world);
    assert listing[k] in listing;
    assert NoCollision(other[EntryName(files[k])], FileBytes(state, listing[k]), world);
  }

  lemma {:induction false} CountsMembers(archive: seq<Member>)
    requires forall i :: 0 <= i < |archive| ==> Fresh(archive, i)
    ensures |ByName(archive).Keys| == |archive|
    decreases |archive|
  {
    if archive != [] {
      var n := |archive| - 1;
      var front := archive[..n];
      forall i | 0 <= i < |front|
        ensures Fresh(front, i)
      {
        assert Fresh(archive, i);
      }
      CountsMembers(front);
      assert Fresh(archive, n);
      NamesIn(front, archive[n].name);
      assert ByName(archive).Keys == ByName(front).Keys + {archive[n].name};
    }
  }

  lemma AllFresh(archive: seq<Member>)
    requires forall i :: 0 <= i < |archive| ==> MemberOk(archive, i)
    ensures forall i :: 0 <= i < |archive| ==> Fresh(archive, i)
  {
    forall i | 0 <= i < |archive|
      ensures Fresh(archive, i)
    {
      assert MemberOk(archive, i);
    }
  }

  lemma Reassemble(a: map<string, Bytes>, b: map<string, Bytes>, name: string)
    requires name in a && name in b && a[name] == b[name] && a - {name} == b - {name}
    ensures a == b
  {
    forall other | other in a
      ensures other in b && a[other] == b[other]
    {
      if other != name {
        assert other in a - {name};
      }
    }
    forall other | other in b
      ensures other in a
    {
      if other != name {
        assert other in b - {name};
      }
    }
  }

  lemma RestoredIsReadable(archive: seq<Member>, maxBytes: int, world: World, marker: Bytes)
    requires Restored(archive, maxBytes, world, marker).Some?
    ensures forall i :: 0 <= i < |archive| ==> MemberOk(archive, i)
  {
    assert Readable(archive, maxBytes);
  }

  lemma RestHolds(rest: map<string, Bytes>, files: seq<Entry>, world: World, marker: Bytes)
    requires RestoredRest(rest, files, world, marker).Some?
    ensures Holds(rest, files, world)
    ensures RestoredRest(rest, files, world, marker).value == Finished(TreeOf(rest, files), marker)
  {
  }

  lemma RestoredHolds(archive: seq<Member>, m: Manifest, maxBytes: int, world: World, marker: Bytes)
    requires Restored(archive, maxBytes, world, marker).Some?
    requires MANIFEST_NAME in ByName(archive) && world.parse(ByName(archive)[MANIFEST_NAME]) == Some(m)
    ensures Holds(ByName(archive) - {MANIFEST_NAME}, m.files, world)
    ensures Restored(archive, maxBytes, world, marker).value
            == Finished(TreeOf(ByName(archive) - {MANIFEST_NAME}, m.files), marker)
  {
    RestHolds(ByName(archive) - {MANIFEST_NAME}, m.files, world, marker);
  }

  lemma SameCount(archive: seq<Member>, other: seq<Member>)
    requires forall i :: 0 <= i < |archive| ==> MemberOk(archive, i)
    requires forall i :: 0 <= i < |other| ==> MemberOk(other, i)
    requires ByName(other) == ByName(archive)
    ensures |other| == |archive|
  {
    AllFresh(archive);
    AllFresh(other);
    CountsMembers(archive);
    CountsMembers(other);
  }

  /** An archive that carries a backup's manifest restores only if its members are that backup's, each
      once and byte for byte: nothing missing, extra, duplicated or altered gets through. */
  lemma TamperedIsRefused(archive: seq<Member>, m: Manifest, listing: seq<Path>, state: Tree,
                          other: seq<Member>, maxBytes: int, world: World, marker: Bytes)
    requires IsTree(state) && Lists(listing, state) && IsBackup(archive, m, listing, state, world)
    requires world.parse(world.render(m)) == Some(m)
    requires MANIFEST_NAME in ByName(other) && ByName(other)[MANIFEST_NAME] == world.render(m)
    requires NoCollisions(ByName(other) - {MANIFEST_NAME}, listing, state, world)
    requires Restored(other, maxBytes, world, marker).Some?
    ensures ByName(other) == ByName(archive) && |other| == |archive|
    ensures Restored(other, maxBytes, world, marker) == Some(Finished(SupportedFiles(state), marker))
  {
    TamperedRest(archive, m, listing, state, other, maxBytes, world, marker);
    SameManifestAndRest(archive, m, listing, state, ByName(other), world);
    EachMemberOnce(archive, m, listing, state, other, maxBytes, world, marker);
  }

  lemma EachMemberOnce(archive: seq<Member>, m: Manifest, listing: seq<Path>, state: Tree,
                       other: seq<Member>, maxBytes: int, world: World, marker: Bytes)
    requires IsTree(state) && Lists(listing, state) && IsBackup(archive, m, listing, state, world)
    requires Restored(other, maxBytes, world, marker).Some? && ByName(other) == ByName(archive)
    ensures |other| == |archive|
  {
    RestoredIsReadable(other, maxBytes, world, marker);
    BackupMembersOk(archive, m, listing, state, world);
    SameCount(archive, other);
  }

  lemma SameManifestAndRest(archive: seq<Member>, m: Manifest, listing: seq<Path>, state: Tree,
                            members: map<string, Bytes>, world: World)
    requires IsTree(state) && Lists(listing, state) && IsBackup(archive, m, listing, state, world)
    requires MANIFEST_NAME in members && members[MANIFEST_NAME] == world.render(m)
    requires members - {MANIFEST_NAME} == ByName(archive) - {MANIFEST_NAME}
    ensures members == ByName(archive)
  {
    BackupCarries(archive, m, listing, state, world);
    Reassemble(ByName(archive), members, MANIFEST_NAME);
  }

  lemma TamperedRest(archive: seq<Member>, m: Manifest, listing: seq<Path>, state: Tree,
                     other: seq<Member>, maxBytes: int, world: World, marker: Bytes)
    requires IsTree(state) && Lists(listing, state) && IsBackup(archive, m, listing, state, world)
    requires MANIFEST_NAME in ByName(other) && world.parse(ByName(other)[MANIFEST_NAME]) == Some(m)
    requires NoCollisions(ByName(other) - {MANIFEST_NAME}, listing, state, world)
    requires Restored(other, maxBytes, world, marker).Some?
    ensures ByName(other) - {MANIFEST_NAME} == ByName(archive) - {MANIFEST_NAME}
    ensures Restored(other, maxBytes, world, marker) == Some(Finished(SupportedFiles(state), marker))
  {
    RestoredHolds(other, m, maxBytes, world, marker);
    SameRest(archive, m, listing, state, ByName(other) - {MANIFEST_NAME}, world);
  }

  lemma SameRest(archive: seq<Member>, m: Manifest, listing: seq<Path>, state: Tree, other: map<string, Bytes>,
                 world: World)
    requires IsTree(state) && Lists(listing, state) && IsBackup(archive, m, listing, state, world)
    requires Holds(other, m.files, world) && NoCollisions(other, listing, state, world)
    ensures other == ByName(archive) - {MANIFEST_NAME}
    ensures TreeOf(other, m.files) == SupportedFiles(state)
  {
    BackupCarries(archive, m, listing, state, world);
    BackupDescribes(archive, m, listing, state, world);
    var rest := ByName(archive) - {MANIFEST_NAME};
    SameMembers(m.files, listing, state, world, rest, other);
    BackupTree(m.files, listing, state, world, rest);
  }

  // Any accepted archive.

  predicate HasEntry(tree: Tree, rest: map<string, Bytes>, e: Entry) {
    && SafeRelative(e.path).Some? && EntryName(e) in rest
    && SafeRelative(e.path).value in tree && tree[SafeRelative(e.path).value] == rest[EntryName(e)]
  }

  lemma EntryJoins(rest: map<string, Bytes>, files: seq<Entry>, world: World, k: nat)
    requires k < |files| && EntryOk(rest, files, k, world)
    ensures HasEntry(TreeOf(rest, files[..k + 1]), rest, files[k])
  {
    TreeStep(rest, files, k, SafeRelative(files[k].path).value);
  }

  lemma EntryStays(rest: map<string, Bytes>, files: seq<Entry>, world: World, k: nat, j: nat)
    requires j < k < |files| && EntryOk(rest, files, k, world)
    requires HasEntry(TreeOf(rest, files[..k]), rest, files[j])
    ensures HasEntry(TreeOf(rest, files[..k + 1]), rest, files[j])
  {
    TreeStep(rest, files, k, SafeRelative(files[k].path).value);
    assert EntryName(files[j]) != EntryName(files[k]);
  }

  predicate StaysAt(rest: map<string, Bytes>, files: seq<Entry>, j: nat, i: nat)
    requires j < |files| && i < |files|
  {
    HasEntry(TreeOf(rest, files[..i]), rest, files[j]) ==> HasEntry(TreeOf(rest, files[..i + 1]), rest, files[j])
  }

  lemma {:induction false} EntryHasStayed(rest: map<string, Bytes>, files: seq<Entry>, j: nat, k: nat)
    requires j < k <= |files| && HasEntry(TreeOf(rest, files[..j + 1]), rest, files[j])
    requires forall i :: j < i < k ==> StaysAt(rest, files, j, i)
    ensures HasEntry(TreeOf(rest, files[..k]), rest, files[j])
    decreases k
  {
    if j + 1 < k {
      EntryHasStayed(rest, files, j, k - 1);
      assert StaysAt(rest, files, j, k - 1);
    }
  }

  lemma TreeHasEntries(rest: map<string, Bytes>, files: seq<Entry>, world: World, j: nat)
    requires AllOk(rest, files, |files|, world) && j < |files|
    ensures HasEntry(TreeOf(rest, files), rest, files[j])
  {
    assert EntryOk(rest, files, j, world);
    EntryJoins(rest, files, world, j);
    forall i | j < i < |files|
      ensures StaysAt(rest, files, j, i)
    {
      LaterEntryKeeps(rest, files, world, j, i);
    }
    EntryHasStayed(rest, files, j, |files|);
    WholeTree(rest, files);
  }

  lemma LaterEntryKeeps(rest: map<string, Bytes>, files: seq<Entry>, world: World, j: nat, i: nat)
    requires AllOk(rest, files, |files|, world) && j < i < |files|
    ensures StaysAt(rest, files, j, i)
  {
    assert EntryOk(rest, files, i, world);
    if HasEntry(TreeOf(rest, files[..i]), rest, files[j]) {
      EntryStays(rest, files, world, i, j);
    }
  }

  lemma {:induction false} TreeHasOnlyEntries(rest: map<string, Bytes>, files: seq<Entry>, k: nat, path: Path)
    requires k <= |files| && path in TreeOf(rest, files[..k])
    ensures exists j :: 0 <= j < k && SafeRelative(files[j].path) == Some(path)
    decreases k
  {
    if k > 0 {
      assert files[..k][..k - 1] == files[..k - 1];
      if SafeRelative(files[k - 1].path) != Some(path) {
        TreeHasOnlyEntries(rest, files, k - 1, path);
      }
    }
  }

  /** Whatever archive is accepted, wherever it came from: its manifest is of the known schema, its members
      are the manifest and the declared files and nothing else, and the new state is those files, with
      the declared digests, and the marker. */
  lemma AcceptedIsDeclared(archive: seq<Member>, maxBytes: int, world: World, marker: Bytes)
    requires Restored(archive, maxBytes, world, marker).Some?
    ensures var members, tree := ByName(archive), Restored(archive, maxBytes, world, marker).value;
            && MANIFEST_NAME in members && world.parse(members[MANIFEST_NAME]).Some?
            && world.parse(members[MANIFEST_NAME]).value.schema == 1
            && var files := world.parse(members[MANIFEST_NAME]).value.files;
            && members.Keys == Declared(files) + {MANIFEST_NAME}
            && (forall j :: 0 <= j < |files| ==>
                  && SafeRelative(files[j].path).Some?
                  && var path := SafeRelative(files[j].path).value;
                  && path in tree
                  && (path != MARKER_PATH ==> |tree[path]| == files[j].size
                                              && world.sha(tree[path]) == files[j].sha256))
            && (forall path :: path in tree ==>
                  path == MARKER_PATH || exists j :: 0 <= j < |files| && SafeRelative(files[j].path) == Some(path))
  {
    var members := ByName(archive);
    var files := world.parse(members[MANIFEST_NAME]).value.files;
    var rest := members - {MANIFEST_NAME};
    assert Holds(rest, files, world);
    var tree := Restored(archive, maxBytes, world, marker).value;
    assert files[..|files|] == files;
    assert members.Keys == rest.Keys + {MANIFEST_NAME};
    forall j | 0 <= j < |files|
      ensures SafeRelative(files[j].path).Some?
      ensures var path := SafeRelative(files[j].path).value;
              && path in tree
              && (path != MARKER_PATH ==> |tree[path]| == files[j].size
                                          && world.sha(tree[path]) == files[j].sha256)
    {
      assert EntryOk(rest, files, j, world);
      TreeHasEntries(rest, files, world, j);
    }
    forall path | path in tree && path != MARKER_PATH
      ensures exists j :: 0 <= j < |files| && SafeRelative(files[j].path) == Some(path)
    {
      TreeHasOnlyEntries(rest, files, |files|, path);
    }
  }
}
