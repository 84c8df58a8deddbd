/** Archive member names and the relative paths they stand for: state_tool.py, _safe_relative and
    PurePosixPath's reading of a path string. */
module BackupPaths {
  import opened Wrappers

  /** A relative path as its parts. */
  type Path = seq<string>

  predicate ProperPart(part: string) {
    part != "" && part != "." && part != ".." && '/' !in part
  }

  predicate Proper(path: Path) {
    path != [] && forall i :: 0 <= i < |path| ==> ProperPart(path[i])
  }

  function Kept(part: string): Path {
    if part == "" || part == "." then [] else [part]
  }

  /** The parts PurePosixPath reads after having read `open` of the current one: separators split,
      empty parts and single dots vanish. */
  function PartsFrom(open: string, rest: string): Path
    decreases |rest|
  {
    if rest == "" then Kept(open)
    else if rest[0] == '/' then Kept(open) + PartsFrom("", rest[1..])
    else PartsFrom(open + [rest[0]], rest[1..])
  }

  function SafeRelative(value: string): Option<Path> {
    var parts := PartsFrom("", value);
    if (value != "" && value[0] == '/') || parts == [] || ".." in parts then None else Some(parts)
  }

  /** as_posix. */
  function Posix(path: Path): string
    requires path != []
  {
    if |path| == 1 then path[0] else path[0] + "/" + Posix(path[1..])
  }

  lemma {:induction false} ReadsPart(open: string, part: string, rest: string)
    requires '/' !in part
    ensures PartsFrom(open, part + rest) == PartsFrom(open + part, rest)
    decreases |part|
  {
    if part == "" {
      assert part + rest == rest;
      assert open + part == open;
    } else {
      assert (part + rest)[0] == part[0];
      assert (part + rest)[1..] == part[1..] + rest;
      ReadsPart(open + [part[0]], part[1..], rest);
      assert open + [part[0]] + part[1..] == open + part;
    }
  }

  lemma {:induction false} ReadsBack(path: Path)
    requires Proper(path)
    ensures PartsFrom("", Posix(path)) == path
    decreases |path|
  {
    var part := path[0];
    assert ProperPart(part);
    if |path| == 1 {
      ReadsPart("", part, "");
      assert part + "" == part && "" + part == part;
      assert PartsFrom("", part) == PartsFrom(part, "");
    } else {
      var rest := "/" + Posix(path[1..]);
      assert Proper(path[1..]) by {
        forall i | 0 <= i < |path[1..]|
          ensures ProperPart(path[1..][i])
        {
          assert ProperPart(path[i + 1]);
        }
      }
      ReadsBack(path[1..]);
      ReadsPart("", part, rest);
      assert Posix(path) == part + rest && "" + part == part;
      assert rest[1..] == Posix(path[1..]);
      assert path == [part] + path[1..];
    }
  }

  /** Writing a proper path out and reading it as a member name gives the same path back. */
  lemma SafeRoundTrip(path: Path)
    requires Proper(path)
    ensures SafeRelative(Posix(path)) == Some(path)
  {
    ReadsBack(path);
    assert ProperPart(path[0]);
    assert Posix(path)[0] == path[0][0];
    assert path[0][0] in path[0];
    forall i | 0 <= i < |path|
      ensures path[i] != ".."
    {
      assert ProperPart(path[i]);
    }
  }

  lemma {:induction false} PartsArePlain(open: string, rest: string)
    requires '/' !in open
    ensures forall i :: 0 <= i < |PartsFrom(open, rest)| ==>
      var part := PartsFrom(open, rest)[i]; part != "" && part != "." && '/' !in part
    decreases |rest|
  {
    if rest == "" {
    } else if rest[0] == '/' {
      PartsArePlain("", rest[1..]);
    } else {
      PartsArePlain(open + [rest[0]], rest[1..]);
    }
  }

  /** Whatever is accepted stays below the directory it is joined to: its parts are proper, so no
      part climbs, restarts at the root or hides a separator. */
  lemma AcceptedIsProper(value: string)
    requires SafeRelative(value).Some?
    ensures Proper(SafeRelative(value).value)
  {
    PartsArePlain("", value);
    var path := SafeRelative(value).value;
    forall i | 0 <= i < |path|
      ensures ProperPart(path[i])
    {
      assert path[i] in path;
    }
  }

  /** Accepting is idempotent: the normal form of an accepted value is accepted as itself. */
  lemma NormalFormIsStable(value: string)
    requires SafeRelative(value).Some?
    ensures SafeRelative(Posix(SafeRelative(value).value)) == SafeRelative(value)
  {
    AcceptedIsProper(value);
    SafeRoundTrip(SafeRelative(value).value);
  }

  const DATA: string := "data"

  /** The member that carries a file: data/<path>. */
  function MemberName(path: Path): string
    requires path != []
  {
    DATA + "/" + Posix(path)
  }

  lemma MemberNameIsSafe(path: Path)
    requires Proper(path)
    ensures SafeRelative(MemberName(path)) == Some([DATA] + path)
  {
    var full := [DATA] + path;
    forall i | 0 <= i < |full|
      ensures ProperPart(full[i])
    {
      if i > 0 {
        assert full[i] == path[i - 1];
      }
    }
    assert full[1..] == path;
    SafeRoundTrip(full);
  }

  lemma MemberNameInjective(p: Path, q: Path)
    requires Proper(p) && Proper(q) && MemberName(p) == MemberName(q)
    ensures p == q
  {
    MemberNameIsSafe(p);
    MemberNameIsSafe(q);
    assert ([DATA] + p)[1..] == p && ([DATA] + q)[1..] == q;
  }
}
