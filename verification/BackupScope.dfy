/** Which files a backup carries, and which member names restore accepts, by the text of their paths:
    state_tool.py, _regular_files and _safe_relative. */
module BackupScope {
  import opened Wrappers
  import opened BackupPaths
  import opened Backup

  predicate EndsWith(s: string, end: string) {
    |s| >= |end| && s[|s| - |end|..] == end
  }

  lemma {:induction false} PosixEnds(path: Path) returns (front: string)
    requires |path| >= 2
    ensures Posix(path) == front + "/" + path[|path| - 1]
  {
    if |path| == 2 {
      front := path[0];
      assert path[1..] == [path[1]];
    } else {
      var rest := PosixEnds(path[1..]);
      front := path[0] + "/" + rest;
      assert path[1..][|path[1..]| - 1] == path[|path| - 1];
      assert path[0] + "/" + (rest + "/" + path[|path| - 1]) == front + "/" + path[|path| - 1];
    }
  }

  predicate IsFirstSlash(s: string, k: nat) {
    k < |s| && s[k] == '/' && forall i :: 0 <= i < k ==> s[i] != '/'
  }

  lemma SlashBehind(a: string, s: string)
    requires '/' !in a && a + "/" <= s
    ensures IsFirstSlash(s, |a|) && s[..|a|] == a && '/' in s
  {
    assert s[|a|] == (a + "/")[|a|];
    forall i | 0 <= i < |a|
      ensures s[i] != '/'
    {
      assert s[i] == (a + "/")[i] == a[i];
    }
  }

  /** A path lies below a directory exactly when its text begins with the directory and a slash. */
  lemma BelowIff(path: Path, dir: string)
    requires Proper(path) && '/' !in dir
    ensures |path| >= 2 && path[0] == dir <==> dir + "/" <= Posix(path)
  {
    assert ProperPart(path[0]);
    var text := Posix(path);
    if |path| >= 2 {
      assert text == path[0] + "/" + Posix(path[1..]);
      SlashBehind(path[0], text);
    }
    if dir + "/" <= text {
      SlashBehind(dir, text);
    }
  }

  lemma LongName(front: string, name: string, suffix: string)
    requires '/' !in name && |name| > |suffix|
    ensures var s := front + "/" + name;
            (EndsWith(s, suffix) <==> name[|name| - |suffix|..] == suffix) && !EndsWith(s, "/" + suffix)
  {
    var s := front + "/" + name;
    assert s[|s| - |suffix|..] == name[|name| - |suffix|..];
    assert s[|s| - |suffix| - 1..][0] == name[|name| - |suffix| - 1];
  }

  lemma EqualName(front: string, name: string, suffix: string)
    requires |name| == |suffix|
    ensures var s := front + "/" + name; EndsWith(s, suffix) ==> EndsWith(s, "/" + suffix)
  {
    var s := front + "/" + name;
    assert s[|s| - |suffix|..] == name;
    assert s[|s| - |suffix| - 1..] == "/" + name;
  }

  lemma ShortName(front: string, name: string, suffix: string)
    requires '/' !in suffix && |name| < |suffix|
    ensures !EndsWith(front + "/" + name, suffix)
  {
    var s := front + "/" + name;
    if |s| >= |suffix| {
      assert s[|s| - |suffix|..][|suffix| - |name| - 1] == '/';
    }
  }

  /** A file name has more than the suffix exactly when the path's text ends with the suffix, but not
      with a slash before it. */
  lemma SuffixIff(front: string, name: string, suffix: string)
    requires '/' !in suffix && '/' !in name
    ensures Suffixed(name, suffix) <==>
              EndsWith(front + "/" + name, suffix) && !EndsWith(front + "/" + name, "/" + suffix)
  {
    if |name| > |suffix| {
      LongName(front, name, suffix);
    } else if |name| == |suffix| {
      EqualName(front, name, suffix);
    } else {
      ShortName(front, name, suffix);
    }
  }

  predicate IsFileOf(text: string, dir: string, suffix: string) {
    dir + "/" <= text && EndsWith(text, suffix) && !EndsWith(text, "/" + suffix)
  }

  lemma FileOfIff(path: Path, dir: string, suffix: string)
    requires Proper(path) && '/' !in dir && '/' !in suffix
    ensures |path| >= 2 && path[0] == dir && Suffixed(path[|path| - 1], suffix) <==>
              IsFileOf(Posix(path), dir, suffix)
  {
    BelowIff(path, dir);
    if |path| >= 2 {
      var front := PosixEnds(path);
      assert ProperPart(path[|path| - 1]);
      SuffixIff(front, path[|path| - 1], suffix);
    }
  }

  lemma OnlyPart(path: Path, name: string)
    requires Proper(path) && ProperPart(name)
    ensures path == [name] <==> Posix(path) == name
  {
    ReadsBack(path);
    assert Proper([name]);
    ReadsBack([name]);
  }

  /** A backup carries the conversations, every file of the sandboxes, the audit chains, the schedules and
      the quota registry, and nothing else. */
  lemma SupportedIff(path: Path)
    requires Proper(path)
    ensures var text := Posix(path);
            Supported(path) <==>
              || IsFileOf(text, "sessions", ".kv")
              || "sandboxes/" <= text
              || IsFileOf(text, "audit", ".jsonl")
              || text == "product-schedules.json"
              || text == "product-quotas.sqlite3"
  {
    FileOfIff(path, "sessions", ".kv");
    FileOfIff(path, "audit", ".jsonl");
    BelowIff(path, "sandboxes");
    OnlyPart(path, "product-schedules.json");
    OnlyPart(path, "product-quotas.sqlite3");
    assert "sandboxes" + "/" == "sandboxes/";
  }

  // Member names.

  /** A name that starts at the root is refused. */
  lemma AbsoluteIsRefused(rest: string)
    ensures SafeRelative("/" + rest) == None
  {
  }

  lemma {:induction false} SameBehind(open: string, a: string, x: string, y: string)
    requires PartsFrom("", x) == PartsFrom("", y)
    ensures PartsFrom(open, a + "/" + x) == PartsFrom(open, a + "/" + y)
    decreases |a|
  {
    if a == "" {
      assert ("" + "/" + x)[1..] == x && ("" + "/" + y)[1..] == y;
    } else {
      SameBehind(if a[0] == '/' then "" else open + [a[0]], a[1..], x, y);
      assert (a + "/" + x)[1..] == a[1..] + "/" + x && (a + "/" + y)[1..] == a[1..] + "/" + y;
    }
  }

  lemma SlackVanishes(slack: string, b: string)
    requires slack == "" || slack == "."
    ensures PartsFrom("", slack + "/" + b) == PartsFrom("", b)
  {
    ReadsPart("", slack, "/" + b);
    assert slack + ("/" + b) == slack + "/" + b && "" + slack == slack;
    assert ("/" + b)[1..] == b;
  }

  /** Doubled slashes and single dots inside a name make no difference. */
  lemma SlackIsIgnored(a: string, slack: string, b: string)
    requires a != "" && (slack == "" || slack == ".")
    ensures SafeRelative(a + "/" + (slack + "/" + b)) == SafeRelative(a + "/" + b)
  {
    SlackVanishes(slack, b);
    SameBehind("", a, slack + "/" + b, b);
    assert (a + "/" + (slack + "/" + b))[0] == a[0] && (a + "/" + b)[0] == a[0];
  }
}
