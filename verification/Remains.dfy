/** What is left of a sequence from which some elements were taken out. */
module Remains {
  ghost predicate Rising(kept: seq<nat>) {
    forall a, b :: 0 <= a < b < |kept| ==> kept[a] < kept[b]
  }

  ghost predicate StoodAt<T>(rows: seq<T>, left: seq<T>, kept: seq<nat>, k: nat)
    requires |kept| == |left| && k < |kept|
  {
    kept[k] < |rows| && left[k] == rows[kept[k]]
  }

  ghost predicate StaysIff<T>(rows: seq<T>, kept: seq<nat>, i: nat, stays: T -> bool)
    requires i < |rows|
  {
    i in kept <==> stays(rows[i])
  }

  /** `left` is what stays of `rows`, in order and nothing else; `kept` says where each one stood. */
  ghost predicate LeftBehind<T>(rows: seq<T>, left: seq<T>, kept: seq<nat>, stays: T -> bool) {
    && |kept| == |left| && Rising(kept)
    && (forall k :: 0 <= k < |kept| ==> StoodAt(rows, left, kept, k))
    && (forall i :: 0 <= i < |rows| ==> StaysIff(rows, kept, i, stays))
  }

  /** The elements of `rows` that stay, in order, and nothing else. */
  ghost predicate Remain<T>(rows: seq<T>, left: seq<T>, stays: T -> bool) {
    exists kept :: LeftBehind(rows, left, kept, stays)
  }

  /** The same places one row further on, behind the place of that row if it stays. */
  function Shifted(kept: seq<nat>, first: bool): seq<nat> {
    if kept == [] then if first then [0] else []
    else Shifted(kept[..|kept| - 1], first) + [kept[|kept| - 1] + 1]
  }

  lemma {:induction false} ShiftedAre(kept: seq<nat>, first: bool)
    ensures var d := if first then 1 else 0;
            && |Shifted(kept, first)| == |kept| + d
            && (first ==> Shifted(kept, first)[0] == 0)
            && forall k :: 0 <= k < |kept| ==> Shifted(kept, first)[k + d] == kept[k] + 1
  {
    if kept != [] {
      ShiftedAre(kept[..|kept| - 1], first);
    }
  }

  lemma ShiftedIn(kept: seq<nat>, first: bool, i: nat)
    ensures i in Shifted(kept, first) <==> if i == 0 then first else i - 1 in kept
  {
    ShiftedAre(kept, first);
    var s := Shifted(kept, first);
    var d := if first then 1 else 0;
    if k :| 0 <= k < |kept| && kept[k] == i - 1 {
      assert s[k + d] == i;
    }
    if k :| 0 <= k < |s| && s[k] == i {
      if k >= d {
        assert s[k - d + d] == kept[k - d] + 1;
      }
    }
  }

  lemma ShiftedRises(kept: seq<nat>, first: bool)
    requires Rising(kept)
    ensures Rising(Shifted(kept, first))
  {
    ShiftedAre(kept, first);
    var s := Shifted(kept, first);
    var d := if first then 1 else 0;
    forall a, b | 0 <= a < b < |s|
      ensures s[a] < s[b]
    {
      assert s[b - d + d] == kept[b - d] + 1;
      if a >= d {
        assert s[a - d + d] == kept[a - d] + 1;
      }
    }
  }

  lemma LeftBehindCons<T>(row: T, rest: seq<T>, left: seq<T>, kept: seq<nat>, stays: T -> bool)
    requires LeftBehind(rest, left, kept, stays)
    ensures LeftBehind([row] + rest, if stays(row) then [row] + left else left, Shifted(kept, stays(row)), stays)
  {
    var rows, more, s := [row] + rest, if stays(row) then [row] + left else left, Shifted(kept, stays(row));
    var d := if stays(row) then 1 else 0;
    ShiftedAre(kept, stays(row));
    ShiftedRises(kept, stays(row));
    forall k | 0 <= k < |s|
      ensures StoodAt(rows, more, s, k)
    {
      if k >= d {
        assert StoodAt(rest, left, kept, k - d);
        assert s[k - d + d] == kept[k - d] + 1;
      }
    }
    forall i | 0 <= i < |rows|
      ensures StaysIff(rows, s, i, stays)
    {
      ShiftedIn(kept, stays(row), i);
      if i > 0 {
        assert StaysIff(rest, kept, i - 1, stays);
      }
    }
  }

  lemma RemainCons<T>(row: T, rest: seq<T>, left: seq<T>, stays: T -> bool)
    requires Remain(rest, left, stays)
    ensures Remain([row] + rest, if stays(row) then [row] + left else left, stays)
  {
    var kept :| LeftBehind(rest, left, kept, stays);
    LeftBehindCons(row, rest, left, kept, stays);
  }

  lemma NothingRemains<T>(stays: T -> bool)
    ensures Remain([], [], stays)
  {
    assert LeftBehind<T>([], [], [], stays);
  }
}
