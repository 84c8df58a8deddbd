/** Bucketed latency percentiles: scripts/load_test.py, MillisecondHistogram. */
module Histogram {

  // Rounding.

  /** Python's round: to the nearest integer, ties to the even one. */
  function Round(x: real): int {
    var low := x.Floor;
    var part := x - low as real;
    if part < 0.5 then low
    else if part > 0.5 then low + 1
    else if low % 2 == 0 then low else low + 1
  }

  function Milliseconds(x: real): nat {
    if Round(x) < 0 then 0 else Round(x)
  }

  /** A recorded value is within half a millisecond of any non-negative measurement, and rounding
      never reorders two measurements. */
  lemma RoundingIsFaithful(x: real, y: real)
    ensures x >= 0.0 ==> -0.5 <= Milliseconds(x) as real - x <= 0.5
    ensures x <= y ==> Milliseconds(x) <= Milliseconds(y)
  {
    if x <= y {
      assert x.Floor <= y.Floor;
    }
  }

  /** Half a millisecond between two goes to the even one. */
  lemma TiesGoToEven(x: real)
    ensures -0.5 <= Round(x) as real - x <= 0.5
    ensures x - x.Floor as real == 0.5 ==> Round(x) % 2 == 0
  {
  }

  // The simple form: sort all samples, take one.

  function Insert(s: seq<nat>, x: nat): seq<nat> {
    if s == [] || x <= s[0] then [x] + s else [s[0]] + Insert(s[1..], x)
  }

  function Sorted(s: seq<nat>): seq<nat> {
    if s == [] then [] else Insert(Sorted(s[..|s| - 1]), s[|s| - 1])
  }

  predicate Ascending(s: seq<nat>) {
    forall i, j :: 0 <= i <= j < |s| ==> s[i] <= s[j]
  }

  /** How many samples lie in a set of values. */
  function Tally(s: seq<nat>, values: set<nat>): nat {
    if s == [] then 0 else Tally(s[..|s| - 1], values) + (if s[|s| - 1] in values then 1 else 0)
  }

  function Below(s: seq<nat>, v: nat): nat {
    if s == [] then 0 else Below(s[..|s| - 1], v) + (if s[|s| - 1] < v then 1 else 0)
  }

  lemma {:induction false} BelowFront(s: seq<nat>, v: nat)
    requires s != []
    ensures Below(s, v) == (if s[0] < v then 1 else 0) + Below(s[1..], v)
    decreases |s|
  {
    if |s| > 1 {
      BelowFront(s[..|s| - 1], v);
      assert s[..|s| - 1][1..] == s[1..][..|s| - 2];
    } else {
      assert s[..0] == [] && s[1..] == [];
    }
  }

  lemma {:induction false} InsertKeepsCounts(s: seq<nat>, x: nat, v: nat)
    ensures Below(Insert(s, x), v) == Below(s, v) + (if x < v then 1 else 0)
    ensures |Insert(s, x)| == |s| + 1
    decreases |s|
  {
    var r := Insert(s, x);
    BelowFront(r, v);
    if s == [] || x <= s[0] {
      assert r[1..] == s;
    } else {
      InsertKeepsCounts(s[1..], x, v);
      assert r[1..] == Insert(s[1..], x);
      BelowFront(s, v);
    }
  }

  lemma {:induction false} InsertAscends(s: seq<nat>, x: nat)
    requires Ascending(s)
    ensures Ascending(Insert(s, x))
    ensures forall y :: y in Insert(s, x) ==> y == x || y in s
    decreases |s|
  {
    if s != [] && x > s[0] {
      InsertAscends(s[1..], x);
      Prefixed(s[0], Insert(s[1..], x));
    }
  }

  lemma Prefixed(x: nat, s: seq<nat>)
    requires Ascending(s) && forall y :: y in s ==> x <= y
    ensures Ascending([x] + s)
  {
    var r := [x] + s;
    forall i, j | 0 <= i <= j < |r|
      ensures r[i] <= r[j]
    {
      if i > 0 {
        assert r[i] == s[i - 1] && r[j] == s[j - 1];
      } else if j > 0 {
        assert r[j] == s[j - 1] && s[j - 1] in s;
      }
    }
  }

  lemma {:induction false} SortedFacts(s: seq<nat>, v: nat)
    ensures Ascending(Sorted(s)) && |Sorted(s)| == |s| && Below(Sorted(s), v) == Below(s, v)
    decreases |s|
  {
    if s != [] {
      var front := s[..|s| - 1];
      SortedFacts(front, v);
      InsertAscends(Sorted(front), s[|s| - 1]);
      InsertKeepsCounts(Sorted(front), s[|s| - 1], v);
    }
  }

  lemma {:induction false} SplitAt(s: seq<nat>, v: nat, i: nat)
    requires Ascending(s) && i < |s|
    ensures s[i] < v <==> i < Below(s, v)
    ensures Below(s, v) <= |s|
    decreases |s|
  {
    var n := |s| - 1;
    var front := s[..n];
    assert s[i] <= s[n];
    if n > 0 {
      SplitAt(front, v, if i < n then i else n - 1);
    }
  }

  /** The element of a given rank is the one whose block of equals covers it. */
  lemma ElementAt(s: seq<nat>, rank: nat, v: nat)
    requires Below(s, v) < rank <= Below(s, v + 1) && rank <= |s|
    ensures |Sorted(s)| == |s| && Sorted(s)[rank - 1] == v
  {
    SortedFacts(s, v);
    SortedFacts(s, v + 1);
    SplitAt(Sorted(s), v, rank - 1);
    SplitAt(Sorted(s), v + 1, rank - 1);
  }

  // The rank.

  function Ceil(x: real): int {
    -((-x).Floor)
  }

  lemma CeilReaches(k: int, x: real)
    ensures k >= Ceil(x) <==> k as real >= x
  {
  }

  /** p percent of the samples. */
  function Share(count: nat, p: real): real {
    count as real * p / 100.0
  }

  function Rank(count: nat, p: real): int {
    var up := Ceil(Share(count, p));
    if up < 1 then 1 else up
  }

  lemma ShareIsPart(count: nat, p: real)
    requires count > 0
    ensures Share(count, p) <= count as real <==> p <= 100.0
    ensures Share(count, p) > 0.0 <==> p > 0.0
  {
    var n := count as real;
    if p <= 100.0 {
      assert n * p <= n * 100.0;
    } else {
      assert n * p > n * 100.0;
    }
    if p > 0.0 {
      assert n * p > 0.0;
    } else {
      assert n * p <= 0.0;
    }
  }

  lemma RankWithinIff(count: nat, p: real)
    requires count > 0
    ensures 1 <= Rank(count, p)
    ensures Rank(count, p) <= count <==> p <= 100.0
  {
    ShareIsPart(count, p);
    CeilReaches(count, Share(count, p));
  }

  lemma ShareMonotone(count: nat, p: real, q: real)
    requires p <= q
    ensures Share(count, p) <= Share(count, q)
  {
    assert count as real * p <= count as real * q;
  }

  lemma CeilMonotone(x: real, y: real)
    requires x <= y
    ensures Ceil(x) <= Ceil(y)
  {
    CeilReaches(Ceil(y), y);
    CeilReaches(Ceil(y), x);
  }

  lemma RankMonotone(count: nat, p: real, q: real)
    requires p <= q
    ensures Rank(count, p) <= Rank(count, q)
  {
    ShareMonotone(count, p, q);
    CeilMonotone(Share(count, p), Share(count, q));
  }

  // The histogram.

  datatype Answer = NoSamples | Value(value: nat) | RankNotFound

  /** The element of this rank among all samples, in order. */
  function AtRank(samples: seq<nat>, rank: int): Answer
    requires rank >= 1
  {
    SortedFacts(samples, 0);
    if rank <= |samples| then Value(Sorted(samples)[rank - 1]) else RankNotFound
  }

  function Percentile(samples: seq<nat>, p: real): Answer {
    if samples == [] then NoSamples
    else
      RankWithinIff(|samples|, p);
      AtRank(samples, Rank(|samples|, p))
  }

  /** The assertion at the end of percentile fires exactly for a percentile above 100. */
  lemma AssertionReachedIff(samples: seq<nat>, p: real)
    requires samples != []
    ensures Percentile(samples, p) == RankNotFound <==> p > 100.0
  {
    RankWithinIff(|samples|, p);
  }

  lemma PercentileMonotone(samples: seq<nat>, p: real, q: real)
    requires samples != [] && p <= q <= 100.0
    ensures Percentile(samples, p).Value? && Percentile(samples, q).Value?
    ensures Percentile(samples, p).value <= Percentile(samples, q).value
  {
    RankWithinIff(|samples|, p);
    RankWithinIff(|samples|, q);
    RankMonotone(|samples|, p, q);
    SortedFacts(samples, 0);
  }

  /** At least this share of the samples does not exceed v. */
  predicate Covers(samples: seq<nat>, v: nat, share: real) {
    Below(samples, v + 1) as real >= share
  }

  lemma LeastCovering(samples: seq<nat>, rank: nat, share: real, w: nat)
    requires 1 <= rank <= |samples| && rank == Ceil(share)
    ensures |Sorted(samples)| == |samples|
    ensures Covers(samples, w, share) <==> Sorted(samples)[rank - 1] <= w
  {
    SortedFacts(samples, w + 1);
    SplitAt(Sorted(samples), w + 1, rank - 1);
    CeilReaches(Below(samples, w + 1), share);
  }

  lemma PercentileElement(samples: seq<nat>, p: real)
    requires samples != [] && 0.0 < p <= 100.0
    ensures 1 <= Rank(|samples|, p) <= |samples| && Rank(|samples|, p) == Ceil(Share(|samples|, p))
    ensures |Sorted(samples)| == |samples|
    ensures Percentile(samples, p) == Value(Sorted(samples)[Rank(|samples|, p) - 1])
  {
    RankWithinIff(|samples|, p);
    ShareIsPart(|samples|, p);
    CeilReaches(0, Share(|samples|, p));
    SortedFacts(samples, 0);
  }

  /** Nearest rank: the answer is the least value that p percent of the samples do not exceed. */
  lemma PercentileIsLeastCovering(samples: seq<nat>, p: real, w: nat)
    requires samples != [] && 0.0 < p <= 100.0
    ensures Percentile(samples, p).Value?
    ensures Covers(samples, w, Share(|samples|, p)) <==> Percentile(samples, p).value <= w
  {
    PercentileElement(samples, p);
    LeastCovering(samples, Rank(|samples|, p), Share(|samples|, p), w);
  }

  lemma {:induction false} LeastOf(s: set<nat>) returns (least: nat)
    requires s != {}
    ensures least in s && forall x :: x in s ==> least <= x
    decreases s
  {
    least :| least in s;
    if s != {least} {
      var other := LeastOf(s - {least});
      forall x | x in s
        ensures (if other < least then other else least) <= x
      {
        if x != least {
          assert x in s - {least};
        }
      }
      least := if other < least then other else least;
    }
  }

  lemma {:induction false} TallyIsBelow(s: seq<nat>, values: set<nat>, v: nat)
    requires forall x :: x in s ==> (x in values <==> x < v)
    ensures Tally(s, values) == Below(s, v)
    decreases |s|
  {
    if s != [] {
      TallyIsBelow(s[..|s| - 1], values, v);
    }
  }

  lemma {:induction false} TallyAdds(s: seq<nat>, values: set<nat>, v: nat)
    requires v !in values
    ensures Tally(s, values + {v}) == Tally(s, values) + Tally(s, {v})
    decreases |s|
  {
    if s != [] {
      TallyAdds(s[..|s| - 1], values, v);
    }
  }

  lemma {:induction false} TallyAll(s: seq<nat>, values: set<nat>)
    requires forall x :: x in s ==> x in values
    ensures Tally(s, values) == |s|
    decreases |s|
  {
    if s != [] {
      TallyAll(s[..|s| - 1], values);
    }
  }

  class MillisecondHistogram {
    var buckets: map<nat, nat>
    var count: nat
    ghost var samples: seq<nat>

    ghost predicate Valid()
      reads this
    {
      && count == |samples|
      && (forall x :: x in samples ==> x in buckets)
      && (forall v :: v in buckets ==> buckets[v] == Tally(samples, {v}))
    }

    constructor ()
      ensures Valid() && samples == []
    {
      buckets := map[];
      count := 0;
      samples := [];
    }

    method Add(milliseconds: real)
      requires Valid()
      modifies this
      ensures Valid() && samples == old(samples) + [Milliseconds(milliseconds)]
    {
      var value := Milliseconds(milliseconds);
      ghost var before := samples;
      if value !in buckets {
        NoneAt(samples, value);
      }
      buckets := buckets[value := (if value in buckets then buckets[value] else 0) + 1];
      count := count + 1;
      samples := samples + [value];
      assert samples[..|before|] == before;
    }

    /** The walk over the buckets in ascending order. */
    method Walk(rank: int) returns (answer: Answer)
      requires Valid() && rank >= 1
      ensures answer == AtRank(samples, rank)
    {
      var seen := 0;
      var left := buckets.Keys;
      StartOfWalk(samples, left);
      while left != {}
        invariant Walked(samples, buckets.Keys, left, seen) && seen < rank
        decreases |left|
      {
        ghost var least := LeastOf(left);
        var value :| value in left && forall v :: v in left ==> value <= v;
        BucketCovers(samples, buckets.Keys, left, value, seen);
        left := left - {value};
        seen := seen + buckets[value];
        if seen >= rank {
          ElementAt(samples, rank, value);
          return Value(value);
        }
      }
      EndOfWalk(samples, buckets.Keys, seen);
      return RankNotFound;
    }

    method GetPercentile(p: real) returns (answer: Answer)
      requires Valid()
      ensures answer == Percentile(samples, p)
    {
      if count == 0 {
        return NoSamples;
      }
      var rank := Rank(count, p);
      RankWithinIff(count, p);
      answer := Walk(rank);
    }
  }

  /** Every bucket visited is below every bucket left, and its samples are seen. */
  predicate Walked(s: seq<nat>, keys: set<nat>, left: set<nat>, seen: int) {
    && left <= keys
    && (forall u, v :: u in keys - left && v in left ==> u < v)
    && seen == Tally(s, keys - left)
  }

  lemma StartOfWalk(s: seq<nat>, keys: set<nat>)
    ensures Walked(s, keys, keys, 0)
  {
    assert keys - keys == {};
    TallyNone(s);
  }

  lemma EndOfWalk(s: seq<nat>, keys: set<nat>, seen: int)
    requires Walked(s, keys, {}, seen) && forall x :: x in s ==> x in keys
    ensures seen == |s|
  {
    assert keys - {} == keys;
    TallyAll(s, keys);
  }

  /** Reaching the least unvisited bucket, the samples already seen are those below it. */
  lemma BucketCovers(s: seq<nat>, keys: set<nat>, left: set<nat>, value: nat, seen: int)
    requires Walked(s, keys, left, seen) && value in left && forall v :: v in left ==> value <= v
    requires forall x :: x in s ==> x in keys
    ensures Walked(s, keys, left - {value}, seen + Tally(s, {value}))
    ensures seen == Below(s, value) && seen + Tally(s, {value}) == Below(s, value + 1) <= |s|
  {
    var visited := keys - left;
    assert keys - (left - {value}) == visited + {value};
    TallyIsBelow(s, visited, value);
    TallyAdds(s, visited, value);
    TallyIsBelow(s, visited + {value}, value + 1);
    AtMostAll(s, visited + {value});
  }

  lemma {:induction false} NoneAt(s: seq<nat>, v: nat)
    requires v !in s
    ensures Tally(s, {v}) == 0
    decreases |s|
  {
    if s != [] {
      NoneAt(s[..|s| - 1], v);
    }
  }

  lemma {:induction false} TallyNone(s: seq<nat>)
    ensures Tally(s, {}) == 0
    decreases |s|
  {
    if s != [] {
      TallyNone(s[..|s| - 1]);
    }
  }

  lemma {:induction false} AtMostAll(s: seq<nat>, values: set<nat>)
    ensures Tally(s, values) <= |s|
    decreases |s|
  {
    if s != [] {
      AtMostAll(s[..|s| - 1], values);
    }
  }
}
