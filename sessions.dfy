/** One device's detection session: its timestamps sorted ascending, the gaps
    between consecutive detections, the session-break filter, and what the
    device adds to the detection count and to the observation time.

    Timestamps are whole milliseconds (the detection export carries epoch
    milliseconds), so a gap of at most 300 seconds is a gap of at most
    300000 milliseconds. */
module Sessions {
  import opened Multisets

  /** Longest gap, in milliseconds, still counted as continuous observation. */
  const BreakThreshold: int := 300000

  predicate Sorted(s: seq<int>) {
    forall i, j :: 0 <= i < j < |s| ==> s[i] <= s[j]
  }

  /** Inserts x before the first element not smaller than it. */
  function Insert(x: int, s: seq<int>): seq<int> {
    if s == [] then [x]
    else if x <= s[0] then [x] + s
    else [s[0]] + Insert(x, s[1..])
  }

  /** Every element of s is at least m. */
  predicate AtLeast(m: int, s: seq<int>) {
    forall i :: 0 <= i < |s| ==> m <= s[i]
  }

  /** Insertion adds exactly x to the timestamps held. */
  lemma {:induction false} InsertMultiset(x: int, s: seq<int>)
    ensures multiset(Insert(x, s)) == multiset(s) + multiset{x}
  {
    if s != [] && x > s[0] {
      InsertMultiset(x, s[1..]);
      assert s == [s[0]] + s[1..];
    }
  }

  /** A lower bound of x and of s is a lower bound of the insertion. */
  lemma {:induction false} InsertAtLeast(m: int, x: int, s: seq<int>)
    requires m <= x && AtLeast(m, s)
    ensures AtLeast(m, Insert(x, s))
  {
    if s != [] && x > s[0] {
      InsertAtLeast(m, x, s[1..]);
    }
  }

  /** Inserting into a sorted sequence keeps it sorted. */
  lemma {:induction false} InsertSorted(x: int, s: seq<int>)
    requires Sorted(s)
    ensures Sorted(Insert(x, s))
  {
    if s != [] && x > s[0] {
      InsertSorted(x, s[1..]);
      InsertAtLeast(s[0], x, s[1..]);
    }
  }

  /** The ascending sort applied to a device's timestamps (insertion sort). */
  function SortAsc(s: seq<int>): seq<int> {
    if s == [] then []
    else Insert(s[|s| - 1], SortAsc(s[..|s| - 1]))
  }

  /** The sort returns the same timestamps in ascending order. */
  lemma {:induction false} SortAscCorrect(s: seq<int>)
    ensures Sorted(SortAsc(s))
    ensures multiset(SortAsc(s)) == multiset(s)
    ensures |SortAsc(s)| == |s|
  {
    if s != [] {
      SortAscCorrect(s[..|s| - 1]);
      InsertSorted(s[|s| - 1], SortAsc(s[..|s| - 1]));
      InsertMultiset(s[|s| - 1], SortAsc(s[..|s| - 1]));
      assert s == s[..|s| - 1] + [s[|s| - 1]];
    }
    assert |SortAsc(s)| == |multiset(SortAsc(s))| == |multiset(s)| == |s|;
  }

  /** Two sorted sequences holding the same timestamps are the same sequence. */
  lemma {:induction false} SortedUnique(a: seq<int>, b: seq<int>)
    requires Sorted(a) && Sorted(b)
    requires multiset(a) == multiset(b)
    ensures a == b
  {
    if a != [] {
      SameFirst(a, b);
      TailMultiset(a);
      TailMultiset(b);
      SortedUnique(a[1..], b[1..]);
      assert a == [a[0]] + a[1..] && b == [b[0]] + b[1..];
    } else {
      assert |b| == |multiset(b)| == 0;
    }
  }

  /** Two sorted sequences holding the same timestamps start with the same
      (smallest) one. */
  lemma SameFirst(a: seq<int>, b: seq<int>)
    requires Sorted(a) && Sorted(b)
    requires multiset(a) == multiset(b)
    requires a != []
    ensures b != [] && a[0] == b[0]
  {
    assert a[0] in multiset(b);
    var j :| 0 <= j < |b| && b[j] == a[0];
    assert b[0] in multiset(a);
    var i :| 0 <= i < |a| && a[i] == b[0];
  }

  /** Consecutive differences of a sequence: gap i lies between detections
      i and i + 1. */
  function Gaps(s: seq<int>): (r: seq<int>)
    ensures |r| == if |s| == 0 then 0 else |s| - 1
    ensures forall i :: 0 <= i < |r| ==> r[i] == s[i + 1] - s[i]
  {
    if |s| < 2 then [] else [s[1] - s[0]] + Gaps(s[1..])
  }

  /** Gaps that are not session breaks. */
  function Kept(g: seq<int>): (r: seq<int>)
    ensures |r| <= |g|
    ensures forall x :: x in r <==> x in g && x <= BreakThreshold
    ensures |r| + Breaks(g) == |g|
  {
    if g == [] then []
    else if g[0] <= BreakThreshold then [g[0]] + Kept(g[1..])
    else Kept(g[1..])
  }

  /** Each gap of at most the threshold is kept as often as it occurs, and
      no longer gap is kept at all. */
  lemma {:induction false} KeptMultiset(g: seq<int>)
    ensures forall x :: multiset(Kept(g))[x] == if x <= BreakThreshold then multiset(g)[x] else 0
  {
    if g != [] {
      KeptMultiset(g[1..]);
      assert g == [g[0]] + g[1..];
    }
  }

  /** Number of gaps longer than the threshold: the session breaks. */
  function Breaks(g: seq<int>): nat {
    if g == [] then 0
    else (if g[0] > BreakThreshold then 1 else 0) + Breaks(g[1..])
  }

  function Sum(s: seq<int>): int {
    if s == [] then 0 else s[0] + Sum(s[1..])
  }

  /** A sum of values in [0, BreakThreshold] lies in [0, BreakThreshold * count]. */
  lemma {:induction false} SumBounds(s: seq<int>)
    requires forall i :: 0 <= i < |s| ==> 0 <= s[i] <= BreakThreshold
    ensures 0 <= Sum(s) <= BreakThreshold * |s|
  {
    if s != [] {
      SumBounds(s[1..]);
    }
  }

  /** What one device adds to the running totals. */
  datatype Contribution = Contribution(count: int, gapMs: int)

  /** The per-device step applied to that device's sorted timestamps: the
      number of kept gaps plus one, and the sum of the kept gaps. */
  function DeviceContribution(sorted: seq<int>): (c: Contribution)
    ensures 1 <= c.count <= if |sorted| == 0 then 1 else |sorted|
    ensures |sorted| <= 1 ==> c == Contribution(1, 0)
  {
    var kept := Kept(Gaps(sorted));
    Contribution(|kept| + 1, Sum(kept))
  }

  /** A device with k timestamps has k - 1 gaps once they are sorted, and
      none of them is negative. */
  lemma SortedGaps(s: seq<int>)
    ensures |Gaps(SortAsc(s))| == if |s| == 0 then 0 else |s| - 1
    ensures forall i :: 0 <= i < |Gaps(SortAsc(s))| ==> Gaps(SortAsc(s))[i] >= 0
  {
    SortAscCorrect(s);
    var sorted := SortAsc(s);
    forall i | 0 <= i < |Gaps(sorted)| ensures Gaps(sorted)[i] >= 0 {
      assert sorted[i] <= sorted[i + 1];
    }
  }

  /** For a device with at least one detection: the count is the detection
      count minus the number of session breaks, so it is at least 1 and at
      most the detection count, and equals it exactly when no gap is a
      break; the kept time is non-negative and at most the threshold times
      the number of kept gaps. */
  lemma {:induction false} ContributionBounds(sorted: seq<int>)
    requires Sorted(sorted)
    requires |sorted| >= 1
    ensures var c := DeviceContribution(sorted);
      && c.count == |sorted| - Breaks(Gaps(sorted))
      && 1 <= c.count <= |sorted|
      && (c.count == |sorted| <==> Breaks(Gaps(sorted)) == 0)
      && 0 <= c.gapMs <= BreakThreshold * (c.count - 1)
  {
    var g := Gaps(sorted);
    var kept := Kept(g);
    forall i | 0 <= i < |kept|
      ensures 0 <= kept[i] <= BreakThreshold
    {
      assert kept[i] in kept;
      var j :| 0 <= j < |g| && g[j] == kept[i];
      assert sorted[j] <= sorted[j + 1];
    }
    SumBounds(kept);
  }

  /** The contribution depends only on the multiset of timestamps, not on
      the order in which the rows arrive, because they are sorted first. */
  lemma ContributionIgnoresOrder(a: seq<int>, b: seq<int>)
    requires multiset(a) == multiset(b)
    ensures SortAsc(a) == SortAsc(b)
    ensures DeviceContribution(SortAsc(a)) == DeviceContribution(SortAsc(b))
  {
    SortAscCorrect(a);
    SortAscCorrect(b);
    SortedUnique(SortAsc(a), SortAsc(b));
  }
}
