/** The particle-flux estimate: a loop over the distinct devices of the
    detection table that adds each device's sensor area, detection count and
    kept observation time to three running totals, and the quotient
    count / (area * time) of those totals. */
module ParticleFlux {
  import opened Detections
  import opened Sessions
  import opened Multisets

  datatype Option<T> = None | Some(value: T)

  /** The three accumulators: the detection count n, the summed sensor area
      in the devices' own units (before the 10^-10 scale), and the kept
      observation time in milliseconds. */
  datatype Totals = Totals(n: int, surface: int, timeMs: int)

  function Plus(a: Totals, b: Totals): Totals {
    Totals(a.n + b.n, a.surface + b.surface, a.timeMs + b.timeMs)
  }

  /** What one device adds: the area of its first row, and the count and
      kept time of its sorted timestamps. The loop only visits devices of
      the table; a device without rows adds nothing. */
  function DeviceTotals(rows: seq<Detection>, d: int): Totals {
    if HasDevice(rows, d) then
      var c := DeviceContribution(SortAsc(Stamps(rows, d)));
      Totals(c.count, FirstArea(rows, d), c.gapMs)
    else
      Totals(0, 0, 0)
  }

  /** A device adds at least one and at most its number of rows to n, and
      at most 300 seconds per kept gap to the time. */
  lemma DeviceTotalsBounds(rows: seq<Detection>, d: int)
    requires HasDevice(rows, d)
    ensures var t := DeviceTotals(rows, d);
      && 1 <= t.n <= |Stamps(rows, d)| == |DeviceRows(rows, d)|
      && 0 <= t.surface && 0 <= t.timeMs <= BreakThreshold * (t.n - 1)
  {
    SortAscCorrect(Stamps(rows, d));
    ContributionBounds(SortAsc(Stamps(rows, d)));
    StampsLength(rows, d);
  }

  /** A device with a single detection adds one to n and nothing to the
      time. */
  lemma SingleDetection(rows: seq<Detection>, d: int)
    requires |Stamps(rows, d)| == 1
    ensures DeviceTotals(rows, d).n == 1 && DeviceTotals(rows, d).timeMs == 0
  {
    SortAscCorrect(Stamps(rows, d));
  }

  /** The totals after visiting the devices ds in order. */
  function Accumulate(rows: seq<Detection>, ds: seq<int>): Totals
  {
    if ds == [] then Totals(0, 0, 0)
    else Plus(Accumulate(rows, ds[..|ds| - 1]), DeviceTotals(rows, ds[|ds| - 1]))
  }

  lemma AccumulateStep(rows: seq<Detection>, ds: seq<int>, k: int)
    requires 0 <= k < |ds|
    ensures Accumulate(rows, ds[..k + 1]) == Plus(Accumulate(rows, ds[..k]), DeviceTotals(rows, ds[k]))
  {
    assert ds[..k + 1][..k] == ds[..k];
  }

  /** The totals after visiting every distinct device of the table once. */
  function Aggregate(rows: seq<Detection>): Totals {
    Accumulate(rows, Devices(rows))
  }

  /** The accumulation loop: each distinct device, in order of first
      appearance, adds its first row's area to surface, its kept-gap count
      plus one to n, and its kept gaps to time. */
  method Accumulators(rows: seq<Detection>) returns (n: int, surface: int, time: int)
    ensures Totals(n, surface, time) == Aggregate(rows)
  {
    var devices := Devices(rows);
    n, surface, time := 0, 0, 0;
    for k := 0 to |devices|
      invariant Totals(n, surface, time) == Accumulate(rows, devices[..k])
    {
      var device := devices[k];
      assert device in devices;
      var size := FirstArea(rows, device);
      var c := DeviceContribution(SortAsc(Stamps(rows, device)));
      AccumulateStep(rows, devices, k);
      surface := surface + size;
      n := n + c.count;
      time := time + c.gapMs;
    }
    assert devices[..|devices|] == devices;
  }

  /** Unit scale from the devices' area unit to the flux's area unit. */
  const AreaScale: real := 0.0000000001

  /** count / (area * 10^-10 * seconds), defined only when the denominator is
      not zero. */
  function Flux(t: Totals): (r: Option<real>)
    ensures r.Some? <==> t.surface * t.timeMs != 0
    ensures r.Some? ==> r.value * ((t.surface as real) * AreaScale * ((t.timeMs as real) / 1000.0)) == t.n as real
  {
    if t.surface * t.timeMs == 0 then None
    else
      var denominator := (t.surface as real) * AreaScale * ((t.timeMs as real) / 1000.0);
      assert denominator != 0.0;
      Some((t.n as real) / denominator)
  }

  /** Number of rows whose device is one of ds. */
  function CountRows(rows: seq<Detection>, ds: seq<int>): nat {
    if rows == [] then 0
    else (if rows[0].device in ds then 1 else 0) + CountRows(rows[1..], ds)
  }

  lemma {:induction false} CountRowsExtend(rows: seq<Detection>, ds: seq<int>, e: int)
    requires e !in ds
    ensures CountRows(rows, ds + [e]) == CountRows(rows, ds) + |Stamps(rows, e)|
  {
    if rows != [] {
      CountRowsExtend(rows[1..], ds, e);
    }
  }

  lemma {:induction false} CountRowsAll(rows: seq<Detection>, ds: seq<int>)
    requires forall i :: 0 <= i < |rows| ==> rows[i].device in ds
    ensures CountRows(rows, ds) == |rows|
  {
    if rows != [] {
      assert forall i :: 0 < i < |rows| ==> rows[1..][i - 1] == rows[i];
      CountRowsAll(rows[1..], ds);
    }
  }

  /** Visiting distinct devices ds: each adds at least one to n and at most
      its number of rows, so n lies between |ds| and the number of rows of
      those devices; the kept time is at most the threshold per kept gap;
      the area is non-negative, and at least one per device when every row
      reports a positive area. */
  lemma {:induction false} AccumulateBounds(rows: seq<Detection>, ds: seq<int>)
    requires Distinct(ds)
    requires forall d :: d in ds ==> HasDevice(rows, d)
    ensures var t := Accumulate(rows, ds);
      && |ds| <= t.n <= CountRows(rows, ds)
      && 0 <= t.timeMs <= BreakThreshold * (t.n - |ds|)
      && 0 <= t.surface
      && ((forall i :: 0 <= i < |rows| ==> Area(rows[i]) > 0) ==> t.surface >= |ds|)
  {
    if ds != [] {
      var prefix, e := ds[..|ds| - 1], ds[|ds| - 1];
      assert ds == prefix + [e];
      AccumulateBounds(rows, prefix);
      DeviceTotalsBounds(rows, e);
      CountRowsExtend(rows, prefix, e);
      if forall i :: 0 <= i < |rows| ==> Area(rows[i]) > 0 {
        var i := FirstRow(rows, e);
        assert FirstArea(rows, e) == Area(rows[i]) > 0;
      }
    }
  }

  /** Totals over the whole table: n is at least the number of distinct
      devices and at most the number of rows, and the kept time is at most
      300 seconds for every count beyond one per device. */
  lemma AggregateBounds(rows: seq<Detection>)
    ensures var t := Aggregate(rows);
      && |Devices(rows)| <= t.n <= |rows|
      && 0 <= t.timeMs <= BreakThreshold * (t.n - |Devices(rows)|)
      && 0 <= t.surface
  {
    AccumulateBounds(rows, Devices(rows));
    assert forall i :: 0 <= i < |rows| ==> rows[i].device in Devices(rows) by {
      forall i | 0 <= i < |rows| ensures rows[i].device in Devices(rows) {
        assert HasDevice(rows, rows[i].device);
      }
    }
    CountRowsAll(rows, Devices(rows));
  }

  /** An empty table leaves all three accumulators at zero, and the
      estimate is undefined. */
  lemma EmptyTable(rows: seq<Detection>)
    requires rows == []
    ensures Aggregate(rows) == Totals(0, 0, 0)
    ensures Flux(Aggregate(rows)) == None
  {
  }

  /** When every device has exactly one detection, no time is accumulated,
      n is the number of rows, and the estimate is undefined. */
  lemma OneDetectionPerDevice(rows: seq<Detection>)
    requires |Devices(rows)| == |rows|
    ensures Aggregate(rows).n == |rows|
    ensures Aggregate(rows).timeMs == 0
    ensures Flux(Aggregate(rows)) == None
  {
    AggregateBounds(rows);
  }

  /** Taking device e out of the middle of the visiting order subtracts
      exactly its own contribution. */
  lemma {:induction false} AccumulateRemove(rows: seq<Detection>, a: seq<int>, e: int, b: seq<int>)
    ensures Accumulate(rows, a + [e] + b) == Plus(Accumulate(rows, a + b), DeviceTotals(rows, e))
  {
    if b == [] {
      assert a + [e] + b == a + [e] && (a + [e])[..|a|] == a && a + b == a;
    } else {
      var b', f := b[..|b| - 1], b[|b| - 1];
      assert (a + [e] + b)[..|a + [e] + b| - 1] == a + [e] + b';
      assert (a + b)[..|a + b| - 1] == a + b';
      AccumulateRemove(rows, a, e, b');
    }
  }

  /** In a sequence without repetitions every element occurs once. */
  lemma {:induction false} DistinctOccurrences(s: seq<int>, x: int)
    requires Distinct(s)
    ensures multiset(s)[x] == if x in s then 1 else 0
  {
    if s != [] {
      var prefix := s[..|s| - 1];
      assert s == prefix + [s[|s| - 1]];
      assert forall i :: 0 <= i < |prefix| ==> prefix[i] == s[i];
      DistinctOccurrences(prefix, x);
    }
  }

  /** Two sequences without repetitions that hold the same devices are
      permutations of each other. */
  lemma SameDevicesPermutation(ds: seq<int>, es: seq<int>)
    requires Distinct(ds) && Distinct(es)
    requires forall d :: d in ds <==> d in es
    ensures multiset(ds) == multiset(es)
  {
    forall x ensures multiset(ds)[x] == multiset(es)[x] {
      DistinctOccurrences(ds, x);
      DistinctOccurrences(es, x);
    }
  }

  /** Visiting the devices in any other order gives the same totals: they
      are plain sums. */
  lemma {:induction false} AccumulateReorder(rows: seq<Detection>, ds: seq<int>, es: seq<int>)
    requires multiset(ds) == multiset(es)
    ensures Accumulate(rows, ds) == Accumulate(rows, es)
  {
    if ds == [] {
      assert |es| == |multiset(es)| == 0;
    } else {
      var prefix, e := ds[..|ds| - 1], ds[|ds| - 1];
      assert ds == prefix + [e];
      assert multiset(prefix) == multiset(ds) - multiset{e};
      assert e in multiset(es);
      var a, b := SplitAround(es, e);
      AccumulateReorder(rows, prefix, a + b);
      AccumulateRemove(rows, a, e, b);
    }
  }

  /** Two tables in which each of the devices ds adds the same count and
      time give the same count and time totals over ds. */
  lemma {:induction false} AccumulatePointwise(rows: seq<Detection>, other: seq<Detection>, ds: seq<int>)
    requires forall d :: d in ds ==>
      DeviceTotals(rows, d).n == DeviceTotals(other, d).n && DeviceTotals(rows, d).timeMs == DeviceTotals(other, d).timeMs
    ensures Accumulate(rows, ds).n == Accumulate(other, ds).n
    ensures Accumulate(rows, ds).timeMs == Accumulate(other, ds).timeMs
  {
    if ds != [] {
      var prefix, e := ds[..|ds| - 1], ds[|ds| - 1];
      assert ds == prefix + [e];
      AccumulatePointwise(rows, other, prefix);
    }
  }

  /** Two tables in which each of the devices ds adds the same totals give
      the same totals over ds. */
  lemma {:induction false} AccumulateSame(rows: seq<Detection>, other: seq<Detection>, ds: seq<int>)
    requires forall d :: d in ds ==> DeviceTotals(rows, d) == DeviceTotals(other, d)
    ensures Accumulate(rows, ds) == Accumulate(other, ds)
  {
    if ds != [] {
      var prefix, e := ds[..|ds| - 1], ds[|ds| - 1];
      assert ds == prefix + [e];
      AccumulateSame(rows, other, prefix);
    }
  }

  /** Every device reports the same height and width on all of its rows. */
  predicate ConsistentGeometry(rows: seq<Detection>) {
    forall i, j :: 0 <= i < |rows| && 0 <= j < |rows| && rows[i].device == rows[j].device
      ==> rows[i].h == rows[j].h && rows[i].w == rows[j].w
  }

  /** Reordering the rows of the table changes neither the count nor the
      time total (timestamps are sorted per device and totals are plain
      sums), and when every device reports one geometry, not the area total
      either; only the choice of each device's first row depends on order. */
  lemma AggregateIgnoresRowOrder(rows: seq<Detection>, other: seq<Detection>)
    requires multiset(rows) == multiset(other)
    ensures Aggregate(rows).n == Aggregate(other).n
    ensures Aggregate(rows).timeMs == Aggregate(other).timeMs
    ensures ConsistentGeometry(rows) ==> Aggregate(rows) == Aggregate(other)
  {
    forall d ensures HasDevice(rows, d) <==> HasDevice(other, d) {
      if HasDevice(rows, d) {
        var i :| 0 <= i < |rows| && rows[i].device == d;
        assert rows[i] in multiset(other);
        var k :| 0 <= k < |other| && other[k] == rows[i];
      }
      if HasDevice(other, d) {
        var i :| 0 <= i < |other| && other[i].device == d;
        assert other[i] in multiset(rows);
        var k :| 0 <= k < |rows| && rows[k] == other[i];
      }
    }
    var ds, es := Devices(rows), Devices(other);
    forall d | d in ds
      ensures DeviceTotals(rows, d).n == DeviceTotals(other, d).n
      ensures DeviceTotals(rows, d).timeMs == DeviceTotals(other, d).timeMs
      ensures ConsistentGeometry(rows) ==> DeviceTotals(rows, d) == DeviceTotals(other, d)
    {
      StampsIgnoreRowOrder(rows, other, d);
      ContributionIgnoresOrder(Stamps(rows, d), Stamps(other, d));
      if ConsistentGeometry(rows) {
        var i, k := FirstRow(rows, d), FirstRow(other, d);
        assert other[k] in multiset(rows);
        var i' :| 0 <= i' < |rows| && rows[i'] == other[k];
        assert FirstArea(rows, d) == Area(rows[i]) == Area(rows[i']) == FirstArea(other, d);
      }
    }
    AccumulatePointwise(rows, other, ds);
    if ConsistentGeometry(rows) {
      AccumulateSame(rows, other, ds);
    }
    SameDevicesPermutation(ds, es);
    AccumulateReorder(other, ds, es);
  }

  /** One device, a 10 x 10 sensor, detections at 0, 10 and 20 seconds:
      the device adds 3 to n and 20 s to the time, and with area 100 the
      flux is 3 / (100 * 10^-10 * 20). */
  lemma ExampleOneSession()
    ensures DeviceContribution([0, 10000, 20000]) == Contribution(3, 20000)
    ensures Flux(Totals(3, 100, 20000)) == Some(15000000.0)
  {
    assert Gaps([0, 10000, 20000]) == [10000, 10000];
    assert Kept([10000, 10000]) == [10000, 10000];
  }

  /** A table of three rows of one 10 x 10 device, stamped 0, 10 and 20
      seconds and given out of order: the loop adds 3 to n, 100 to the area
      and 20 s to the time, and the flux is 3 / (100 * 10^-10 * 20). */
  lemma ExampleTable()
    ensures var rows := [Detection(7, 10, 10, 20000), Detection(7, 10, 10, 0), Detection(7, 10, 10, 10000)];
      && Aggregate(rows) == Totals(3, 100, 20000)
      && Flux(Aggregate(rows)) == Some(15000000.0)
  {
    var rows := [Detection(7, 10, 10, 20000), Detection(7, 10, 10, 0), Detection(7, 10, 10, 10000)];
    assert Devices(rows) == [7];
    assert Stamps(rows, 7) == [20000, 0, 10000];
    assert [20000, 0, 10000][..2] == [20000, 0] && [20000, 0][..1] == [20000];
    assert SortAsc([20000, 0]) == [0, 20000];
    assert Insert(10000, [0, 20000]) == [0, 10000, 20000] by {
      assert [0, 20000][1..] == [20000];
    }
    assert SortAsc([20000, 0, 10000]) == [0, 10000, 20000];
    assert FirstArea(rows, 7) == 100;
    ExampleOneSession();
  }

  /** One device with detections at 0, 400 and 410 seconds: the 400-second
      gap is a session break, so the device adds one kept gap plus one to n
      (two, not three) and 10 seconds to the time. */
  lemma ExampleSessionBreak()
    ensures DeviceContribution([0, 400000, 410000]) == Contribution(2, 10000)
  {
    assert Gaps([0, 400000, 410000]) == [400000, 10000];
    assert Kept([400000, 10000]) == [10000];
  }

  /** The particle-flux estimate of a detection table: the accumulation
      loop followed by the quotient; undefined (None) for an empty table and
      for a table in which no device has two detections. */
  method ParticleFlux(rows: seq<Detection>) returns (r: Option<real>)
    ensures r == Flux(Aggregate(rows))
    ensures rows == [] ==> r == None
    ensures |Devices(rows)| == |rows| ==> r == None
  {
    var n, surface, time := Accumulators(rows);
    r := Flux(Totals(n, surface, time));
    if |Devices(rows)| == |rows| {
      OneDetectionPerDevice(rows);
    }
  }
}
