/** The detection table and the per-device views of it that the flux
    estimate reads: the distinct devices in order of first appearance, a
    device's first row, and a device's timestamps. */
module Detections {
  import opened Multisets

  /** One recorded particle hit: the device that saw it, the sensor's height
      and width as the device reports them, and the time in epoch
      milliseconds. */
  datatype Detection = Detection(device: int, h: nat, w: nat, ts: int)

  predicate HasDevice(rows: seq<Detection>, d: int) {
    exists i :: 0 <= i < |rows| && rows[i].device == d
  }

  predicate Distinct(s: seq<int>) {
    forall i, j :: 0 <= i < j < |s| ==> s[i] != s[j]
  }

  /** The distinct device identifiers of the table, in order of first
      appearance (what the table's unique() gives). */
  function Devices(rows: seq<Detection>): (ds: seq<int>)
    ensures Distinct(ds)
    ensures forall d :: d in ds <==> HasDevice(rows, d)
    ensures |ds| <= |rows|
  {
    if rows == [] then []
    else
      var prefix := rows[..|rows| - 1];
      var last := rows[|rows| - 1];
      var prev := Devices(prefix);
      assert forall i :: 0 <= i < |prefix| ==> prefix[i] == rows[i];
      assert forall d :: HasDevice(rows, d) <==> HasDevice(prefix, d) || d == last.device by {
        forall d | HasDevice(rows, d) && d != last.device
          ensures HasDevice(prefix, d)
        {
          var i :| 0 <= i < |rows| && rows[i].device == d;
          assert i < |prefix|;
        }
      }
      if last.device in prev then prev else prev + [last.device]
  }

  /** Row i is the first row of device d in table order. */
  predicate IsFirstRow(rows: seq<Detection>, d: int, i: int) {
    0 <= i < |rows| && rows[i].device == d && forall j :: 0 <= j < i ==> rows[j].device != d
  }

  /** Index of the first row of device d. */
  function FirstRow(rows: seq<Detection>, d: int): (i: nat)
    requires HasDevice(rows, d)
    ensures IsFirstRow(rows, d, i)
  {
    if rows[0].device == d then 0
    else
      assert HasDevice(rows[1..], d) by {
        var k :| 0 <= k < |rows| && rows[k].device == d;
        assert rows[1..][k - 1].device == d;
      }
      1 + FirstRow(rows[1..], d)
  }

  /** A device has exactly one first row. */
  lemma FirstRowUnique(rows: seq<Detection>, d: int, i: int, k: int)
    requires IsFirstRow(rows, d, i) && IsFirstRow(rows, d, k)
    ensures i == k
  {
  }

  /** The distinct devices come in the order of their first rows. */
  lemma {:induction false} DevicesInTableOrder(rows: seq<Detection>)
    ensures forall i, j :: 0 <= i < j < |Devices(rows)| ==>
              FirstRow(rows, Devices(rows)[i]) < FirstRow(rows, Devices(rows)[j])
  {
    if rows != [] {
      var prefix, last := rows[..|rows| - 1], rows[|rows| - 1];
      DevicesInTableOrder(prefix);
      var prev, ds := Devices(prefix), Devices(rows);
      forall d | d in prev ensures FirstRow(rows, d) == FirstRow(prefix, d) < |prefix| {
        var i := FirstRow(prefix, d);
        assert IsFirstRow(rows, d, i);
        FirstRowUnique(rows, d, i, FirstRow(rows, d));
      }
      if last.device !in prev {
        assert IsFirstRow(rows, last.device, |prefix|) by {
          forall j | 0 <= j < |prefix| ensures rows[j].device != last.device {
            assert prefix[j] == rows[j];
          }
        }
        FirstRowUnique(rows, last.device, |prefix|, FirstRow(rows, last.device));
        assert ds == prev + [last.device];
      }
      forall i, j | 0 <= i < j < |ds| ensures FirstRow(rows, ds[i]) < FirstRow(rows, ds[j]) {
        assert ds[i] == prev[i] && prev[i] in prev;
        if j < |prev| {
          assert ds[j] == prev[j] && prev[j] in prev;
          assert FirstRow(prefix, prev[i]) < FirstRow(prefix, prev[j]);
        }
      }
    }
  }

  /** Sensor area reported by one row. */
  function Area(r: Detection): nat {
    r.h * r.w
  }

  /** Sensor area of device d, height times width, taken from its first row
      in table order (the 10^-10 unit scale is applied by the caller). */
  function FirstArea(rows: seq<Detection>, d: int): (a: nat)
    requires HasDevice(rows, d)
    ensures forall i :: IsFirstRow(rows, d, i) ==> a == Area(rows[i])
  {
    var i := FirstRow(rows, d);
    assert forall k :: IsFirstRow(rows, d, k) ==> k == i by {
      forall k | IsFirstRow(rows, d, k) ensures k == i {
        FirstRowUnique(rows, d, i, k);
      }
    }
    Area(rows[i])
  }

  predicate HasStamp(rows: seq<Detection>, d: int, t: int) {
    exists i :: 0 <= i < |rows| && rows[i].device == d && rows[i].ts == t
  }

  /** Timestamps of the rows of device d, in table order. */
  function Stamps(rows: seq<Detection>, d: int): (s: seq<int>)
    ensures |s| <= |rows|
    ensures |s| > 0 <==> HasDevice(rows, d)
  {
    if rows == [] then []
    else
      var rest := Stamps(rows[1..], d);
      assert HasDevice(rows, d) <==> rows[0].device == d || HasDevice(rows[1..], d) by {
        if HasDevice(rows, d) && rows[0].device != d {
          var i :| 0 <= i < |rows| && rows[i].device == d;
          assert rows[1..][i - 1].device == d;
        }
        if HasDevice(rows[1..], d) {
          var i :| 0 <= i < |rows[1..]| && rows[1..][i].device == d;
          assert rows[i + 1].device == d;
        }
      }
      if rows[0].device == d then [rows[0].ts] + rest else rest
  }

  /** The timestamps of device d are exactly those of its rows. */
  lemma {:induction false} StampsMembers(rows: seq<Detection>, d: int)
    ensures forall t :: t in Stamps(rows, d) <==> HasStamp(rows, d, t)
  {
    if rows != [] {
      StampsMembers(rows[1..], d);
      forall t | HasStamp(rows, d, t) && !(rows[0].device == d && rows[0].ts == t)
        ensures HasStamp(rows[1..], d, t)
      {
        var i :| 0 <= i < |rows| && rows[i].device == d && rows[i].ts == t;
        assert rows[1..][i - 1] == rows[i];
      }
      forall t | HasStamp(rows[1..], d, t)
        ensures HasStamp(rows, d, t)
      {
        var i :| 0 <= i < |rows[1..]| && rows[1..][i].device == d && rows[1..][i].ts == t;
        assert rows[i + 1] == rows[1..][i];
      }
    }
  }

  /** Indices of the rows of device d. */
  function DeviceRows(rows: seq<Detection>, d: int): set<int> {
    set i | 0 <= i < |rows| && rows[i].device == d
  }

  /** Indices of the rows of device d stamped t. */
  function StampRows(rows: seq<Detection>, d: int, t: int): set<int> {
    set i | 0 <= i < |rows| && rows[i].device == d && rows[i].ts == t
  }

  /** Appending a row adds its index to the device's rows when it is the
      device's. */
  lemma DeviceRowsSnoc(prefix: seq<Detection>, last: Detection, d: int)
    ensures DeviceRows(prefix + [last], d)
         == DeviceRows(prefix, d) + (if last.device == d then {|prefix|} else {})
    ensures |prefix| !in DeviceRows(prefix, d)
  {
    var rows := prefix + [last];
    assert forall i :: 0 <= i < |prefix| ==> rows[i] == prefix[i];
  }

  /** Appending a row adds its index to the rows stamped t when it is the
      device's and carries t. */
  lemma StampRowsSnoc(prefix: seq<Detection>, last: Detection, d: int, t: int)
    ensures StampRows(prefix + [last], d, t)
         == StampRows(prefix, d, t) + (if last.device == d && last.ts == t then {|prefix|} else {})
    ensures |prefix| !in StampRows(prefix, d, t)
  {
    var rows := prefix + [last];
    assert forall i :: 0 <= i < |prefix| ==> rows[i] == prefix[i];
  }

  /** There are as many timestamps of device d as rows of the device. */
  lemma {:induction false} StampsLength(rows: seq<Detection>, d: int)
    ensures |Stamps(rows, d)| == |DeviceRows(rows, d)|
  {
    if rows != [] {
      var prefix, last := rows[..|rows| - 1], rows[|rows| - 1];
      assert rows == prefix + [last];
      StampsLength(prefix, d);
      StampsAppend(prefix, [last], d);
      DeviceRowsSnoc(prefix, last, d);
    }
  }

  /** Every row of device d gives its timestamp exactly once: each value
      occurs as often as rows of the device carry it. */
  lemma {:induction false} StampsCount(rows: seq<Detection>, d: int, t: int)
    ensures multiset(Stamps(rows, d))[t] == |StampRows(rows, d, t)|
  {
    if rows != [] {
      var prefix, last := rows[..|rows| - 1], rows[|rows| - 1];
      assert rows == prefix + [last];
      StampsCount(prefix, d, t);
      StampsAppend(prefix, [last], d);
      StampRowsSnoc(prefix, last, d, t);
    }
  }

  /** Timestamps split over a concatenation of tables. */
  lemma {:induction false} StampsAppend(a: seq<Detection>, b: seq<Detection>, d: int)
    ensures Stamps(a + b, d) == Stamps(a, d) + Stamps(b, d)
  {
    if a != [] {
      assert (a + b)[1..] == a[1..] + b;
      StampsAppend(a[1..], b, d);
    } else {
      assert a + b == b;
    }
  }

  /** Moving one row to the front keeps the multiset of timestamps. */
  lemma StampsAround(u: seq<Detection>, x: Detection, v: seq<Detection>, d: int)
    ensures multiset(Stamps(u + [x] + v, d)) == multiset(Stamps([x], d)) + multiset(Stamps(u + v, d))
  {
    StampsAppend(u, v, d);
    StampsAppend(u, [x], d);
    StampsAppend(u + [x], v, d);
  }

  /** Reordering the rows of the table does not change the multiset of any
      device's timestamps. */
  lemma {:induction false} StampsIgnoreRowOrder(rows: seq<Detection>, other: seq<Detection>, d: int)
    requires multiset(rows) == multiset(other)
    ensures multiset(Stamps(rows, d)) == multiset(Stamps(other, d))
  {
    if rows == [] {
      assert |other| == |multiset(other)| == 0;
    } else {
      var x := rows[0];
      assert x in multiset(other);
      TailMultiset(rows);
      var u, v := SplitAround(other, x);
      StampsIgnoreRowOrder(rows[1..], u + v, d);
      StampsAround(u, x, v, d);
      StampsAppend([x], rows[1..], d);
      assert rows == [x] + rows[1..];
    }
  }
}
