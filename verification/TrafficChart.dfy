/** The traffic chart: summed rows put into consecutive periods, once for all devices and once for each. */
module TrafficChart {
  import opened Common
  import opened Text

  datatype Row = Row(period: int, tag: string, direction: bool, bytes: int)

  datatype Bucket = Bucket(period: int, rx: int, tx: int, total: int)

  /** The part of a tag before its '@'. */
  function DeviceOf(tag: string): string {
    if tag == "" || tag[0] == '@' then "" else [tag[0]] + DeviceOf(tag[1..])
  }

  // ---------- the periods ----------

  /** The period of every step from `cursor` to `now`; `start` gives the period an instant is in. */
  function Periods(cursor: int, step: int, now: int, start: int -> int): seq<int>
    requires step > 0
    decreases now - cursor
  {
    if cursor > now then [] else [start(cursor)] + Periods(cursor + step, step, now, start)
  }

  /** The position that a period's series points go to: the last one, should it be listed twice. */
  ghost predicate IsSlot(keys: seq<int>, k: int, i: nat) {
    i < |keys| && keys[i] == k && forall j :: i < j < |keys| ==> keys[j] != k
  }

  // ---------- what the rows add up to ----------

  function Moved(rows: seq<Row>, k: int, direction: bool, start: int -> int): int {
    if rows == [] then 0
    else Moved(rows[..|rows| - 1], k, direction, start)
         + var r := rows[|rows| - 1]; if start(r.period) == k && r.direction == direction then r.bytes else 0
  }

  function MovedBy(rows: seq<Row>, k: int, device: string, start: int -> int): int {
    if rows == [] then 0
    else MovedBy(rows[..|rows| - 1], k, device, start)
         + var r := rows[|rows| - 1]; if start(r.period) == k && DeviceOf(r.tag) == device then r.bytes else 0
  }

  /** A device with a row in the listed periods. */
  ghost predicate Charted(rows: seq<Row>, keys: seq<int>, device: string, start: int -> int) {
    exists r :: r in rows && start(r.period) in keys && DeviceOf(r.tag) == device
  }

  // ---------- the lists and tables as the program fills them ----------

  method ListPeriods(since: int, step: int, now: int, start: int -> int)
    returns (keys: seq<int>, buckets: map<int, Bucket>, slots: map<int, nat>)
    requires step > 0
    ensures keys == Periods(since, step, now, start)
    ensures forall k :: k in buckets <==> k in keys
    ensures forall k :: k in slots <==> k in keys
    ensures forall k :: k in keys ==> buckets[k] == Bucket(k, 0, 0, 0) && IsSlot(keys, k, slots[k])
  {
    keys, buckets, slots := [], map[], map[];
    var cursor := since;
    while cursor <= now
      invariant keys + Periods(cursor, step, now, start) == Periods(since, step, now, start)
      invariant forall k :: k in buckets <==> k in keys
      invariant forall k :: k in slots <==> k in keys
      invariant forall k :: k in keys ==> buckets[k] == Bucket(k, 0, 0, 0) && IsSlot(keys, k, slots[k])
      decreases now - cursor
    {
      var k := start(cursor);
      assert keys + Periods(cursor, step, now, start) == keys + [k] + Periods(cursor + step, step, now, start);
      buckets := buckets[k := Bucket(k, 0, 0, 0)];
      slots := slots[k := |keys|];
      keys := keys + [k];
      cursor := cursor + step;
    }
  }

  type Series = map<string, map<nat, int>>

  function PointAt(series: Series, device: string, i: nat): int {
    if device in series && i in series[device] then series[device][i] else 0
  }

  /** One row: its bucket, and its device's point in that period. */
  method ApplyRow(r: Row, start: int -> int, buckets: map<int, Bucket>, slots: map<int, nat>, series: Series)
    returns (buckets': map<int, Bucket>, series': Series)
    requires buckets.Keys == slots.Keys
    ensures buckets'.Keys == buckets.Keys
    ensures var k := start(r.period);
            if k !in slots then buckets' == buckets && series' == series
            else
              var b := buckets[k];
              var rx, tx := b.rx + (if r.direction then 0 else r.bytes), b.tx + (if r.direction then r.bytes else 0);
              && buckets' == buckets[k := Bucket(b.period, rx, tx, rx + tx)]
              && series'.Keys == series.Keys + {DeviceOf(r.tag)}
              && forall d: string, i: nat :: PointAt(series', d, i) ==
                   PointAt(series, d, i) + if d == DeviceOf(r.tag) && i == slots[k] then r.bytes else 0
  {
    buckets', series' := buckets, series;
    var k := start(r.period);
    if k in buckets {
      var b := buckets[k];
      if r.direction { b := b.(tx := b.tx + r.bytes); } else { b := b.(rx := b.rx + r.bytes); }
      buckets' := buckets[k := b.(total := b.rx + b.tx)];
    }
    if k !in slots { return; }
    var device := DeviceOf(r.tag);
    var points := if device in series then series[device] else map[];
    var i := slots[k];
    points := points[i := (if i in points then points[i] else 0) + r.bytes];
    series' := series[device := points];
  }

  ghost predicate BucketsUpTo(rows: seq<Row>, start: int -> int, buckets: map<int, Bucket>) {
    forall k :: k in buckets ==>
      buckets[k] == Bucket(k, Moved(rows, k, false, start), Moved(rows, k, true, start),
                           Moved(rows, k, false, start) + Moved(rows, k, true, start))
  }

  ghost predicate SeriesUpTo(rows: seq<Row>, start: int -> int, keys: seq<int>, series: Series) {
    && (forall d :: d in series <==> Charted(rows, keys, d, start))
    && forall d: string, i: nat :: i < |keys| ==>
         PointAt(series, d, i) == if IsSlot(keys, keys[i], i) then MovedBy(rows, keys[i], d, start) else 0
  }

  method ApplyRows(rows: seq<Row>, start: int -> int, keys: seq<int>, buckets: map<int, Bucket>, slots: map<int, nat>)
    returns (buckets': map<int, Bucket>, series: Series)
    requires forall k :: k in buckets <==> k in keys
    requires forall k :: k in slots <==> k in keys
    requires forall k :: k in keys ==> buckets[k] == Bucket(k, 0, 0, 0) && IsSlot(keys, k, slots[k])
    ensures buckets'.Keys == buckets.Keys && BucketsUpTo(rows, start, buckets') && SeriesUpTo(rows, start, keys, series)
  {
    buckets', series := buckets, map[];
    assert forall k :: k in buckets <==> k in slots;
    assert buckets.Keys == slots.Keys;
    hide Charted;
    assert SeriesUpTo([], start, keys, series) by { NothingCharted(keys, start); }
    for n := 0 to |rows|
      invariant buckets'.Keys == buckets.Keys
      invariant BucketsUpTo(rows[..n], start, buckets') && SeriesUpTo(rows[..n], start, keys, series)
    {
      hide BucketsUpTo, SeriesUpTo;
      var r := rows[n];
      assert rows[..n + 1] == rows[..n] + [r];
      ghost var b, s := buckets', series;
      buckets', series := ApplyRow(r, start, buckets', slots, series);
      BucketsGrow(rows[..n], r, start, b, buckets');
      SeriesGrow(rows[..n], r, start, keys, slots, s, series);
    }
    assert rows[..|rows|] == rows;
  }

  lemma NothingCharted(keys: seq<int>, start: int -> int)
    ensures forall d :: !Charted([], keys, d, start)
  {
  }

  lemma BucketsGrow(rows: seq<Row>, r: Row, start: int -> int, b: map<int, Bucket>, b': map<int, Bucket>)
    requires BucketsUpTo(rows, start, b) && b'.Keys == b.Keys
    requires var k := start(r.period);
             if k !in b then b' == b
             else
               var rx := b[k].rx + (if r.direction then 0 else r.bytes);
               var tx := b[k].tx + (if r.direction then r.bytes else 0);
               b' == b[k := Bucket(b[k].period, rx, tx, rx + tx)]
    ensures BucketsUpTo(rows + [r], start, b')
  {
    assert (rows + [r])[..|rows|] == rows;
  }

  lemma SeriesGrow(rows: seq<Row>, r: Row, start: int -> int, keys: seq<int>, slots: map<int, nat>, s: Series,
          s': Series)
    requires SeriesUpTo(rows, start, keys, s)
    requires forall k :: k in slots <==> k in keys
    requires forall k :: k in keys ==> IsSlot(keys, k, slots[k])
    requires var k := start(r.period);
             if k !in slots then s' == s
             else
               && s'.Keys == s.Keys + {DeviceOf(r.tag)}
               && forall d: string, i: nat :: PointAt(s', d, i) ==
                    PointAt(s, d, i) + if d == DeviceOf(r.tag) && i == slots[k] then r.bytes else 0
    ensures SeriesUpTo(rows + [r], start, keys, s')
  {
    hide PointAt, DeviceOf;
    var k := start(r.period);
    assert (rows + [r])[..|rows|] == rows;
    assert forall x :: x in rows + [r] <==> x in rows || x == r;
    forall d ensures d in s' <==> Charted(rows + [r], keys, d, start) {
      assert d in s <==> Charted(rows, keys, d, start);
    }
    forall d: string, i: nat | i < |keys|
      ensures PointAt(s', d, i) == if IsSlot(keys, keys[i], i) then MovedBy(rows + [r], keys[i], d, start) else 0
    {
      assert keys[i] in keys;
      assert IsSlot(keys, keys[i], slots[keys[i]]);
      assert IsSlot(keys, keys[i], i) <==> i == slots[keys[i]];
    }
  }

  method GetTrafficAnalysisWithChart(rows: seq<Row>, currentRows: seq<Row>,
                                     since: int, step: int, now: int, start: int -> int)
    returns (buckets: seq<Bucket>, devices: seq<string>, chart: map<string, seq<int>>)
    requires step > 0
    ensures var keys, all := Periods(since, step, now, start), rows + currentRows;
            && |buckets| == |keys|
            && (forall i :: 0 <= i < |keys| ==>
                  buckets[i] == Bucket(keys[i], Moved(all, keys[i], false, start), Moved(all, keys[i], true, start),
                                       Moved(all, keys[i], false, start) + Moved(all, keys[i], true, start)))
            && AscendingStrings(devices) && (forall d :: d in devices <==> Charted(all, keys, d, start))
            && (forall d :: d in chart <==> d in devices)
            && (forall d :: d in chart ==> IsSeries(all, keys, d, start, chart[d]))
  {
    hide Moved, MovedBy, Charted, PointAt;
    var keys, empty, slots := ListPeriods(since, step, now, start);
    var filled, series := ApplyRows(rows + currentRows, start, keys, empty, slots);
    buckets := seq(|keys|, i requires 0 <= i < |keys| && (forall k :: k in keys ==> k in filled) => filled[keys[i]]);
    devices := SortNames(series.Keys);
    chart := map d | d in series :: seq(|keys|, i requires 0 <= i < |keys| => PointAt(series, d, i));
  }

  ghost predicate IsSeries(rows: seq<Row>, keys: seq<int>, device: string, start: int -> int, data: seq<int>) {
    |data| == |keys| && forall i :: 0 <= i < |keys| ==>
      data[i] == if IsSlot(keys, keys[i], i) then MovedBy(rows, keys[i], device, start) else 0
  }

  // ---------- the chart adds up ----------

  function SumDevices(devices: seq<string>, chart: map<string, seq<int>>, i: nat): int
    requires forall d :: d in devices ==> d in chart && i < |chart[d]|
  {
    if devices == [] then 0
    else SumDevices(devices[..|devices| - 1], chart, i) + chart[devices[|devices| - 1]][i]
  }

  function SumMoved(devices: seq<string>, rows: seq<Row>, k: int, start: int -> int): int {
    if devices == [] then 0
    else SumMoved(devices[..|devices| - 1], rows, k, start) + MovedBy(rows, k, devices[|devices| - 1], start)
  }

  lemma {:induction false} SumMovedGrows(devices: seq<string>, rows: seq<Row>, r: Row, k: int, start: int -> int)
    requires AscendingStrings(devices)
    ensures SumMoved(devices, rows + [r], k, start) ==
            SumMoved(devices, rows, k, start) +
            if start(r.period) == k && DeviceOf(r.tag) in devices then r.bytes else 0
  {
    assert (rows + [r])[..|rows|] == rows;
    if devices != [] {
      var init, d := devices[..|devices| - 1], devices[|devices| - 1];
      assert devices == init + [d];
      SumMovedGrows(init, rows, r, k, start);
      assert d !in init by {
        if d in init {
          var i :| 0 <= i < |init| && init[i] == d;
          assert StringLess(devices[i], devices[|devices| - 1]);
          StringOrder(d, d);
        }
      }
    }
  }

  lemma {:induction false} NobodyMoved(devices: seq<string>, k: int, start: int -> int)
    ensures SumMoved(devices, [], k, start) == 0
  {
    if devices != [] { NobodyMoved(devices[..|devices| - 1], k, start); }
  }

  /** Every byte of a period belongs to exactly one of the devices. */
  lemma {:induction false} DevicesSum(devices: seq<string>, rows: seq<Row>, k: int, start: int -> int)
    requires AscendingStrings(devices)
    requires forall r :: r in rows && start(r.period) == k ==> DeviceOf(r.tag) in devices
    ensures SumMoved(devices, rows, k, start) == Moved(rows, k, false, start) + Moved(rows, k, true, start)
  {
    if rows == [] {
      NobodyMoved(devices, k, start);
    } else {
      var init, r := rows[..|rows| - 1], rows[|rows| - 1];
      assert rows == init + [r];
      DevicesSum(devices, init, k, start);
      SumMovedGrows(devices, init, r, k, start);
    }
  }

  /** At every index the device series sum to the bucket's total when the index is its period's last one, and to
      nothing otherwise. */
  lemma ChartAddsUp(rows: seq<Row>, keys: seq<int>, start: int -> int,
                    devices: seq<string>, chart: map<string, seq<int>>, i: nat)
    requires i < |keys| && AscendingStrings(devices)
    requires forall d :: d in devices <==> Charted(rows, keys, d, start)
    requires forall d :: d in devices ==> d in chart && |chart[d]| == |keys| && IsSeries(rows, keys, d, start, chart[d])
    ensures SumDevices(devices, chart, i) ==
            if IsSlot(keys, keys[i], i)
            then Moved(rows, keys[i], false, start) + Moved(rows, keys[i], true, start) else 0
  {
    hide DeviceOf, Moved, MovedBy;
    forall r | r in rows && start(r.period) == keys[i] ensures DeviceOf(r.tag) in devices {
      assert Charted(rows, keys, DeviceOf(r.tag), start);
    }
    DevicesSum(devices, rows, keys[i], start);
    SeriesSum(rows, keys, start, devices, chart, i);
  }

  lemma {:induction false} SeriesSum(rows: seq<Row>, keys: seq<int>, start: int -> int,
                                     devices: seq<string>, chart: map<string, seq<int>>, i: nat)
    requires i < |keys|
    requires forall d :: d in devices ==> d in chart && |chart[d]| == |keys| && IsSeries(rows, keys, d, start, chart[d])
    ensures SumDevices(devices, chart, i) ==
            if IsSlot(keys, keys[i], i) then SumMoved(devices, rows, keys[i], start) else 0
  {
    if devices != [] { SeriesSum(rows, keys, start, devices[..|devices| - 1], chart, i); }
  }

  // ---------- when every index is its period's last ----------

  /** In UTC a period starts at a multiple of the step, and no period is listed twice. */
  function UtcStart(step: int): int -> int
    requires step > 0
  {
    t => t - t % step
  }

  lemma {:induction false} UtcPeriods(since: int, step: int, now: int, i: nat)
    requires step > 0 && since % step == 0 && i < |Periods(since, step, now, UtcStart(step))|
    ensures Periods(since, step, now, UtcStart(step))[i] == since + i * step
    decreases i
  {
    if i > 0 {
      NextMultiple(since, step);
      UtcPeriods(since + step, step, now, i - 1);
    }
  }

  lemma NextMultiple(since: int, step: int)
    requires step > 0 && since % step == 0
    ensures (since + step) % step == 0
  {
    hide *;
    var q := since / step;
    assert since == q * step;
    MultipleOf(q + 1, step);
    Distribute(q, step);
  }

  lemma Distribute(q: int, step: int)
    ensures (q + 1) * step == q * step + step
  {
  }

  lemma MultipleOf(q: int, step: int)
    requires step > 0
    ensures (q * step) % step == 0
  {
    var t := q * step;
    var d := q - t / step;
    assert t == (t / step) * step + t % step;
    assert d * step == t % step by { Difference(q, t / step, step); }
    if d >= 1 { AtLeast(d, step); }
    if d <= -1 { AtLeast(-d, step); }
  }

  lemma Difference(a: int, b: int, step: int)
    ensures (a - b) * step == a * step - b * step
  {
  }

  lemma AtLeast(d: int, step: int)
    requires d >= 1 && step > 0
    ensures d * step >= step && -d * step <= -step
  {
  }

  lemma UtcSlots(since: int, step: int, now: int, i: nat)
    requires step > 0 && since % step == 0
    ensures var keys := Periods(since, step, now, UtcStart(step));
            i < |keys| ==> IsSlot(keys, keys[i], i)
  {
    var keys := Periods(since, step, now, UtcStart(step));
    if i < |keys| {
      UtcPeriods(since, step, now, i);
      forall j | i < j < |keys| ensures keys[j] != keys[i] {
        UtcPeriods(since, step, now, j);
        LaterMultiple(i, j, step);
      }
    }
  }

  lemma LaterMultiple(i: int, j: int, step: int)
    requires i < j && step > 0
    ensures i * step < j * step
  {
  }

  /** So in UTC, at every index, the device series sum to the bucket's total. */
  lemma UtcChartAddsUp(rows: seq<Row>, since: int, step: int, now: int,
                       devices: seq<string>, chart: map<string, seq<int>>, i: nat)
    requires step > 0 && since % step == 0 && AscendingStrings(devices)
    requires var keys := Periods(since, step, now, UtcStart(step));
             && i < |keys|
             && (forall d :: d in devices <==> Charted(rows, keys, d, UtcStart(step)))
             && (forall d :: d in devices ==>
                   d in chart && |chart[d]| == |keys| && IsSeries(rows, keys, d, UtcStart(step), chart[d]))
    ensures var k := since + i * step;
            SumDevices(devices, chart, i) ==
            Moved(rows, k, false, UtcStart(step)) + Moved(rows, k, true, UtcStart(step))
  {
    hide Charted, IsSeries, Moved, IsSlot, UtcStart;
    var keys := Periods(since, step, now, UtcStart(step));
    UtcPeriods(since, step, now, i);
    UtcSlots(since, step, now, i);
    ChartAddsUp(rows, keys, UtcStart(step), devices, chart, i);
  }

  /** A day of 25 hours, as when clocks are set back. */
  function LongDay(t: int): int {
    if 0 <= t < 25 * HOUR then 0 else t
  }

  /** There two steps of 24 hours fall on one day. The byte of that day is in the bucket at both indices, and in the
      series at the second only. */
  lemma RepeatedDay()
    ensures var keys, rows := Periods(0, DAY, DAY, LongDay), [Row(0, "m@x", false, 1)];
            var chart := map["m" := [0, 1]];
            && keys == [0, 0] && Moved(rows, 0, false, LongDay) + Moved(rows, 0, true, LongDay) == 1
            && (forall d :: d in ["m"] <==> Charted(rows, keys, d, LongDay))
            && IsSeries(rows, keys, "m", LongDay, chart["m"])
            && SumDevices(["m"], chart, 0) == 0 && SumDevices(["m"], chart, 1) == 1
  {
    var keys, rows := Periods(0, DAY, DAY, LongDay), [Row(0, "m@x", false, 1)];
    assert Periods(2 * DAY, DAY, DAY, LongDay) == [];
    assert Periods(DAY, DAY, DAY, LongDay) == [0] + [];
    assert keys == [0] + [0];
    assert DeviceOf("m@x") == "m" by { assert "m@x"[1..] == "@x"; }
    assert rows[..0] == [];
    assert rows[0] in rows && keys[0] in keys;
    assert MovedBy(rows, 0, "m", LongDay) == 1;
    assert IsSlot(keys, 0, 1);
    assert keys[1] == 0 && !IsSlot(keys, 0, 0);
    assert ["m"][..0] == [];
  }

  // ---------- the ranges ----------

  const HOUR: int := 3_600_000_000_000
  const DAY: int := 24 * HOUR

  /** Where a range starts, its step and where the part not rolled up yet starts. */
  datatype Range = Range(since: int, step: int, currentStart: int)

  /** The ranges of the program, in UTC; none for any other name. */
  function RangeOf(name: string, now: int): Option<Range> {
    if name == "day" then Some(Range(UtcStart(HOUR)(now - DAY), HOUR, UtcStart(HOUR)(now)))
    else if name == "week" then Some(Range(UtcStart(DAY)(now - 7 * DAY), DAY, UtcStart(DAY)(now)))
    else if name == "month" then Some(Range(UtcStart(DAY)(now - 30 * DAY), DAY, UtcStart(DAY)(now)))
    else None
  }

  lemma {:induction false} PeriodCount(since: int, step: int, now: int, n: nat)
    requires step > 0 && since % step == 0 && since + n * step <= now < since + n * step + step
    ensures |Periods(since, step, now, UtcStart(step))| == n + 1
    decreases n
  {
    if n == 0 {
      assert Periods(since + step, step, now, UtcStart(step)) == [];
    } else {
      NextMultiple(since, step);
      Distribute(n - 1, step);
      PeriodCount(since + step, step, now, n - 1);
    }
  }

  /** A chart of a day has 25 hours, of a week 8 days, of a month 31: the last one is the period that is running, and no
      period is missing before it. */
  lemma RangesCover(now: int)
    ensures var d := RangeOf("day", now).value; RangeIs(d, now, 3_600_000_000_000, 24)
    ensures var w := RangeOf("week", now).value; RangeIs(w, now, 86_400_000_000_000, 7)
    ensures var m := RangeOf("month", now).value; RangeIs(m, now, 86_400_000_000_000, 30)
    ensures forall name :: RangeOf(name, now).Some? <==> name in ["day", "week", "month"]
  {
    RangeCovers(now, HOUR, 24);
    RangeCovers(now, DAY, 7);
    RangeCovers(now, DAY, 30);
  }

  ghost predicate RangeIs(r: Range, now: int, step: int, n: nat)
    requires step > 0
  {
    && r.step == step && r.since % step == 0 && r.since == r.currentStart - n * step
    && r.currentStart <= now < r.currentStart + step
    && var keys := Periods(r.since, step, now, UtcStart(step));
       |keys| == n + 1 && keys[n] == r.currentStart && forall i: nat :: i <= n ==> keys[i] == r.since + i * step
  }

  lemma RangeCovers(now: int, step: int, n: nat)
    requires step > 0
    ensures RangeIs(Range(UtcStart(step)(now - n * step), step, UtcStart(step)(now)), now, step, n)
  {
    var current := now - now % step;
    var since := current - n * step;
    StartOfMultiple(now, step);
    StepsBack(now, step, n);
    assert UtcStart(step)(now - n * step) == since;
    PeriodCount(since, step, now, n);
    var keys := Periods(since, step, now, UtcStart(step));
    forall i: nat | i <= n ensures keys[i] == since + i * step { UtcPeriods(since, step, now, i); }
  }

  lemma StartOfMultiple(now: int, step: int)
    requires step > 0
    ensures (now - now % step) % step == 0
  {
    hide *;
    var q := now / step;
    assert now - now % step == q * step;
    MultipleOf(q, step);
  }

  lemma {:induction false} StepsBack(now: int, step: int, n: nat)
    requires step > 0
    ensures (now - n * step) % step == now % step && (now - now % step - n * step) % step == 0
  {
    if n == 0 {
      StartOfMultiple(now, step);
    } else {
      StepsBack(now, step, n - 1);
      Distribute(n - 1, step);
      OneStepBack(now - (n - 1) * step, step);
      OneStepBack(now - now % step - (n - 1) * step, step);
    }
  }

  lemma OneStepBack(x: int, step: int)
    requires step > 0
    ensures (x - step) % step == x % step
  {
    hide *;
    var q, r := x / step, x % step;
    assert x == q * step + r;
    Distribute(q - 1, step);
    assert x - step == (q - 1) * step + r;
    Remainder(q - 1, r, step);
  }

  lemma Remainder(q: int, r: int, step: int)
    requires 0 <= r < step
    ensures (q * step + r) % step == r
  {
    hide *;
    var t := q * step + r;
    var d := q - t / step;
    assert t == (t / step) * step + t % step;
    Difference(q, t / step, step);
    assert d * step == t % step - r;
    if d >= 1 { AtLeast(d, step); }
    if d <= -1 { AtLeast(-d, step); }
  }
}
