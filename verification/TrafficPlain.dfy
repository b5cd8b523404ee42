/** The traffic tables and charts in plain terms: what a row is counted under. */
module TrafficPlain {
  import TrafficRollup
  import opened TrafficChart

  // ---------- charts ----------

  /** A tag names its device before the first at sign, or as a whole. */
  lemma {:induction false} DeviceBeforeAt(device: string, rest: string)
    requires '@' !in device
    ensures DeviceOf(device) == device && DeviceOf(device + ['@'] + rest) == device
  {
    if device != "" {
      assert (device + ['@'] + rest)[1..] == device[1..] + ['@'] + rest;
      DeviceBeforeAt(device[1..], rest);
    }
  }

  /** One more row adds its bytes to what was sent when its direction is set, and to what was received otherwise; in its
      own period and for its own device. */
  lemma OneMoreRow(rows: seq<Row>, p: int, tag: string, sent: bool, n: int, k: int, device: string, start: int -> int)
    ensures Moved([], k, sent, start) == MovedBy([], k, device, start) == 0
    ensures var more := rows + [Row(p, tag, sent, n)];
            && Moved(more, k, true, start) == Moved(rows, k, true, start) + (if sent && start(p) == k then n else 0)
            && Moved(more, k, false, start) == Moved(rows, k, false, start) + (if !sent && start(p) == k then n else 0)
            && MovedBy(more, k, device, start) ==
                 MovedBy(rows, k, device, start) + (if DeviceOf(tag) == device && start(p) == k then n else 0)
  {
    var more := rows + [Row(p, tag, sent, n)];
    assert more[..|rows|] == rows;
  }

  /** The periods of a chart: those of the instants a step apart from the start to now, and no more. */
  lemma {:induction false} PeriodsExactly(since: int, step: int, now: int, start: int -> int, i: nat)
    requires step > 0
    ensures var keys := Periods(since, step, now, start);
            && (i < |keys| <==> since + i * step <= now)
            && (i < |keys| ==> keys[i] == start(since + i * step))
    decreases i
  {
    if i > 0 {
      Distribute(i - 1, step);
      NotNegative(i - 1, step);
      if since <= now { PeriodsExactly(since + step, step, now, start, i - 1); }
    }
  }

  lemma NotNegative(q: nat, step: nat)
    ensures q * step >= 0
  {
  }

  // ---------- recording ----------

  /** Points are refused together when two are for the same minute, tag and direction of a resource. */
  lemma RefusedExactly(points: seq<TrafficRollup.Point>)
    ensures !TrafficRollup.DistinctPoints(points) <==>
            exists i, j :: 0 <= i < j < |points| && points[i].key == points[j].key
  {
  }

  /** Rolling up an hour or a day writes, for every group that has rows in it, their sum, and nothing else. */
  lemma RolledUp(db: TrafficRollup.Db, t: int, k: TrafficRollup.Key)
    ensures var hour := TrafficRollup.Next(db, TrafficRollup.ToHour(t)).hour;
            TrafficRollup.At(hour, k) ==
            if k.period == t && TrafficRollup.HasRows(db.minute, k.group, t, t + 3_600_000_000_000)
            then TrafficRollup.SumRange(db.minute, k.group, t, t + 3_600_000_000_000) else TrafficRollup.At(db.hour, k)
    ensures var day := TrafficRollup.Next(db, TrafficRollup.ToDay(t)).day;
            TrafficRollup.At(day, k) ==
            if k.period == t && TrafficRollup.HasRows(db.hour, k.group, t, t + 86_400_000_000_000)
            then TrafficRollup.SumRange(db.hour, k.group, t, t + 86_400_000_000_000) else TrafficRollup.At(db.day, k)
  {
    TrafficRollup.RollupAt(db.minute, db.hour, t, t + 3_600_000_000_000, k);
    TrafficRollup.RollupAt(db.hour, db.day, t, t + 86_400_000_000_000, k);
    hide TrafficRollup.Rollup, TrafficRollup.SumRange, TrafficRollup.HasRows;
  }

  /** A sum over a stretch, row by row: a row inside it adds its bytes, one outside nothing. */
  lemma SumOfRows(t: TrafficRollup.Table, k: TrafficRollup.Key, bytes: int, g: TrafficRollup.Group, from: int,
                  until: int)
    requires k !in t
    ensures TrafficRollup.SumRange(map[], g, from, until) == 0
    ensures TrafficRollup.SumRange(t[k := bytes], g, from, until) ==
            TrafficRollup.SumRange(t, g, from, until) + if k.group == g && from <= k.period < until then bytes else 0
  {
    TrafficRollup.NothingToSum(map[], g, from, until);
    TrafficRollup.SumMore(t, k, bytes, g, from, until);
  }
}
