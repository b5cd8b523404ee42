/** Traffic counted by the minute, summed into hours and then into days. Times are nanoseconds since the zero time. */
module TrafficRollup {

  const HOUR: int := 3_600_000_000_000
  const DAY: int := 24 * HOUR

  datatype Group = Group(resource: string, tag: string, direction: bool)

  /** A table's unique key. */
  datatype Key = Key(period: int, group: Group)

  type Table = map<Key, int>

  datatype Point = Point(key: Key, bytes: int)

  function At(t: Table, k: Key): int {
    if k in t then t[k] else 0
  }

  /** All bytes of a group in a stretch of time. */
  function SumRange(t: Table, g: Group, from: int, until: int): int
    decreases until - from
  {
    if until <= from then 0 else SumRange(t, g, from, until - 1) + At(t, Key(until - 1, g))
  }

  // ---------- the statements ----------

  /** SELECT … SUM … GROUP BY: one row for each group with any row in the stretch. */
  function Grouped(t: Table, start: int, end: int): Table {
    map k | k in (set r | r in t && start <= r.period < end :: Key(start, r.group)) :: SumRange(t, k.group, start, end)
  }

  /** … ON CONFLICT DO UPDATE: the new sums replace the old ones. */
  function Rollup(from: Table, to: Table, start: int, end: int): Table {
    to + Grouped(from, start, end)
  }

  function AddAll(t: Table, points: seq<Point>): Table {
    if points == [] then t
    else
      var before := AddAll(t, points[..|points| - 1]);
      var p := points[|points| - 1];
      before[p.key := At(before, p.key) + p.bytes]
  }

  predicate DistinctPoints(points: seq<Point>) {
    forall i, j :: 0 <= i < j < |points| ==> points[i].key != points[j].key
  }

  // ---------- the tables as the program keeps them ----------

  class Traffic {
    var minute: Table
    var hour: Table
    var day: Table

    constructor ()
      ensures minute == map[] && hour == map[] && day == map[]
    {
      minute, hour, day := map[], map[], map[];
    }

    /** Adds every point, or none when the statement would touch a row twice. */
    method UpsertTrafficMinute(points: seq<Point>) returns (ok: bool)
      modifies this`minute
      ensures ok <==> DistinctPoints(points)
      ensures minute == if ok then AddAll(old(minute), points) else old(minute)
    {
      var rows := minute;
      var touched: set<Key> := {};
      for i := 0 to |points|
        invariant minute == old(minute) && rows == AddAll(minute, points[..i])
        invariant DistinctPoints(points[..i])
        invariant forall k :: k in touched <==> exists j :: 0 <= j < i && points[j].key == k
      {
        assert points[..i + 1][..i] == points[..i];
        var p := points[i];
        if p.key in touched { return false; }
        rows := rows[p.key := (if p.key in rows then rows[p.key] else 0) + p.bytes];
        touched := touched + {p.key};
      }
      assert points[..|points|] == points;
      minute := rows;
      return true;
    }

    method RollupToHour(hourStart: int)
      modifies this`hour
      ensures hour == Rollup(minute, old(hour), hourStart, hourStart + HOUR)
    {
      var sums := GroupRows(minute, hourStart, hourStart + HOUR);
      hour := hour + sums;
    }

    method RollupToDay(dayStart: int)
      modifies this`day
      ensures day == Rollup(hour, old(day), dayStart, dayStart + DAY)
    {
      var sums := GroupRows(hour, dayStart, dayStart + DAY);
      day := day + sums;
    }
  }

  /** Grouping row by row, in any order. */
  method GroupRows(t: Table, start: int, end: int) returns (sums: Table)
    ensures sums == Grouped(t, start, end)
  {
    sums := map[];
    var todo := t.Keys;
    ghost var seen: Table := map[];
    while todo != {}
      invariant todo <= t.Keys && seen.Keys == t.Keys - todo
      invariant forall k :: k in seen ==> seen[k] == t[k]
      invariant sums == Grouped(seen, start, end)
      decreases todo
    {
      var r :| r in todo;
      GroupMore(seen, r, t[r], start, end);
      if start <= r.period < end {
        var k := Key(start, r.group);
        sums := sums[k := (if k in sums then sums[k] else 0) + t[r]];
      }
      seen := seen[r := t[r]];
      todo := todo - {r};
    }
    assert seen == t;
  }

  lemma {:induction false} SumMore(t: Table, r: Key, v: int, g: Group, from: int, until: int)
    requires r !in t
    ensures SumRange(t[r := v], g, from, until) ==
            SumRange(t, g, from, until) + if r.group == g && from <= r.period < until then v else 0
    decreases until - from
  {
    if from < until { SumMore(t, r, v, g, from, until - 1); }
  }

  lemma GroupMore(t: Table, r: Key, v: int, start: int, end: int)
    requires r !in t
    ensures var k := Key(start, r.group);
            Grouped(t[r := v], start, end) ==
            if start <= r.period < end then Grouped(t, start, end)[k := At(Grouped(t, start, end), k) + v]
            else Grouped(t, start, end)
  {
    hide SumRange, Grouped, HasRows;
    var k := Key(start, r.group);
    var before, after := Grouped(t, start, end), Grouped(t[r := v], start, end);
    forall x: Key
      ensures x in after <==> x in before || (x == k && start <= r.period < end)
      ensures x in after ==> after[x] == At(before, x) + if x == k && start <= r.period < end then v else 0
    {
      GroupedAt(t, start, end, x);
      GroupedAt(t[r := v], start, end, x);
      SumMore(t, r, v, x.group, start, end);
      RowsMore(t, r, v, x.group, start, end);
    }
  }

  ghost predicate HasRows(t: Table, g: Group, from: int, until: int) {
    exists k :: k in t && k.group == g && from <= k.period < until
  }

  lemma RowsMore(t: Table, r: Key, v: int, g: Group, from: int, until: int)
    ensures HasRows(t[r := v], g, from, until) <==>
            HasRows(t, g, from, until) || (r.group == g && from <= r.period < until)
  {
    if HasRows(t, g, from, until) {
      var k :| k in t && k.group == g && from <= k.period < until;
      assert k in t[r := v];
    }
    assert r in t[r := v];
  }

  /** A group has a row when it has any in the stretch, and the row holds their sum. */
  lemma GroupedAt(t: Table, start: int, end: int, k: Key)
    ensures k in Grouped(t, start, end) <==> k.period == start && HasRows(t, k.group, start, end)
    ensures At(Grouped(t, start, end), k) == if k.period == start then SumRange(t, k.group, start, end) else 0
  {
    hide SumRange;
    var keys := set r | r in t && start <= r.period < end :: Key(start, r.group);
    assert Grouped(t, start, end).Keys == keys;
    if HasRows(t, k.group, start, end) && k.period == start {
      var r :| r in t && r.group == k.group && start <= r.period < end;
      assert Key(start, r.group) in keys;
    } else if k.period == start {
      NothingToSum(t, k.group, start, end);
    }
  }

  lemma {:induction false} NothingToSum(t: Table, g: Group, from: int, until: int)
    requires forall k :: k in t && from <= k.period < until ==> k.group != g
    ensures SumRange(t, g, from, until) == 0
    decreases until - from
  {
    if from < until { NothingToSum(t, g, from, until - 1); }
  }

  // ---------- recording conserves bytes ----------

  function PointSum(points: seq<Point>, g: Group, from: int, until: int): int {
    if points == [] then 0
    else PointSum(points[..|points| - 1], g, from, until)
         + var p := points[|points| - 1]; if p.key.group == g && from <= p.key.period < until then p.bytes else 0
  }

  lemma {:induction false} SumUpdate(t: Table, k: Key, v: int, g: Group, from: int, until: int)
    ensures SumRange(t[k := At(t, k) + v], g, from, until) ==
            SumRange(t, g, from, until) + if k.group == g && from <= k.period < until then v else 0
    decreases until - from
  {
    if from < until { SumUpdate(t, k, v, g, from, until - 1); }
  }

  /** In every stretch of time, a group's bytes grow by exactly the recorded points of that stretch. */
  lemma {:induction false} RecordingConserves(t: Table, points: seq<Point>, g: Group, from: int, until: int)
    ensures SumRange(AddAll(t, points), g, from, until)
         == SumRange(t, g, from, until) + PointSum(points, g, from, until)
  {
    if points != [] {
      var init, p := points[..|points| - 1], points[|points| - 1];
      RecordingConserves(t, init, g, from, until);
      SumUpdate(AddAll(t, init), p.key, p.bytes, g, from, until);
    }
  }

  // ---------- rolling up ----------

  /** Rolling up the same rows again changes nothing. */
  lemma RollupAgain(from: Table, to: Table, start: int, end: int)
    ensures Rollup(from, Rollup(from, to, start, end), start, end) == Rollup(from, to, start, end)
  {
  }

  /** The hours of a day, the first `n` of them rolled up in turn. */
  function RollHours(minute: Table, hour: Table, d: int, n: nat): Table {
    if n == 0 then hour
    else Rollup(minute, RollHours(minute, hour, d, n - 1), d + (n - 1) * HOUR, d + n * HOUR)
  }

  /** A row that rolling up one of the first `n` hours of the day writes. */
  ghost predicate Written(minute: Table, d: int, n: nat, k: Key) {
    exists i: nat :: i < n && k.period == HourStart(d, i) &&
      HasRows(minute, k.group, HourStart(d, i), HourStart(d, i + 1))
  }

  function HourStart(d: int, i: int): int {
    d + i * HOUR
  }

  /** The old rows that survive, the leftovers. */
  ghost function Leftover(minute: Table, hour: Table, d: int, n: nat): Table {
    map k | k in hour && !Written(minute, d, n, k) :: hour[k]
  }

  /** A rolled-up row is the sum of its hour when the hour has rows, and what it was before otherwise. */
  lemma RollupAt(from: Table, to: Table, start: int, end: int, k: Key)
    ensures At(Rollup(from, to, start, end), k) ==
            if k.period == start && HasRows(from, k.group, start, end)
            then SumRange(from, k.group, start, end) else At(to, k)
    ensures k in Rollup(from, to, start, end) <==>
            (k.period == start && HasRows(from, k.group, start, end)) || k in to
  {
    hide SumRange, HasRows;
    GroupedAt(from, start, end, k);
    hide Grouped;
  }

  lemma {:induction false} RollHoursAt(minute: Table, hour: Table, d: int, n: nat, k: Key)
    ensures var after := At(RollHours(minute, hour, d, n), k);
            if Written(minute, d, n, k) then after == SumRange(minute, k.group, k.period, k.period + HOUR)
            else after == At(hour, k)
    ensures k in RollHours(minute, hour, d, n) <==> Written(minute, d, n, k) || k in hour
  {
    hide HasRows, Rollup, SumRange, At;
    if n > 0 {
      RollHoursAt(minute, hour, d, n - 1, k);
      RollupAt(minute, RollHours(minute, hour, d, n - 1), d + (n - 1) * HOUR, d + n * HOUR, k);
      WrittenMore(minute, d, n, k);
    }
  }

  lemma WrittenMore(minute: Table, d: int, n: nat, k: Key)
    requires n > 0
    ensures Written(minute, d, n, k) <==>
            (Written(minute, d, n - 1, k)
             || (k.period == d + (n - 1) * HOUR && HasRows(minute, k.group, d + (n - 1) * HOUR, d + n * HOUR)))
    ensures Written(minute, d, n - 1, k) ==> k.period != d + (n - 1) * HOUR
  {
    hide HasRows;
    assert HourStart(d, n - 1) == d + (n - 1) * HOUR && HourStart(d, n) == d + n * HOUR;
    if Written(minute, d, n, k) {
      var i: nat :| i < n && k.period == HourStart(d, i)
          && HasRows(minute, k.group, HourStart(d, i), HourStart(d, i + 1));
      assert i == n - 1 || Written(minute, d, n - 1, k);
    }
  }

  lemma {:induction false} SumSplits(t: Table, g: Group, a: int, b: int, c: int)
    requires a <= b <= c
    ensures SumRange(t, g, a, c) == SumRange(t, g, a, b) + SumRange(t, g, b, c)
    decreases c - b
  {
    if b < c { SumSplits(t, g, a, b, c - 1); }
  }

  lemma {:induction false} SameSum(s: Table, t: Table, g: Group, from: int, until: int)
    requires forall p :: from <= p < until ==> At(s, Key(p, g)) == At(t, Key(p, g))
    ensures SumRange(s, g, from, until) == SumRange(t, g, from, until)
    decreases until - from
  {
    if from < until { SameSum(s, t, g, from, until - 1); }
  }

  /** Only the first instant of an hour is ever written. */
  lemma NotWritten(minute: Table, d: int, n: nat, k: Key, i: nat)
    requires HourStart(d, i) < k.period < HourStart(d, i + 1)
    ensures !Written(minute, d, n, k)
  {
    hide HasRows;
    forall j: nat | j < n ensures k.period != HourStart(d, j) {
    }
  }

  /** One hour of the rolled-up table: its minutes and the leftovers. */
  lemma HourConserves(minute: Table, hour: Table, d: int, n: nat, g: Group, i: nat)
    requires i < n
    ensures var a, b := HourStart(d, i), HourStart(d, i + 1);
            SumRange(RollHours(minute, hour, d, n), g, a, b) ==
            SumRange(minute, g, a, b) + SumRange(Leftover(minute, hour, d, n), g, a, b)
  {
    hide RollHours, Written;
    var a, b := HourStart(d, i), HourStart(d, i + 1);
    var after, left := RollHours(minute, hour, d, n), Leftover(minute, hour, d, n);
    forall p | a < p < b ensures At(after, Key(p, g)) == At(left, Key(p, g)) {
      NotWritten(minute, d, n, Key(p, g), i);
      RollHoursAt(minute, hour, d, n, Key(p, g));
    }
    SameSum(after, left, g, a + 1, b);
    SumSplits(after, g, a, a + 1, b);
    SumSplits(left, g, a, a + 1, b);
    assert SumRange(after, g, a, a + 1) == At(after, Key(a, g)) by { assert SumRange(after, g, a, a) == 0; }
    assert SumRange(left, g, a, a + 1) == At(left, Key(a, g)) by { assert SumRange(left, g, a, a) == 0; }
    RollHoursAt(minute, hour, d, n, Key(a, g));
    FirstWritten(minute, d, n, g, i);
    if !HasRows(minute, g, a, b) { NothingToSum(minute, g, a, b); }
  }

  lemma FirstWritten(minute: Table, d: int, n: nat, g: Group, i: nat)
    requires i < n
    ensures Written(minute, d, n, Key(HourStart(d, i), g)) <==> HasRows(minute, g, HourStart(d, i), HourStart(d, i + 1))
  {
    hide HasRows;
    var k := Key(HourStart(d, i), g);
    if Written(minute, d, n, k) {
      var j: nat :| j < n && k.period == HourStart(d, j) && HasRows(minute, g, HourStart(d, j), HourStart(d, j + 1));
      assert j == i;
    }
  }

  lemma {:induction false} HoursConserve(minute: Table, hour: Table, d: int, n: nat, g: Group, m: nat)
    requires m <= n
    ensures SumRange(RollHours(minute, hour, d, n), g, d, HourStart(d, m)) ==
            SumRange(minute, g, d, HourStart(d, m)) + SumRange(Leftover(minute, hour, d, n), g, d, HourStart(d, m))
  {
    hide RollHours, Leftover;
    if m == 0 {
      hide *;
      NoTime(RollHours(minute, hour, d, n), g, d);
      NoTime(minute, g, d);
      NoTime(Leftover(minute, hour, d, n), g, d);
      StartOfDay(d);
    } else {
      HoursConserve(minute, hour, d, n, g, m - 1);
      HourConserves(minute, hour, d, n, g, m - 1);
      SumSplits(RollHours(minute, hour, d, n), g, d, HourStart(d, m - 1), HourStart(d, m));
      SumSplits(minute, g, d, HourStart(d, m - 1), HourStart(d, m));
      SumSplits(Leftover(minute, hour, d, n), g, d, HourStart(d, m - 1), HourStart(d, m));
    }
  }

  lemma StartOfDay(d: int)
    ensures HourStart(d, 0) == d
  {
  }

  lemma NoTime(t: Table, g: Group, d: int)
    ensures SumRange(t, g, d, d) == 0
  {
  }

  /** The day after its 24 hours were rolled up and then itself: every row is the sum of that day's minutes, and of
      what hour rows there were that the roll-up did not write. So it is the sum of the minutes exactly when those
      leftovers come to nothing. */
  lemma DayConserves(minute: Table, hour: Table, day: Table, d: int, g: Group)
    ensures var hours := RollHours(minute, hour, d, 24);
            var after := Rollup(hours, day, d, d + DAY);
            HasRows(hours, g, d, d + DAY) ==>
              At(after, Key(d, g)) == SumRange(minute, g, d, d + DAY)
                                      + SumRange(Leftover(minute, hour, d, 24), g, d, d + DAY)
  {
    hide RollHours, Rollup, SumRange, HasRows, Leftover, At;
    var hours := RollHours(minute, hour, d, 24);
    HoursConserve(minute, hour, d, 24, g, 24);
    assert HourStart(d, 24) == d + DAY;
    RollupAt(hours, day, d, d + DAY, Key(d, g));
  }

  // ---------- from the recorded points to the day ----------

  datatype Db = Db(minute: Table, hour: Table, day: Table)

  /** Recording, and rolling up an hour or a day that starts where the program's do. */
  datatype Step = Record(points: seq<Point>) | ToHour(hourStart: int) | ToDay(dayStart: int)

  ghost predicate Aligned(s: Step) {
    match s
    case Record(_) => true
    case ToHour(h) => h % HOUR == 0
    case ToDay(d) => d % DAY == 0
  }

  function Next(db: Db, s: Step): Db {
    match s
    case Record(points) => if DistinctPoints(points) then db.(minute := AddAll(db.minute, points)) else db
    case ToHour(h) => db.(hour := Rollup(db.minute, db.hour, h, h + HOUR))
    case ToDay(d) => db.(day := Rollup(db.hour, db.day, d, d + DAY))
  }

  function Run(db: Db, steps: seq<Step>): Db
    decreases |steps|
  {
    if steps == [] then db else Next(Run(db, steps[..|steps| - 1]), steps[|steps| - 1])
  }

  /** All points recorded in a run. */
  function Recorded(steps: seq<Step>): seq<Point> {
    if steps == [] then []
    else
      var s := steps[|steps| - 1];
      Recorded(steps[..|steps| - 1]) + if s.Record? && DistinctPoints(s.points) then s.points else []
  }

  /** The minutes hold what was recorded, and every hour row starts an hour that has minutes. */
  ghost predicate Inv(db: Db, log: seq<Point>) {
    && db.minute == AddAll(map[], log)
    && forall k :: k in db.hour ==> k.period % HOUR == 0 && HasRows(db.minute, k.group, k.period, k.period + HOUR)
  }

  lemma {:induction false} AddAllAppend(t: Table, a: seq<Point>, b: seq<Point>)
    ensures AddAll(t, a + b) == AddAll(AddAll(t, a), b)
    ensures forall k :: k in AddAll(t, a) ==> k in AddAll(AddAll(t, a), b)
  {
    if b == [] {
      assert a + b == a;
    } else {
      assert (a + b)[..|a + b| - 1] == a + b[..|b| - 1];
      AddAllAppend(t, a, b[..|b| - 1]);
    }
  }

  lemma HourKeeps(db: Db, log: seq<Point>, h: int)
    requires Inv(db, log) && h % HOUR == 0
    ensures Inv(Next(db, ToHour(h)), log)
  {
    hide AddAll, SumRange, HasRows, Rollup;
    forall k | k in Rollup(db.minute, db.hour, h, h + HOUR)
      ensures k.period % HOUR == 0 && HasRows(db.minute, k.group, k.period, k.period + HOUR)
    {
      RollupAt(db.minute, db.hour, h, h + HOUR, k);
    }
  }

  lemma MoreRows(s: Table, t: Table, g: Group, from: int, until: int)
    requires HasRows(s, g, from, until) && forall k :: k in s ==> k in t
    ensures HasRows(t, g, from, until)
  {
  }

  lemma {:induction false} RunKeeps(steps: seq<Step>)
    requires forall s :: s in steps ==> Aligned(s)
    ensures Inv(Run(Db(map[], map[], map[]), steps), Recorded(steps))
  {
    hide AddAll, DistinctPoints, SumRange, HasRows, Rollup;
    if steps == [] {
      NothingRecorded();
    } else {
      var init, s := steps[..|steps| - 1], steps[|steps| - 1];
      assert s in steps;
      RunKeeps(init);
      var db := Run(Db(map[], map[], map[]), init);
      match s
      case Record(points) =>
        AddAllAppend(map[], Recorded(init), points);
        forall k | k in db.hour && DistinctPoints(points)
          ensures HasRows(AddAll(db.minute, points), k.group, k.period, k.period + HOUR)
        {
          MoreRows(db.minute, AddAll(db.minute, points), k.group, k.period, k.period + HOUR);
        }
        assert Recorded(init) + [] == Recorded(init);
      case ToHour(h) =>
        HourKeeps(db, Recorded(init), h);
        assert Recorded(init) + [] == Recorded(init);
      case ToDay(d) =>
        assert Recorded(init) + [] == Recorded(init);
    }
  }

  lemma NothingRecorded()
    ensures AddAll(map[], []) == map[]
  {
  }

  /** The hour of the day that an instant is in. */
  lemma HourOf(d: int, p: int) returns (i: nat)
    requires d <= p < d + DAY
    ensures i < 24 && HourStart(d, i) <= p < HourStart(d, i + 1)
  {
    i := 0;
    while HourStart(d, i + 1) <= p
      invariant HourStart(d, i) <= p
      decreases p - HourStart(d, i)
    {
      i := i + 1;
    }
  }

  lemma HourIsStart(d: int, p: int, i: nat)
    requires d % DAY == 0 && p % HOUR == 0 && HourStart(d, i) <= p < HourStart(d, i + 1)
    ensures p == HourStart(d, i)
  {
    var days, hours := d / DAY, p / HOUR;
    assert d == days * DAY && p == hours * HOUR;
    assert hours - 24 * days - i == 0;
  }

  /** However recording and rolling up were interleaved before: once the 24 hours of a day and then the day are rolled
      up, a group's row is the sum of all its points recorded in that day. */
  lemma DayIsWhatWasRecorded(steps: seq<Step>, d: int, g: Group)
    requires (forall s :: s in steps ==> Aligned(s)) && d % DAY == 0
    ensures var db := Run(Db(map[], map[], map[]), steps);
            var after := Rollup(RollHours(db.minute, db.hour, d, 24), db.day, d, d + DAY);
            HasRows(db.minute, g, d, d + DAY) ==>
              At(after, Key(d, g)) == PointSum(Recorded(steps), g, d, d + DAY)
  {
    hide RollHours, Rollup, AddAll, SumRange, PointSum, At, Run, Recorded;
    RunKeeps(steps);
    var db := Run(Db(map[], map[], map[]), steps);
    if HasRows(db.minute, g, d, d + DAY) {
      DayConserves(db.minute, db.hour, db.day, d, g);
      RolledWhereMinutes(db.minute, db.hour, d, g);
      NoLeftover(db, Recorded(steps), d, g);
      RecordingConserves(map[], Recorded(steps), g, d, d + DAY);
      NothingToSum(map[], g, d, d + DAY);
    }
  }

  lemma RolledWhereMinutes(minute: Table, hour: Table, d: int, g: Group)
    requires HasRows(minute, g, d, d + DAY)
    ensures HasRows(RollHours(minute, hour, d, 24), g, d, d + DAY)
  {
    hide RollHours;
    var k :| k in minute && k.group == g && d <= k.period < d + DAY;
    var i := HourOf(d, k.period);
    assert HasRows(minute, g, HourStart(d, i), HourStart(d, i + 1));
    FirstWritten(minute, d, 24, g, i);
    RollHoursAt(minute, hour, d, 24, Key(HourStart(d, i), g));
  }

  lemma NoLeftover(db: Db, log: seq<Point>, d: int, g: Group)
    requires Inv(db, log) && d % DAY == 0
    ensures SumRange(Leftover(db.minute, db.hour, d, 24), g, d, d + DAY) == 0
  {
    hide SumRange, AddAll, HasRows;
    forall k | k in db.hour && d <= k.period < d + DAY ensures Written(db.minute, d, 24, k) {
      var i := HourOf(d, k.period);
      HourIsStart(d, k.period, i);
      assert HourStart(d, i + 1) == k.period + HOUR;
    }
    NothingToSum(Leftover(db.minute, db.hour, d, 24), g, d, d + DAY);
  }
}
