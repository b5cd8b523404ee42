/** The rolling one-hour limit on sent messages. Times are nanoseconds since the zero time. */
module SmsQuota {
  import opened Common

  const WINDOW := 3600 * SECOND
  const WINDOW_SECONDS := 3600

  datatype Status = Status(limit: nat, used: nat, remaining: nat, unlimited: bool)

  datatype Outcome = Accepted(status: Status) | Limited(status: Status, retryAfterSeconds: int)

  function NewStatus(limit: int, used: int): Status {
    var l: nat := if limit < 0 then 0 else limit;
    var u: nat := if used < 0 then 0 else used;
    Status(l, u, if l == 0 || l <= u then 0 else l - u, l == 0)
  }

  /** How many attempts are later than `since`. */
  function CountAfter(ts: seq<int>, since: int): (n: nat)
    ensures n <= |ts|
  {
    if ts == [] then 0
    else CountAfter(ts[..|ts| - 1], since) + if ts[|ts| - 1] > since then 1 else 0
  }

  /** The attempts that survive pruning at `cut`. */
  function Prune(ts: seq<int>, cut: int): seq<int> {
    if ts == [] then []
    else Prune(ts[..|ts| - 1], cut) + if ts[|ts| - 1] < cut then [] else [ts[|ts| - 1]]
  }

  function RetryAfterSeconds(oldest: int, now: int): int {
    if oldest == 0 then WINDOW_SECONDS
    else
      var until := oldest + WINDOW - now;
      // the program divides towards zero
      var n := until + SECOND - 1;
      var sec := if n >= 0 then n / SECOND else -((-n) / SECOND);
      if sec < 1 then 1 else sec
  }

  predicate Admitted(table: seq<int>, limit: int, now: int) {
    limit <= 0 || CountAfter(table, now - WINDOW) < limit
  }

  /** One reservation; `pruning` tells whether old rows are dropped, as the program does. */
  function Reserve(table: seq<int>, limit: int, now: int, pruning: bool): seq<int> {
    if !Admitted(table, limit, now) then table
    else if pruning then Prune(table + [now], now - 2 * WINDOW)
    else table + [now]
  }

  ghost predicate NoneLater(ts: seq<int>, now: int) {
    forall i :: 0 <= i < |ts| ==> ts[i] <= now
  }

  /** `oldest` is the earliest attempt later than `since`. */
  ghost predicate IsOldest(ts: seq<int>, since: int, oldest: int) {
    oldest in ts && oldest > since && forall t :: t in ts && t > since ==> oldest <= t
  }

  /** The earliest attempt later than `since` among `count` of them; `since` itself while there is none. */
  ghost predicate OldestSoFar(ts: seq<int>, since: int, count: nat, oldest: int) {
    if count == 0 then oldest == since && forall t :: t in ts ==> t <= since
    else IsOldest(ts, since, oldest)
  }

  lemma OldestAppend(ts: seq<int>, t: int, since: int, count: nat, oldest: int)
    requires OldestSoFar(ts, since, count, oldest)
    ensures OldestSoFar(ts + [t], since, if t > since then count + 1 else count,
                        if t > since && (count == 0 || t < oldest) then t else oldest)
  {
    assert forall x :: x in ts + [t] <==> x in ts || x == t;
  }

  // ---------- the quota as the program keeps it ----------

  class Quota {
    var attempts: seq<int>

    constructor ()
      ensures attempts == []
    {
      attempts := [];
    }

    method CountSince(since: int) returns (count: nat, oldest: int)
      ensures count == CountAfter(attempts, since)
      ensures if count == 0 then oldest == since
              else IsOldest(attempts, since, oldest)
    {
      count, oldest := 0, since;
      for i := 0 to |attempts|
        invariant count == CountAfter(attempts[..i], since)
        invariant OldestSoFar(attempts[..i], since, count, oldest)
      {
        hide CountAfter, OldestSoFar;
        CountAppend(attempts[..i], attempts[i], since);
        OldestAppend(attempts[..i], attempts[i], since, count, oldest);
        assert attempts[..i + 1] == attempts[..i] + [attempts[i]];
        if attempts[i] > since {
          if count == 0 || attempts[i] < oldest { oldest := attempts[i]; }
          count := count + 1;
        }
      }
      assert attempts[..|attempts|] == attempts;
    }

    method PruneBefore(cut: int)
      modifies this
      ensures attempts == Prune(old(attempts), cut)
    {
      var kept: seq<int> := [];
      for i := 0 to |attempts|
        invariant kept == Prune(attempts[..i], cut)
        invariant attempts == old(attempts)
      {
        assert attempts[..i + 1][..i] == attempts[..i];
        if !(attempts[i] < cut) { kept := kept + [attempts[i]]; }
      }
      assert attempts[..|attempts|] == attempts;
      attempts := kept;
    }

    method ReserveSMSSend(limit: int, now: int) returns (outcome: Outcome)
      modifies this
      ensures attempts == Reserve(old(attempts), limit, now, true)
      ensures outcome.Accepted? <==> Admitted(old(attempts), limit, now)
      ensures var used := CountAfter(old(attempts), now - WINDOW);
              if outcome.Accepted? then outcome.status == NewStatus(limit, used + 1)
              else outcome.status == NewStatus(limit, used) && exists oldest ::
                     IsOldest(old(attempts), now - WINDOW, oldest)
                     && outcome.retryAfterSeconds == RetryAfterSeconds(oldest, now)
    {
      var count, oldest := CountSince(now - WINDOW);
      if limit > 0 && count >= limit {
        return Limited(NewStatus(limit, count), RetryAfterSeconds(oldest, now));
      }
      attempts := attempts + [now];
      PruneBefore(now - 2 * WINDOW);
      return Accepted(NewStatus(limit, count + 1));
    }
  }

  // ---------- pruning is invisible ----------

  lemma {:induction false} PruneKeepsCount(ts: seq<int>, cut: int, since: int)
    requires cut <= since + 1
    ensures CountAfter(Prune(ts, cut), since) == CountAfter(ts, since)
  {
    if ts != [] {
      var init, t := ts[..|ts| - 1], ts[|ts| - 1];
      PruneKeepsCount(init, cut, since);
      if t >= cut {
        assert Prune(ts, cut) == Prune(init, cut) + [t];
        assert Prune(ts, cut)[..|Prune(ts, cut)| - 1] == Prune(init, cut);
      } else {
        assert Prune(ts, cut) == Prune(init, cut);
      }
    }
  }

  datatype Request = Request(limit: int, now: int)

  /** The clock does not run back. */
  ghost predicate Ordered(rs: seq<Request>, from: int)
    decreases |rs|
  {
    rs == [] || (rs[0].now >= from && Ordered(rs[1..], rs[0].now))
  }

  /** Which requests of a run are accepted. */
  function Decisions(table: seq<int>, rs: seq<Request>, pruning: bool): seq<bool>
    decreases |rs|
  {
    if rs == [] then []
    else [Admitted(table, rs[0].limit, rs[0].now)]
         + Decisions(Reserve(table, rs[0].limit, rs[0].now, pruning), rs[1..], pruning)
  }

  /** Two tables that look the same to every request from `now` on. */
  ghost predicate SameFrom(a: seq<int>, b: seq<int>, now: int) {
    forall since :: since >= now - WINDOW ==> CountAfter(a, since) == CountAfter(b, since)
  }

  lemma CountAppend(ts: seq<int>, t: int, since: int)
    ensures CountAfter(ts + [t], since) == CountAfter(ts, since) + if t > since then 1 else 0
  {
    assert (ts + [t])[..|ts|] == ts;
  }

  /** A program that never pruned would take the same decisions, in every run. */
  lemma {:induction false} PruningIsInvisible(a: seq<int>, b: seq<int>, rs: seq<Request>, from: int)
    requires SameFrom(a, b, from) && Ordered(rs, from)
    ensures Decisions(a, rs, true) == Decisions(b, rs, false)
    decreases |rs|
  {
    if rs != [] {
      var r := rs[0];
      var a', b' := Reserve(a, r.limit, r.now, true), Reserve(b, r.limit, r.now, false);
      assert Admitted(a, r.limit, r.now) == Admitted(b, r.limit, r.now);
      forall since | since >= r.now - WINDOW ensures CountAfter(a', since) == CountAfter(b', since) {
        assert CountAfter(a, since) == CountAfter(b, since);
        if Admitted(a, r.limit, r.now) {
          PruneKeepsCount(a + [r.now], r.now - 2 * WINDOW, since);
          CountAppend(a, r.now, since);
          CountAppend(b, r.now, since);
        }
      }
      PruningIsInvisible(a', b', rs[1..], r.now);
    }
  }

  // ---------- the limit ----------

  /** The accepted sends of a run without pruning, after those of `table`. */
  function Sends(table: seq<int>, rs: seq<Request>): seq<int>
    decreases |rs|
  {
    if rs == [] then table else Sends(Reserve(table, rs[0].limit, rs[0].now, false), rs[1..])
  }

  /** The accepted sends in the hour after `w`, its end included. */
  function InHour(ts: seq<int>, w: int): int {
    CountAfter(ts, w) - CountAfter(ts, w + WINDOW)
  }

  ghost predicate WithinLimit(ts: seq<int>, limit: nat) {
    forall w :: InHour(ts, w) <= limit
  }

  lemma {:induction false} CountMonotone(ts: seq<int>, a: int, b: int)
    requires a <= b
    ensures CountAfter(ts, b) <= CountAfter(ts, a)
  {
    if ts != [] { CountMonotone(ts[..|ts| - 1], a, b); }
  }

  lemma {:induction false} NoneAfter(ts: seq<int>, now: int, since: int)
    requires NoneLater(ts, now) && since >= now
    ensures CountAfter(ts, since) == 0
  {
    if ts != [] { NoneAfter(ts[..|ts| - 1], now, since); }
  }

  /** An admitted send keeps every hour within the limit. */
  lemma SendKeepsLimit(ts: seq<int>, limit: int, now: int, max: nat)
    requires NoneLater(ts, now) && WithinLimit(ts, max) && 0 < limit <= max && Admitted(ts, limit, now)
    ensures WithinLimit(ts + [now], max)
  {
    forall w ensures InHour(ts + [now], w) <= max {
      CountAppend(ts, now, w);
      CountAppend(ts, now, w + WINDOW);
      assert InHour(ts, w) <= max;
      if w < now <= w + WINDOW {
        NoneAfter(ts, now, w + WINDOW);
        CountMonotone(ts, now - WINDOW, w);
      }
    }
  }

  /** A run that never prunes keeps every hour within the largest of its limits. */
  lemma {:induction false} UnprunedWithinLimit(ts: seq<int>, rs: seq<Request>, from: int, max: nat)
    requires NoneLater(ts, from) && WithinLimit(ts, max) && Ordered(rs, from)
    requires forall r :: r in rs ==> 0 < r.limit <= max
    ensures WithinLimit(Sends(ts, rs), max)
    decreases |rs|
  {
    if rs != [] {
      var r := rs[0];
      if Admitted(ts, r.limit, r.now) { SendKeepsLimit(ts, r.limit, r.now, max); }
      UnprunedWithinLimit(Reserve(ts, r.limit, r.now, false), rs[1..], r.now, max);
    }
  }

  /** The instants of the requests that a list of decisions accepts. */
  function Times(rs: seq<Request>, decisions: seq<bool>): seq<int>
    requires |decisions| == |rs|
  {
    if rs == [] then [] else (if decisions[0] then [rs[0].now] else []) + Times(rs[1..], decisions[1..])
  }

  /** The accepted sends of a run from a table of earlier attempts. */
  function Accepted(table: seq<int>, rs: seq<Request>, pruning: bool): seq<int> {
    DecidesAll(table, rs, pruning);
    Times(rs, Decisions(table, rs, pruning))
  }

  lemma DecidesAll(table: seq<int>, rs: seq<Request>, pruning: bool)
    ensures |Decisions(table, rs, pruning)| == |rs|
    decreases |rs|
  {
    if rs != [] { DecidesAll(Reserve(table, rs[0].limit, rs[0].now, pruning), rs[1..], pruning); }
  }

  lemma {:induction false} SendsAreAccepted(ts: seq<int>, rs: seq<Request>)
    ensures Sends(ts, rs) == ts + Accepted(ts, rs, false)
    decreases |rs|
  {
    hide CountAfter;
    if rs == [] {
      assert ts + [] == ts;
    } else {
      var r := rs[0];
      var next := Reserve(ts, r.limit, r.now, false);
      SendsAreAccepted(next, rs[1..]);
      assert Decisions(ts, rs, false)[1..] == Decisions(next, rs[1..], false);
      var first := if Admitted(ts, r.limit, r.now) then [r.now] else [];
      assert Accepted(ts, rs, false) == first + Accepted(next, rs[1..], false);
      assert next == ts + first;
      assert ts + first + Accepted(next, rs[1..], false) == ts + (first + Accepted(next, rs[1..], false));
    }
  }

  /** The program, which prunes: whatever positive limits up to `max` a run uses, no hour ever holds more than `max`
      sends, those before the run and those it accepts. */
  lemma QuotaHolds(ts: seq<int>, rs: seq<Request>, from: int, max: nat)
    requires NoneLater(ts, from) && WithinLimit(ts, max) && Ordered(rs, from)
    requires forall r :: r in rs ==> 0 < r.limit <= max
    ensures WithinLimit(ts + Accepted(ts, rs, true), max)
  {
    hide WithinLimit, NoneLater;
    PruningIsInvisible(ts, ts, rs, from);
    SendsAreAccepted(ts, rs);
    UnprunedWithinLimit(ts, rs, from, max);
  }

  /** An hour with both its ends counted can hold more: one send at each end, with a limit of one. */
  lemma BothEndsCounted(t: int)
    ensures Accepted([], [Request(1, t), Request(1, t + WINDOW)], true) == [t, t + WINDOW]
  {
    var rs := [Request(1, t), Request(1, t + WINDOW)];
    PruningIsInvisible([], [], rs, t) by { assert rs[1..] == [rs[1]]; }
    SendsAreAccepted([], rs);
    assert Reserve([], 1, t, false) == [t];
    CountAppend([], t, t);
    assert [] + [t] == [t];
    assert Reserve([t], 1, t + WINDOW, false) == [t, t + WINDOW];
    assert rs[1..] == [rs[1]] && rs[1..][1..] == [];
    assert Sends([t], [rs[1]]) == Sends([t, t + WINDOW], []);
    assert [] + Accepted([], rs, false) == Accepted([], rs, false);
  }

  // ---------- when to try again ----------

  lemma {:induction false} OneLeaves(ts: seq<int>, oldest: int, since: int)
    requires oldest in ts && since >= oldest
    ensures forall low :: low < oldest ==> CountAfter(ts, since) < CountAfter(ts, low)
  {
    var init, t := ts[..|ts| - 1], ts[|ts| - 1];
    assert ts == init + [t];
    forall low | low < oldest ensures CountAfter(ts, since) < CountAfter(ts, low) {
      CountMonotone(init, low, since);
      if oldest in init { OneLeaves(init, oldest, since); }
    }
  }

  lemma {:induction false} NoneLeaves(ts: seq<int>, low: int, since: int)
    requires low <= since && forall t :: t in ts && t > low ==> t > since
    ensures CountAfter(ts, since) == CountAfter(ts, low)
  {
    if ts != [] {
      var init, t := ts[..|ts| - 1], ts[|ts| - 1];
      assert t in ts && forall u :: u in init ==> u in ts;
      NoneLeaves(init, low, since);
    }
  }

  /** `x` is the attempt of the window that has to leave it before a send is admitted: the `limit`-th newest. */
  ghost predicate Deciding(ts: seq<int>, limit: nat, now: int, x: int) {
    x > now - WINDOW && CountAfter(ts, x) < limit <= CountAfter(ts, x - 1)
  }

  /** After a refusal there is such an attempt. */
  lemma {:induction false} SomeDeciding(ts: seq<int>, limit: nat, now: int, from: int) returns (x: int)
    requires now - WINDOW <= from && CountAfter(ts, from) < limit <= CountAfter(ts, now - WINDOW)
    ensures Deciding(ts, limit, now, x)
    decreases from - (now - WINDOW)
  {
    hide CountAfter;
    if CountAfter(ts, from - 1) < limit && from - 1 >= now - WINDOW {
      x := SomeDeciding(ts, limit, now, from - 1);
    } else {
      x := from;
    }
  }

  /** A retry `k` seconds after a refusal, with no send in between. */
  predicate AdmittedAfter(ts: seq<int>, limit: int, now: int, k: nat) {
    Admitted(ts, limit, now + k * SECOND)
  }

  /** The right number of seconds: a retry is admitted from the instant the deciding attempt leaves the window. */
  lemma RetryExactly(ts: seq<int>, limit: nat, now: int, x: int, k: nat)
    requires NoneLater(ts, now) && now >= WINDOW && Deciding(ts, limit, now, x)
    ensures AdmittedAfter(ts, limit, now, k) <==> k >= RetryAfterSeconds(x, now)
  {
    var since := now + k * SECOND - WINDOW;
    if x > now { NoneAfter(ts, now, x - 1); }
    var r := RetryAfterSeconds(x, now);
    assert r * SECOND >= x + WINDOW - now > (r - 1) * SECOND;
    hide CountAfter, RetryAfterSeconds;
    if k >= r {
      assert since >= x;
      CountMonotone(ts, x, since);
    } else {
      assert since <= x - 1;
      CountMonotone(ts, since, x - 1);
    }
  }

  /** What the program announces is computed from the oldest attempt of the window. It is never too late, and it is
      right for every retry if and only if the deciding attempt asks for the same number of seconds. */
  lemma AnnouncedExactly(ts: seq<int>, limit: nat, now: int, oldest: int, x: int)
    requires NoneLater(ts, now) && now >= WINDOW && Deciding(ts, limit, now, x) && IsOldest(ts, now - WINDOW, oldest)
    ensures RetryAfterSeconds(oldest, now) <= RetryAfterSeconds(x, now)
    ensures (forall k: nat :: AdmittedAfter(ts, limit, now, k) <==> k >= RetryAfterSeconds(oldest, now))
            <==> RetryAfterSeconds(oldest, now) == RetryAfterSeconds(x, now)
  {
    forall k: nat ensures AdmittedAfter(ts, limit, now, k) <==> k >= RetryAfterSeconds(x, now) {
      RetryExactly(ts, limit, now, x, k);
    }
    if x < oldest {
      NoneLeaves(ts, x - 1, x);
    }
    assert oldest <= x;
    var announced: nat := RetryAfterSeconds(oldest, now);
    assert AdmittedAfter(ts, limit, now, announced) <==> announced >= RetryAfterSeconds(x, now);
  }

  /** With exactly the limit used the oldest attempt decides, so a retry is admitted after the announced number of whole
      seconds and not after any smaller one. */
  lemma RetryAfterIsExact(ts: seq<int>, limit: nat, now: int, oldest: int, k: nat)
    requires limit > 0 && CountAfter(ts, now - WINDOW) == limit && NoneLater(ts, now) && now >= WINDOW
    requires IsOldest(ts, now - WINDOW, oldest)
    ensures AdmittedAfter(ts, limit, now, k) <==> k >= RetryAfterSeconds(oldest, now)
  {
    OneLeaves(ts, oldest, oldest);
    NoneLeaves(ts, now - WINDOW, oldest - 1);
    RetryExactly(ts, limit, now, oldest, k);
  }

  /** With more than the limit used, as after lowering it, the announced time can be too early. */
  lemma RetryAfterLoweredLimit()
    ensures var ts := [WINDOW, WINDOW + 2 * SECOND];
            var now := WINDOW + 3 * SECOND;
            CountAfter(ts, now - WINDOW) == 2
            && !Admitted(ts, 1, now + RetryAfterSeconds(WINDOW, now) * SECOND)
  {
    var ts := [WINDOW, WINDOW + 2 * SECOND];
    var now := WINDOW + 3 * SECOND;
    assert ts[..1] == [WINDOW] && [WINDOW][..0] == [];
    assert RetryAfterSeconds(WINDOW, now) == 3597;
    assert CountAfter([WINDOW], now - WINDOW) == 1;
    assert CountAfter(ts, now + 3597 * SECOND - WINDOW) >= 1;
  }
}
