/** The send limit in plain numbers: an hour is 3600 seconds of a billion nanoseconds, and sends are counted one by
    one. */
module SmsHours {
  import opened Common
  import opened SmsQuota

  /** The sends after one instant and up to another. */
  function SentBetween(ts: seq<int>, after: int, until: int): set<nat> {
    set i: nat | i < |ts| && after < ts[i] <= until
  }

  function SentAfter(ts: seq<int>, after: int): set<nat> {
    set i: nat | i < |ts| && after < ts[i]
  }

  /** The sends of one hour, without its beginning. */
  function SentInHour(ts: seq<int>, w: int): set<nat> {
    SentBetween(ts, w, w + 3_600_000_000_000)
  }

  lemma {:induction false} CountIsSize(ts: seq<int>, after: int)
    ensures CountAfter(ts, after) == |SentAfter(ts, after)|
  {
    if ts != [] {
      var n := |ts| - 1;
      CountIsSize(ts[..n], after);
      assert SentAfter(ts, after) == SentAfter(ts[..n], after) + if ts[n] > after then {n} else {};
    }
  }

  lemma BetweenIsDifference(ts: seq<int>, after: int, until: int)
    requires after <= until
    ensures |SentBetween(ts, after, until)| == CountAfter(ts, after) - CountAfter(ts, until)
  {
    CountIsSize(ts, after);
    CountIsSize(ts, until);
    assert SentAfter(ts, until) <= SentAfter(ts, after);
    assert SentBetween(ts, after, until) == SentAfter(ts, after) - SentAfter(ts, until);
  }

  /** The bound that the quota theorem keeps is one on the sends of every hour. */
  lemma LimitIsPerHour(ts: seq<int>, max: nat)
    ensures WithinLimit(ts, max) <==> forall w :: |SentInHour(ts, w)| <= max
  {
    forall w ensures |SentInHour(ts, w)| == InHour(ts, w) {
      BetweenIsDifference(ts, w, w + 3_600_000_000_000);
    }
  }

  /** A send is refused exactly when the last hour holds as many as a positive limit. */
  lemma RefusedExactly(ts: seq<int>, limit: int, now: int)
    ensures !Admitted(ts, limit, now) <==> 0 < limit <= |SentAfter(ts, now - 3_600_000_000_000)|
  {
    CountIsSize(ts, now - 3_600_000_000_000);
  }

  lemma {:induction false} PruneExactly(ts: seq<int>, cut: int, t: int)
    ensures multiset(Prune(ts, cut))[t] == if t >= cut then multiset(ts)[t] else 0
  {
    if ts != [] {
      var n := |ts| - 1;
      assert ts == ts[..n] + [ts[n]];
      PruneExactly(ts[..n], cut, t);
    }
  }

  /** An accepted send is recorded, and what is then older than two hours is forgotten, nothing else; a refused one
      changes nothing. */
  lemma RecordedExactly(ts: seq<int>, limit: int, now: int, t: int)
    ensures Admitted(ts, limit, now) ==>
              multiset(Reserve(ts, limit, now, true))[t] ==
              if t >= now - 7_200_000_000_000 then multiset(ts)[t] + (if t == now then 1 else 0) else 0
    ensures !Admitted(ts, limit, now) ==> Reserve(ts, limit, now, true) == ts
  {
    PruneExactly(ts + [now], now - 7_200_000_000_000, t);
  }

  /** What is used and what remains make up the limit, until more is used; and no limit is none. */
  lemma StatusSays(limit: int, used: nat)
    ensures var s := NewStatus(limit, used);
            && s.used == used && (s.unlimited <==> limit <= 0)
            && (0 < limit ==> s.limit == limit && s.used + s.remaining == if used < limit then limit else used)
            && (limit <= 0 ==> s.limit == 0 && s.remaining == 0)
  {
  }

  /** The announced wait without a known attempt is the whole hour, and otherwise the seconds to its end, at least
      one. */
  lemma WaitSays(oldest: int, now: int)
    ensures var wait := RetryAfterSeconds(oldest, now);
            && (oldest == 0 ==> wait == 3600)
            && (oldest != 0 && oldest + 3_600_000_000_000 > now ==>
                  (wait - 1) * 1_000_000_000 < oldest + 3_600_000_000_000 - now <= wait * 1_000_000_000)
            && (oldest != 0 && oldest + 3_600_000_000_000 <= now ==> wait == 1)
  {
  }
}
