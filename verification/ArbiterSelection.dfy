/** Who may be granted in one state: the priority rule, overtaking, and progress. */
module ArbiterSelection {
  import opened ArbiterModel
  import opened ArbiterInvariants

  /** The scan reaches position `i` without stopping before it or at it. */
  ghost predicate Scanned(o: Options, s: State, i: nat) {
    i < |s.queue| && forall k :: 0 <= k <= i ==> !StopsScan(o, s, s.queue[k])
  }

  ghost predicate GradeEmpty(o: Options, s: State, now: int, g: Grade) {
    forall j: nat :: Scanned(o, s, j) ==> !InGrade(o, s, now, g, s.queue[j])
  }

  ghost predicate FirstOfGrade(o: Options, s: State, now: int, g: Grade, i: nat) {
    Scanned(o, s, i) && InGrade(o, s, now, g, s.queue[i])
    && forall j :: 0 <= j < i ==> !InGrade(o, s, now, g, s.queue[j])
  }

  /** The priority rule without the scan: aged non-AKA first, then AKA, then anyone, each oldest first. */
  ghost predicate Chosen(o: Options, s: State, now: int, i: nat) {
    || FirstOfGrade(o, s, now, AgedNonAKA, i)
    || (GradeEmpty(o, s, now, AgedNonAKA) && FirstOfGrade(o, s, now, AKA, i))
    || (GradeEmpty(o, s, now, AgedNonAKA) && GradeEmpty(o, s, now, AKA) && FirstOfGrade(o, s, now, Any, i))
  }

  lemma ScanEndMeaning(o: Options, s: State, i: nat)
    requires i < |s.queue|
    ensures i < ScanEnd(o, s, |s.queue|) <==> Scanned(o, s, i)
  {
  }

  lemma GradeMeaning(o: Options, s: State, now: int, g: Grade)
    ensures var n := ScanEnd(o, s, |s.queue|);
            var f := FirstInGrade(o, s, now, g, n);
            (f < n ==> FirstOfGrade(o, s, now, g, f)) && (f == n ==> GradeEmpty(o, s, now, g))
  {
    var n := ScanEnd(o, s, |s.queue|);
    forall j: nat | Scanned(o, s, j) ensures j < n { ScanEndMeaning(o, s, j); }
    var f := FirstInGrade(o, s, now, g, n);
    if f < n { ScanEndMeaning(o, s, f); }
  }

  /** The scan with its three remembered tickets computes exactly the priority rule. */
  lemma SelectionRule(o: Options, s: State, now: int, i: nat)
    requires InvIds(s) && i < |s.queue|
    ensures SelectedTransport(o, s, now) == s.queue[i].id <==> Chosen(o, s, now, i)
  {
    GradeMeaning(o, s, now, AgedNonAKA);
    GradeMeaning(o, s, now, AKA);
    GradeMeaning(o, s, now, Any);
    var n := ScanEnd(o, s, |s.queue|);
    forall g | FirstOfGrade(o, s, now, g, i)
      ensures i == FirstInGrade(o, s, now, g, n) < n
    {
      ScanEndMeaning(o, s, i);
    }
  }

  /** A lease is granted from the head of the queue or by the priority rule. */
  lemma GrantedFrom(o: Options, s: State, i: nat, now: int)
    requires InvIds(s) && i < |s.queue| && CanAcquireLease(o, s, s.queue[i], now)
    ensures s.queue[i].leaseType != Transport ==> i == 0
    ensures s.queue[i].leaseType == Transport ==> Chosen(o, s, now, i)
  {
    if s.queue[i].leaseType == Transport { SelectionRule(o, s, now, i); }
  }

  // ---------- overtaking ----------

  /** A queued barrier, session or one-shot. */
  predicate ClosesQueue(t: Ticket) {
    t.kind == BarrierWait || t.leaseType != Transport
  }

  /** No lease is granted from behind a queued barrier, whatever classes it blocks, nor from behind a session or
      one-shot. */
  lemma LeaseStaysBehind(o: Options, s: State, b: nat, i: nat, now: int)
    requires InvIds(s) && b < i < |s.queue| && ClosesQueue(s.queue[b])
    ensures !CanAcquireLease(o, s, s.queue[i], now)
  {
    if CanAcquireLease(o, s, s.queue[i], now) {
      GrantedFrom(o, s, i, now);
      assert StopsScan(o, s, s.queue[b]);
    }
  }

  /** An exclusive transport that has waited long enough, other than an AKA: an AKA goes before transports that have not
      aged, but ageing never helps it, and each that ages goes before it. */
  ghost predicate AgedExclusive(s: State, x: nat, now: int) {
    x < |s.queue| && s.queue[x].leaseType == Transport && s.queue[x].scope == Exclusive
    && s.queue[x].apduClass != USIMAKA && Aged(s.queue[x], now)
  }

  /** Nothing is granted from behind an aged exclusive transport whose class no active barrier blocks. */
  lemma LeaseStaysBehindAged(o: Options, s: State, x: nat, i: nat, now: int)
    requires InvIds(s) && x < i < |s.queue| && AgedExclusive(s, x, now) && !IsBlocked(s, s.queue[x].apduClass)
    ensures !CanAcquireLease(o, s, s.queue[i], now)
  {
    if CanAcquireLease(o, s, s.queue[i], now) {
      GrantedFrom(o, s, i, now);
      assert Scanned(o, s, i);
      assert !StopsScan(o, s, s.queue[x]);
      assert InGrade(o, s, now, AgedNonAKA, s.queue[x]);
      assert Scanned(o, s, x);
    }
  }

  ghost predicate SameLane(t: Ticket, u: Ticket) {
    && t.leaseType == u.leaseType == Transport
    && t.apduClass == u.apduClass && t.scope == u.scope && t.channel == u.channel
  }

  /** Of two transports in one lane the later can be granted first in exactly one way: it has aged and the
      earlier has not. */
  lemma LaneOvertaking(o: Options, s: State, i: nat, j: nat, now: int)
    requires InvIds(s) && i < j < |s.queue| && SameLane(s.queue[i], s.queue[j])
    requires CanAcquireLease(o, s, s.queue[j], now)
    ensures s.queue[j].apduClass != USIMAKA && Aged(s.queue[j], now) && !Aged(s.queue[i], now)
  {
    GrantedFrom(o, s, j, now);
    assert Scanned(o, s, j);
    assert !StopsScan(o, s, s.queue[i]);
    assert Scanned(o, s, i);
    assert Eligible(o, s, s.queue[i]);
  }

  /** Hence a lane is first come, first served when enqueue times do not decrease along the queue. */
  lemma LaneFifo(o: Options, s: State, i: nat, j: nat, now: int)
    requires InvIds(s) && i < j < |s.queue| && SameLane(s.queue[i], s.queue[j])
    requires s.queue[i].enqueued <= s.queue[j].enqueued
    ensures !CanAcquireLease(o, s, s.queue[j], now)
  {
    if CanAcquireLease(o, s, s.queue[j], now) { LaneOvertaking(o, s, i, j, now); }
  }

  /** The explicit test for a pending barrier ahead never decides anything: the other tests imply it. */
  lemma PendingBarrierTestIsImplied(o: Options, s: State, i: nat, now: int)
    requires InvIds(s) && i < |s.queue|
    requires s.queue[i].leaseType == Transport ==> SelectedTransport(o, s, now) == s.queue[i].id
    requires s.queue[i].leaseType in {Session, OneShot} ==> QueueHeadIs(s.queue, s.queue[i].id)
    requires s.queue[i].kind == LeaseWait
    ensures !PendingBarrierAhead(s.queue, s.queue[i])
  {
    assert QueueIndex(s.queue, s.queue[i].id) == i;
    if s.queue[i].leaseType == Transport {
      SelectionRule(o, s, now, i);
      assert Scanned(o, s, i);
    }
  }

  // ---------- progress ----------

  ghost predicate Nothing(s: State) {
    NoLease(s) && s.barriers == []
  }

  /** A transport at the head of an idle arbiter makes the priority rule pick somebody. */
  lemma SomeTransportChosen(o: Options, s: State, now: int) returns (i: nat)
    requires ValidOptions(o) && InvIds(s) && Nothing(s) && s.queue != [] && s.queue[0].leaseType == Transport
    ensures i < |s.queue| && Chosen(o, s, now, i)
  {
    assert TransportFits(o, s, s.queue[0]);
    assert Scanned(o, s, 0) && InGrade(o, s, now, Any, s.queue[0]);
    GradeMeaning(o, s, now, AgedNonAKA);
    GradeMeaning(o, s, now, AKA);
    GradeMeaning(o, s, now, Any);
    var n := ScanEnd(o, s, |s.queue|);
    i := FirstInGrade(o, s, now, AgedNonAKA, n);
    if i == n { i := FirstInGrade(o, s, now, AKA, n); }
    if i == n { i := FirstInGrade(o, s, now, Any, n); }
    assert 0 < n by { ScanEndMeaning(o, s, 0); }
  }

  /** Progress: with nothing active a non-empty queue holds a ticket that passes its test. */
  lemma SomeTicketPasses(o: Options, s: State, now: int) returns (i: nat)
    requires ValidOptions(o) && InvIds(s) && Nothing(s) && s.queue != []
    ensures i < |s.queue| && CanAcquire(o, s, s.queue[i], now)
  {
    i := 0;
    if s.queue[0].leaseType == Transport {
      i := SomeTransportChosen(o, s, now);
      SelectionRule(o, s, now, i);
      assert s.queue[i].kind == LeaseWait && s.queue[i].leaseType == Transport by {
        assert Scanned(o, s, i);
        assert !StopsScan(o, s, s.queue[i]);
      }
      PendingBarrierTestIsImplied(o, s, i, now);
    }
  }
}
