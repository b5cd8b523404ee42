/** The arbiter as the program keeps it: slices and counters changed in place under one lock. Each method is
    one critical section and refines one step of the state machine. */
module ArbiterClass {
  import opened Common
  import opened ArbiterModel
  import opened ArbiterInvariants
  import ArbiterAdmission
  import ArbiterRuns

  class Arbiter {
    const opts: Options
    var seqNo: nat
    var queue: seq<Ticket>
    var activeSessions: seq<Hold>
    var activeOneshot: Option<Hold>
    var activeTransports: seq<Hold>
    var activeBarriers: seq<Hold>
    /** Stands for the notification channel: closing it and making a new one moves the number on. */
    var notify: nat
    var waitRequests: nat
    var acquires: nat
    var waitTimeouts: nat
    var forcedReleases: nat

    ghost var issued: set<Ticket>
    ghost var parked: map<nat, Parking>
    ghost var clock: int
    ghost var log: seq<Event>

    function OneShots(): seq<Hold>
      reads this
    {
      if activeOneshot.None? then [] else [activeOneshot.value]
    }

    ghost function Abs(): State
      reads this
    {
      State(seqNo, issued, queue, activeSessions, OneShots(), activeTransports, activeBarriers, notify, parked,
            waitRequests, acquires, waitTimeouts, forcedReleases, clock, log)
    }

    ghost predicate Valid()
      reads this
    {
      ValidOptions(opts) && ArbiterRuns.Inv(opts, Abs())
    }

    constructor (o: Options)
      ensures opts == NormalizeOptions(o) && Abs() == Init() && Valid()
      ensures opts.maxLeaseHold == (if o.maxLeaseHold > 0 then o.maxLeaseHold else 120_000_000_000)
      ensures opts.maxSessions == (if o.maxSessions > 0 then o.maxSessions else 1)
      ensures opts.maxQMITransports == (if o.maxQMITransports > 0 then o.maxQMITransports else 1)
    {
      hide ArbiterRuns.Inv;
      opts := NormalizeOptions(o);
      seqNo, queue, notify := 0, [], 0;
      activeSessions, activeOneshot, activeTransports, activeBarriers := [], None, [], [];
      waitRequests, acquires, waitTimeouts, forcedReleases := 0, 0, 0, 0;
      issued, parked, clock, log := {}, map[], 0, [];
      new;
      ArbiterRuns.InitHolds(opts);
    }

    // ---------- the tests ----------

    method IsBlockedByActiveBarrier(c: APDUClass) returns (blocked: bool)
      ensures blocked == IsBlocked(Abs(), c)
    {
      for k := 0 to |activeBarriers|
        invariant forall j :: 0 <= j < k ==> c !in activeBarriers[j].ticket.blocked
      {
        if c in activeBarriers[k].ticket.blocked { return true; }
      }
      return false;
    }

    method HasPendingBarrierAhead(t: Ticket) returns (pending: bool)
      ensures pending == PendingBarrierAhead(queue, t)
    {
      for k := 0 to |queue|
        invariant k <= QueueIndex(queue, t.id)
        invariant forall j :: 0 <= j < k ==> !(queue[j].kind == BarrierWait && t.apduClass in queue[j].blocked)
      {
        if queue[k].id == t.id { return false; }
        if queue[k].kind != BarrierWait { continue; }
        if t.apduClass in queue[k].blocked { return true; }
      }
      return false;
    }

    method SelectBarrier() returns (id: nat)
      ensures id == SelectedBarrier(queue)
    {
      for k := 0 to |queue|
        invariant k <= FirstBarrier(queue)
      {
        if queue[k].kind == BarrierWait { return queue[k].id; }
      }
      return 0;
    }

    method HasActiveExclusiveTransport() returns (found: bool)
      ensures found == HasExclusive(Abs())
    {
      for k := 0 to |activeTransports|
        invariant forall j :: 0 <= j < k ==> activeTransports[j].ticket.scope == QMIChannel
      {
        if activeTransports[k].ticket.scope != QMIChannel { return true; }
      }
      return false;
    }

    method ActiveQMITransportCount() returns (count: nat)
      ensures count == QMICount(activeTransports)
    {
      count := 0;
      for k := 0 to |activeTransports|
        invariant count == QMICount(activeTransports[..k])
      {
        QMICountAppend(activeTransports[..k], activeTransports[k]);
        assert activeTransports[..k + 1] == activeTransports[..k] + [activeTransports[k]];
        if activeTransports[k].ticket.scope == QMIChannel { count := count + 1; }
      }
      assert activeTransports[..|activeTransports|] == activeTransports;
    }

    method HasActiveTransportOnChannel(channel: int) returns (found: bool)
      ensures found == ChannelBusy(Abs(), channel)
    {
      for k := 0 to |activeTransports|
        invariant forall j :: 0 <= j < k ==>
          !(activeTransports[j].ticket.scope == QMIChannel && activeTransports[j].ticket.channel == channel)
      {
        if activeTransports[k].ticket.scope == QMIChannel && activeTransports[k].ticket.channel == channel {
          return true;
        }
      }
      return false;
    }

    method CanAcquireTransportNow(t: Ticket) returns (ok: bool)
      ensures ok == TransportFits(opts, Abs(), t)
    {
      if t.leaseType != Transport { return false; }
      if t.scope != QMIChannel { return activeTransports == []; }
      var exclusive := HasActiveExclusiveTransport();
      if exclusive { return false; }
      var count := ActiveQMITransportCount();
      if count >= opts.maxQMITransports { return false; }
      var busy := HasActiveTransportOnChannel(t.channel);
      return !busy;
    }

    method TransportWaitGatesQueue(t: Ticket) returns (gates: bool)
      ensures gates == GatesQueue(opts, Abs(), t)
    {
      if t.leaseType != Transport || t.scope != QMIChannel { return true; }
      var exclusive := HasActiveExclusiveTransport();
      var count := ActiveQMITransportCount();
      return exclusive || count >= opts.maxQMITransports;
    }

    /** What the scan for a transport does with one ticket. */
    method Inspect(t: Ticket) returns (stop: bool, fits: bool)
      ensures stop == StopsScan(opts, Abs(), t)
      ensures fits == Eligible(opts, Abs(), t)
    {
      if t.kind == BarrierWait || t.leaseType != Transport { return true, false; }
      var blocked := IsBlockedByActiveBarrier(t.apduClass);
      if blocked { return false, false; }
      fits := CanAcquireTransportNow(t);
      stop := false;
      if !fits { stop := TransportWaitGatesQueue(t); }
    }

    /** The scan keeps the first ticket of each grade, as an index; `|queue|` stands for none. */
    method SelectTransport(now: int) returns (id: nat)
      ensures id == SelectedTransport(opts, Abs(), now)
    {
      hide StopsScan, Eligible, FirstInGrade, ScanEnd, InGrade, Remembered, Aged;
      ghost var s := Abs();
      var none := |queue|;
      var eligible: nat, aged: nat, aka: nat := none, none, none;
      var k := 0;
      NothingRemembered(opts, s, now);
      while k < |queue|
        invariant 0 <= k <= none
        invariant forall j :: 0 <= j < k ==> !StopsScan(opts, s, queue[j])
        invariant Remembered(opts, s, now, Any, k, eligible)
        invariant Remembered(opts, s, now, AgedNonAKA, k, aged)
        invariant Remembered(opts, s, now, AKA, k, aka)
      {
        var t := queue[k];
        var stop, fits := Inspect(t);
        if stop { break; }
        GradesOf(opts, s, now, t);
        RememberMore(opts, s, now, Any, k, eligible);
        RememberMore(opts, s, now, AgedNonAKA, k, aged);
        RememberMore(opts, s, now, AKA, k, aka);
        if fits {
          if eligible == none { eligible := k; }
          if t.apduClass == USIMAKA {
            if aka == none { aka := k; }
          } else if aged == none && Aged(t, now) {
            aged := k;
          }
        }
        k := k + 1;
      }
      assert k == ScanEnd(opts, s, none);
      RememberedIsFirst(opts, s, now, Any, k, eligible);
      RememberedIsFirst(opts, s, now, AgedNonAKA, k, aged);
      RememberedIsFirst(opts, s, now, AKA, k, aka);
      if aged != none { return queue[aged].id; }
      if aka != none { return queue[aka].id; }
      if eligible != none { return queue[eligible].id; }
      return 0;
    }

    method LeaseTest(t: Ticket, now: int) returns (ok: bool)
      ensures ok == CanAcquireLease(opts, Abs(), t, now)
    {
      if t.kind != LeaseWait { return false; }
      var blocked := IsBlockedByActiveBarrier(t.apduClass);
      if blocked { return false; }
      var pending := HasPendingBarrierAhead(t);
      if pending { return false; }
      match t.leaseType
      case Session =>
        return QueueHeadIs(queue, t.id) && activeOneshot == None && activeTransports == []
          && |activeSessions| < opts.maxSessions;
      case OneShot =>
        return QueueHeadIs(queue, t.id) && activeSessions == [] && activeOneshot == None && activeTransports == [];
      case Transport =>
        if activeSessions != [] || activeOneshot != None { return false; }
        var id := SelectTransport(now);
        return id == t.id;
      case BarrierLease =>
        return false;
    }

    method BarrierTest(t: Ticket) returns (ok: bool)
      ensures ok == CanAcquireBarrier(Abs(), t)
    {
      if t.kind != BarrierWait { return false; }
      if activeTransports != [] || activeSessions != [] || activeOneshot != None { return false; }
      var id := SelectBarrier();
      return id == t.id;
    }

    // ---------- places ----------

    method FindTicket(id: nat) returns (i: nat)
      ensures i == QueueIndex(queue, id)
    {
      i := 0;
      while i < |queue|
        invariant i <= QueueIndex(queue, id)
      {
        if queue[i].id == id { return; }
        i := i + 1;
      }
    }

    method FindHold(hs: seq<Hold>, id: nat) returns (i: nat)
      ensures i == HoldIndex(hs, id)
    {
      i := 0;
      while i < |hs|
        invariant i <= HoldIndex(hs, id)
      {
        if hs[i].ticket.id == id { return; }
        i := i + 1;
      }
    }

    /** Where a lease of this type would be found; a one-shot is the one or none. */
    function Places(lt: LeaseType): (hs: seq<Hold>)
      reads this
      ensures hs == Holders(Abs(), lt)
    {
      match lt
      case Session => activeSessions
      case OneShot => OneShots()
      case Transport => activeTransports
      case BarrierLease => activeBarriers
    }

    /** Writes one slice back. */
    method SetPlaces(lt: LeaseType, hs: seq<Hold>)
      requires lt == OneShot ==> |hs| <= 1
      modifies this`activeSessions, this`activeOneshot, this`activeTransports, this`activeBarriers
      ensures Abs() == SetHolders(old(Abs()), lt, hs)
    {
      match lt
      case Session => activeSessions := hs;
      case OneShot => activeOneshot := if hs == [] then None else Some(hs[0]);
      case Transport => activeTransports := hs;
      case BarrierLease => activeBarriers := hs;
    }

    method Signal()
      modifies this`notify
      ensures Abs() == old(Abs()).(notify := old(notify) + 1)
    {
      notify := notify + 1;
    }

    // ---------- the critical sections ----------

    method TakeLeaseTicket(r: Request, lt: LeaseType, now: int) returns (t: Ticket)
      requires Valid() && now >= clock && lt != BarrierLease
      modifies this
      ensures Valid() && Abs() == Next(opts, old(Abs()), DoIssueLease(r, lt, now))
      ensures t == LeaseTicket(old(seqNo) + 1, r, lt, now)
    {
      hide ArbiterRuns.Inv, LeaseTicket;
      ghost var before := Abs();
      ArbiterRuns.NextKeepsInv(opts, before, DoIssueLease(r, lt, now));
      assert Next(opts, before, DoIssueLease(r, lt, now)) == Issue(before, LeaseTicket(seqNo + 1, r, lt, now), now);
      hide Next;
      seqNo := seqNo + 1;
      t := LeaseTicket(seqNo, r, lt, now);
      issued, clock, log := issued + {t}, now, log + [Issued(t.id)];
    }

    method TakeBarrierTicket(r: Request, policy: seq<APDUClass>, now: int) returns (t: Ticket)
      requires Valid() && now >= clock
      modifies this
      ensures Valid() && Abs() == Next(opts, old(Abs()), DoIssueBarrier(r, policy, now))
      ensures t == BarrierTicket(old(seqNo) + 1, r, policy, now)
    {
      hide ArbiterRuns.Inv, BarrierTicket;
      ghost var before := Abs();
      ArbiterRuns.NextKeepsInv(opts, before, DoIssueBarrier(r, policy, now));
      assert Next(opts, before, DoIssueBarrier(r, policy, now))
          == Issue(before, BarrierTicket(seqNo + 1, r, policy, now), now);
      hide Next;
      seqNo := seqNo + 1;
      t := BarrierTicket(seqNo, r, policy, now);
      issued, clock, log := issued + {t}, now, log + [Issued(t.id)];
    }

    method JoinQueue(t: Ticket, ghost now: int)
      requires Valid() && now >= clock && t in issued
      modifies this
      ensures Valid() && Abs() == Next(opts, old(Abs()), DoEnqueue(t, now))
    {
      hide ArbiterRuns.Inv;
      ghost var before := Abs();
      ArbiterRuns.NextKeepsInv(opts, before, DoEnqueue(t, now));
      assert Next(opts, before, DoEnqueue(t, now)) == Enqueue(before, t, now);
      hide Next;
      queue := queue + [t];
      waitRequests := waitRequests + 1;
      issued, clock, log := issued - {t}, now, log + [Enqueued(t.id)];
      Signal();
    }

    /** Moves the ticket at `i` from the queue to the holders. */
    method GrantTicket(i: nat, now: int)
      requires i < |queue| && (queue[i].leaseType == OneShot ==> activeOneshot == None)
      modifies this
      ensures Abs() == Grant(opts, old(Abs()), i, now)
    {
      hide RemoveAt, SetHolders, Holders, NewHold;
      var t := queue[i];
      GrantRoom(Abs(), t);
      SetPlaces(t.leaseType, Places(t.leaseType) + [NewHold(opts, t, now)]);
      acquires := acquires + 1;
      clock := now;
      LeaveQueue(i, Granted(t.id, t.leaseType, now));
    }

    /** Takes the ticket at `i` out of the queue and signals. */
    method LeaveQueue(i: nat, ghost e: Event)
      requires i < |queue|
      modifies this`queue, this`parked, this`log, this`notify
      ensures Abs() == old(Abs()).(queue := RemoveAt(old(queue), i), parked := old(parked) - {old(queue)[i].id},
                                   notify := old(notify) + 1, log := old(log) + [e])
    {
      hide RemoveAt;
      parked, log := parked - {queue[i].id}, log + [e];
      queue := RemoveAt(queue, i);
      Signal();
    }

    /** One turn of the loop of a queued caller. */
    method TryAcquire(t: Ticket, now: int) returns (granted: bool)
      requires Valid() && now >= clock && t in queue
      modifies this
      ensures granted == CanAcquire(opts, old(Abs()), t, now)
      // it is let in exactly when it is admitted, and then it is active and no longer in the queue
      ensures var i := QueueIndex(old(queue), t.id);
              && i < |old(queue)| && old(queue)[i] == t
              && (granted <==> ArbiterAdmission.Admitted(opts, old(Abs()), i, now))
              && queue == if granted then old(queue)[..i] + old(queue)[i + 1..] else old(queue)
      ensures Valid() && Abs() == Next(opts, old(Abs()), DoTry(t.id, now))
    {
      hide ArbiterRuns.Inv, RemoveAt, Issue, Enqueue, Cancel, Touch, Release, Expire, Grant, CanAcquireLease,
        CanAcquireBarrier;
      ghost var before := Abs();
      var i := FindTicket(t.id);
      QueuedOnce(opts, before, t, i);
      ArbiterAdmission.AdmissionExactly(opts, before, i, now);
      if t.kind == BarrierWait { granted := BarrierTest(t); } else { granted := LeaseTest(t, now); }
      if granted {
        GrantFits(opts, before, i, now);
        GrantTicket(i, now);
        ArbiterAdmission.GrantHolds(opts, before, i, now);
      } else {
        parked, clock := parked[t.id := Parking(notify, now)], now;
      }
      ArbiterRuns.NextKeepsInv(opts, before, DoTry(t.id, now));
    }

    method CancelWait(id: nat, ghost now: int) returns (removed: bool)
      requires Valid() && now >= clock
      modifies this
      ensures removed == (QueueIndex(old(queue), id) < |old(queue)|)
      ensures Valid() && Abs() == Next(opts, old(Abs()), DoCancel(id, now))
    {
      hide ArbiterRuns.Inv, RemoveAt;
      ghost var before := Abs();
      ArbiterRuns.NextKeepsInv(opts, before, DoCancel(id, now));
      assert Next(opts, before, DoCancel(id, now)) == Cancel(before, id, now);
      hide Next;
      var i := FindTicket(id);
      removed := i < |queue|;
      if removed {
        LeaveQueue(i, Cancelled(id));
        waitTimeouts := waitTimeouts + 1;
      }
      clock := now;
    }

    method TouchLease(id: nat, lt: LeaseType, now: int) returns (active: bool)
      requires Valid() && now >= clock && lt != BarrierLease
      modifies this
      ensures active == (HoldIndex(Holders(old(Abs()), lt), id) < |Holders(old(Abs()), lt)|)
      ensures Valid() && Abs() == Next(opts, old(Abs()), DoTouch(id, lt, now))
    {
      hide ArbiterRuns.Inv;
      ghost var before := Abs();
      ArbiterRuns.NextKeepsInv(opts, before, DoTouch(id, lt, now));
      assert Next(opts, before, DoTouch(id, lt, now)) == Touch(opts, before, id, lt, now);
      hide Next;
      var hs := Places(lt);
      var i := FindHold(hs, id);
      active := i < |hs|;
      if active {
        SetPlaces(lt, hs[i := hs[i].(expiresAt := At(now + opts.maxLeaseHold))]);
        log := log + [Touched(id, lt, now)];
      }
      clock := now;
    }

    /** Takes the hold at place `i` away and signals. */
    method Drop(lt: LeaseType, i: nat, ghost e: Event, ghost now: int)
      requires i < |Places(lt)|
      modifies this
      ensures Abs() == SetHolders(old(Abs()), lt, RemoveAt(Holders(old(Abs()), lt), i))
                       .(notify := old(notify) + 1, clock := now, log := old(log) + [e])
    {
      hide RemoveAt;
      SetPlaces(lt, RemoveAt(Places(lt), i));
      clock, log := now, log + [e];
      Signal();
    }

    /** Releases a lease, or ends a barrier. */
    method ReleaseHold(id: nat, lt: LeaseType, ghost now: int)
      requires Valid() && now >= clock
      modifies this
      ensures Valid() && Abs() == Next(opts, old(Abs()), DoRelease(id, lt, now))
    {
      hide ArbiterRuns.Inv, RemoveAt, SetHolders;
      ghost var before := Abs();
      ArbiterRuns.NextKeepsInv(opts, before, DoRelease(id, lt, now));
      assert Next(opts, before, DoRelease(id, lt, now)) == Release(before, id, lt, now);
      hide Next;
      var i := FindHold(Places(lt), id);
      if i < |Places(lt)| { Drop(lt, i, Released(id), now); } else { clock := now; }
    }

    /** A watchdog timer fires: it is set again when the lease was touched since, and ignored when it is gone. */
    method ReleaseExpired(id: nat, lt: LeaseType, now: int)
      requires Valid() && now >= clock && lt != BarrierLease
      modifies this
      ensures Valid() && Abs() == Next(opts, old(Abs()), DoExpire(id, lt, now))
    {
      hide ArbiterRuns.Inv, RemoveAt;
      ghost var before := Abs();
      ArbiterRuns.NextKeepsInv(opts, before, DoExpire(id, lt, now));
      assert Next(opts, before, DoExpire(id, lt, now)) == Expire(before, id, lt, now);
      hide Next;
      var i := FindHold(Places(lt), id);
      if i < |Places(lt)| && Overdue(Places(lt)[i], now) {
        Drop(lt, i, Forced(id, now), now);
        forcedReleases := forcedReleases + 1;
      } else {
        clock := now;
      }
    }

    method IsIdle() returns (idle: bool)
      ensures idle <==> queue == [] && forall lt :: Holders(Abs(), lt) == []
    {
      idle := activeOneshot == None && activeTransports == [] && activeSessions == [] && activeBarriers == []
        && queue == [];
      assert !idle ==> exists lt :: queue != [] || Holders(Abs(), lt) != [] by {
        assert Holders(Abs(), OneShot) == OneShots() && Holders(Abs(), Transport) == activeTransports;
        assert Holders(Abs(), Session) == activeSessions && Holders(Abs(), BarrierLease) == activeBarriers;
      }
    }
  }

  /** `i` is the first of the first `k` tickets in its grade, or the end of the queue when there is none. */
  ghost predicate Remembered(o: Options, s: State, now: int, g: Grade, k: nat, i: nat) {
    if i == |s.queue| then forall j :: 0 <= j < k && j < |s.queue| ==> !InGrade(o, s, now, g, s.queue[j])
    else i < k && i < |s.queue| && InGrade(o, s, now, g, s.queue[i])
         && forall j :: 0 <= j < i ==> !InGrade(o, s, now, g, s.queue[j])
  }

  lemma NothingRemembered(o: Options, s: State, now: int)
    ensures forall g :: Remembered(o, s, now, g, 0, |s.queue|)
  {
  }

  lemma GradesOf(o: Options, s: State, now: int, t: Ticket)
    ensures InGrade(o, s, now, Any, t) <==> Eligible(o, s, t)
    ensures InGrade(o, s, now, AKA, t) <==> Eligible(o, s, t) && t.apduClass == USIMAKA
    ensures InGrade(o, s, now, AgedNonAKA, t) <==> Eligible(o, s, t) && t.apduClass != USIMAKA && Aged(t, now)
  {
    hide Eligible;
  }

  lemma RememberMore(o: Options, s: State, now: int, g: Grade, k: nat, i: nat)
    requires k < |s.queue| && Remembered(o, s, now, g, k, i)
    ensures Remembered(o, s, now, g, k + 1, if i == |s.queue| && InGrade(o, s, now, g, s.queue[k]) then k else i)
  {
    hide InGrade;
  }

  lemma RememberedIsFirst(o: Options, s: State, now: int, g: Grade, k: nat, i: nat)
    requires k <= |s.queue| && Remembered(o, s, now, g, k, i)
    ensures i == if FirstInGrade(o, s, now, g, k) < k then FirstInGrade(o, s, now, g, k) else |s.queue|
  {
  }

  lemma GrantRoom(s: State, t: Ticket)
    ensures t.leaseType == OneShot ==> Holders(s, t.leaseType) == s.oneshots
  {
  }

  lemma QueuedOnce(o: Options, s: State, t: Ticket, i: nat)
    requires ArbiterRuns.Inv(o, s) && t in s.queue && i == QueueIndex(s.queue, t.id)
    ensures i < |s.queue| && s.queue[i] == t
  {
  }

  /** A one-shot is only granted when no one-shot is active, so a single field is enough. */
  lemma GrantFits(o: Options, s: State, i: nat, now: int)
    requires ArbiterRuns.Inv(o, s) && i < |s.queue|
    ensures CanAcquire(o, s, s.queue[i], now) && s.queue[i].leaseType == OneShot ==> s.oneshots == []
  {
  }
}
