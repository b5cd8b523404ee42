/** What every step of the arbiter keeps. */
module ArbiterInvariants {
  import opened ArbiterModel

  // ---------- the life of a ticket, read off the log ----------

  datatype Phase = Unknown | Fresh | Waiting | Holding(leaseType: LeaseType) | Finished

  function PhaseAfter(e: Event): Phase {
    match e
    case Issued(_) => Fresh
    case Enqueued(_) => Waiting
    case Granted(_, lt, _) => Holding(lt)
    case Touched(_, lt, _) => Holding(lt)
    case Cancelled(_) => Finished
    case Released(_) => Finished
    case Forced(_, _) => Finished
  }

  function PhaseOf(log: seq<Event>, id: nat): Phase {
    if log == [] then Unknown
    else if log[|log| - 1].id == id then PhaseAfter(log[|log| - 1])
    else PhaseOf(log[..|log| - 1], id)
  }

  lemma PhaseAppend(log: seq<Event>, e: Event)
    ensures forall id: nat ::
      PhaseOf(log + [e], id) == if e.id == id then PhaseAfter(e) else PhaseOf(log, id)
  {
    assert (log + [e])[..|log|] == log;
  }

  // ---------- identity ----------

  ghost predicate DistinctTickets(q: seq<Ticket>) {
    forall i, j :: 0 <= i < j < |q| ==> q[i].id != q[j].id
  }

  ghost predicate DistinctHolds(hs: seq<Hold>) {
    forall i, j :: 0 <= i < j < |hs| ==> hs[i].ticket.id != hs[j].ticket.id
  }

  /** What taking a ticket guarantees about it. */
  ghost predicate WellFormed(t: Ticket) {
    && t.id > 0
    && (t.kind == BarrierWait <==> t.leaseType == BarrierLease)
    && (t.kind == LeaseWait ==> t.blocked == {})
    && (t.scope == QMIChannel ==> t.leaseType == Transport)
  }

  ghost predicate HoldsInPhase(s: State, lt: LeaseType) {
    var hs := Holders(s, lt);
    DistinctHolds(hs) &&
    forall i :: 0 <= i < |hs| ==>
      WellFormed(hs[i].ticket) && hs[i].ticket.leaseType == lt && PhaseOf(s.log, hs[i].ticket.id) == Holding(lt)
  }

  /** Every ticket is in the one place its history says, and nowhere twice. */
  ghost predicate InvIds(s: State) {
    && (forall t :: t in s.issued ==> WellFormed(t) && PhaseOf(s.log, t.id) == Fresh)
    && (forall t, u :: t in s.issued && u in s.issued && t.id == u.id ==> t == u)
    && DistinctTickets(s.queue)
    && (forall i :: 0 <= i < |s.queue| ==> WellFormed(s.queue[i]) && PhaseOf(s.log, s.queue[i].id) == Waiting)
    && (forall lt :: HoldsInPhase(s, lt))
    && (forall id: nat :: id > s.seqNo ==> PhaseOf(s.log, id) == Unknown)
  }

  lemma IssueKeepsIds(s: State, t: Ticket, now: int)
    requires InvIds(s) && WellFormed(t) && t.id == s.seqNo + 1
    ensures InvIds(Issue(s, t, now))
  {
    PhaseAppend(s.log, Issued(t.id));
    var s' := Issue(s, t, now);
    assert forall lt :: HoldsInPhase(s, lt) && Holders(s', lt) == Holders(s, lt);
  }

  lemma EnqueueKeepsIds(s: State, t: Ticket, now: int)
    requires InvIds(s) && t in s.issued
    ensures InvIds(Enqueue(s, t, now))
  {
    PhaseAppend(s.log, Enqueued(t.id));
    var s' := Enqueue(s, t, now);
    assert forall lt :: HoldsInPhase(s, lt) && Holders(s', lt) == Holders(s, lt);
    assert s'.log == s.log + [Enqueued(t.id)];
  }

  lemma GrantKeepsIds(o: Options, s: State, i: nat, now: int)
    requires InvIds(s) && i < |s.queue|
    ensures InvIds(Grant(o, s, i, now))
  {
    var t := s.queue[i];
    PhaseAppend(s.log, Granted(t.id, t.leaseType, now));
    var s' := Grant(o, s, i, now);
    forall lt ensures HoldsInPhase(s', lt) {
      assert HoldsInPhase(s, lt);
      assert Holders(s', lt) == if lt == t.leaseType then Holders(s, lt) + [NewHold(o, t, now)] else Holders(s, lt);
    }
  }

  lemma CancelKeepsIds(s: State, id: nat, now: int)
    requires InvIds(s)
    ensures InvIds(Cancel(s, id, now))
  {
    var i := QueueIndex(s.queue, id);
    var s' := Cancel(s, id, now);
    if i == |s.queue| {
      ClockKeepsIds(s, now);
    } else {
      PhaseAppend(s.log, Cancelled(id));
      forall lt ensures HoldsInPhase(s', lt) {
        assert HoldsInPhase(s, lt) && Holders(s', lt) == Holders(s, lt);
        hide Holders, RemoveAt;
      }
      hide HoldsInPhase, Cancel, QueueIndex, PhaseOf;
      assert s'.queue == RemoveAt(s.queue, i) && s'.issued == s.issued;
    }
  }

  lemma TouchKeepsIds(o: Options, s: State, id: nat, lt: LeaseType, now: int)
    requires InvIds(s)
    ensures InvIds(Touch(o, s, id, lt, now))
  {
    var s' := Touch(o, s, id, lt, now);
    var hs := Holders(s, lt);
    var i := HoldIndex(hs, id);
    if lt == BarrierLease || i == |hs| {
      ClockKeepsIds(s, now);
    } else {
      TouchedHolds(o, s, id, lt, now);
      TouchedOthers(s, s', id, lt, now);
    }
  }

  /** Touching a lease leaves every holder in its phase. */
  lemma TouchedHolds(o: Options, s: State, id: nat, lt: LeaseType, now: int)
    requires InvIds(s) && lt != BarrierLease && HoldIndex(Holders(s, lt), id) < |Holders(s, lt)|
    ensures var s' := Touch(o, s, id, lt, now);
            && (forall l :: HoldsInPhase(s', l)) && s'.log == s.log + [Touched(id, lt, now)]
            && s'.queue == s.queue && s'.issued == s.issued && s'.seqNo == s.seqNo
            && PhaseOf(s.log, id) == Holding(lt)
  {
    TouchChanges(o, s, id, lt, now);
    hide Touch;
    assert HoldsInPhase(s, lt);
    forall l ensures HoldsInPhase(Touch(o, s, id, lt, now), l) {
      assert HoldsInPhase(s, l);
      TouchedPhase(s, Touch(o, s, id, lt, now), id, lt, now, l);
    }
  }

  lemma TouchedPhase(s: State, s': State, id: nat, lt: LeaseType, now: int, l: LeaseType)
    requires HoldsInPhase(s, l) && s'.log == s.log + [Touched(id, lt, now)] && |Holders(s', l)| == |Holders(s, l)|
    requires forall i :: 0 <= i < |Holders(s, l)| ==> Holders(s', l)[i].ticket == Holders(s, l)[i].ticket
    requires PhaseOf(s.log, id) == Holding(lt)
    ensures HoldsInPhase(s', l)
  {
    hide Holders;
    PhaseAppend(s.log, Touched(id, lt, now));
  }

  lemma TouchChanges(o: Options, s: State, id: nat, lt: LeaseType, now: int)
    requires lt != BarrierLease && HoldIndex(Holders(s, lt), id) < |Holders(s, lt)|
    ensures var s' := Touch(o, s, id, lt, now);
            var hs := Holders(s, lt);
            var i := HoldIndex(hs, id);
            && (forall l :: Holders(s', l) ==
                  if l == lt then hs[i := hs[i].(expiresAt := At(now + o.maxLeaseHold))] else Holders(s, l))
            && s'.log == s.log + [Touched(id, lt, now)]
            && s'.queue == s.queue && s'.issued == s.issued && s'.seqNo == s.seqNo
  {
  }

  lemma TouchedOthers(s: State, s': State, id: nat, lt: LeaseType, now: int)
    requires InvIds(s) && PhaseOf(s.log, id) == Holding(lt)
    requires (forall l :: HoldsInPhase(s', l)) && s'.log == s.log + [Touched(id, lt, now)]
    requires s'.queue == s.queue && s'.issued == s.issued && s'.seqNo == s.seqNo
    ensures InvIds(s')
  {
    hide HoldsInPhase;
    PhaseAppend(s.log, Touched(id, lt, now));
  }

  /** One holder goes and the log says its ticket is finished. */
  lemma DropKeepsIds(s: State, lt: LeaseType, i: nat, e: Event, s': State)
    requires InvIds(s) && i < |Holders(s, lt)| && e.id == Holders(s, lt)[i].ticket.id && PhaseAfter(e) == Finished
    requires s'.log == s.log + [e] && s'.issued == s.issued && s'.queue == s.queue && s'.seqNo == s.seqNo
    requires forall l :: Holders(s', l) == if l == lt then RemoveAt(Holders(s, lt), i) else Holders(s, l)
    ensures InvIds(s')
  {
    hide Holders, RemoveAt;
    assert HoldsInPhase(s, lt);
    forall l ensures HoldsInPhase(s', l) {
      assert HoldsInPhase(s, l);
      DroppedPhase(s, lt, i, e, s', l);
    }
    PhaseAppend(s.log, e);
    hide HoldsInPhase;
  }

  lemma DroppedPhase(s: State, lt: LeaseType, i: nat, e: Event, s': State, l: LeaseType)
    requires HoldsInPhase(s, lt) && HoldsInPhase(s, l) && i < |Holders(s, lt)| && e.id == Holders(s, lt)[i].ticket.id
    requires s'.log == s.log + [e]
    requires Holders(s', l) == if l == lt then RemoveAt(Holders(s, lt), i) else Holders(s, l)
    ensures HoldsInPhase(s', l)
  {
    hide Holders, RemoveAt;
    PhaseAppend(s.log, e);
  }

  lemma ReleaseKeepsIds(s: State, id: nat, lt: LeaseType, now: int)
    requires InvIds(s)
    ensures InvIds(Release(s, id, lt, now))
  {
    hide InvIds;
    var i := HoldIndex(Holders(s, lt), id);
    if i < |Holders(s, lt)| { DropKeepsIds(s, lt, i, Released(id), Release(s, id, lt, now)); }
    else { ClockKeepsIds(s, now); }
  }

  lemma ExpireKeepsIds(s: State, id: nat, lt: LeaseType, now: int)
    requires InvIds(s)
    ensures InvIds(Expire(s, id, lt, now))
  {
    hide InvIds;
    var s' := Expire(s, id, lt, now);
    if s' != s.(clock := now) { DropKeepsIds(s, lt, HoldIndex(Holders(s, lt), id), Forced(id, now), s'); }
    else { ClockKeepsIds(s, now); }
  }

  lemma ClockKeepsIds(s: State, now: int)
    requires InvIds(s)
    ensures InvIds(s.(clock := now))
  {
    var s' := s.(clock := now);
    forall lt ensures HoldsInPhase(s', lt) { assert HoldsInPhase(s, lt) && Holders(s', lt) == Holders(s, lt); }
  }

  lemma TryKeepsIds(o: Options, s: State, id: nat, now: int)
    requires InvIds(s)
    ensures InvIds(Try(o, s, id, now))
  {
    var s' := Try(o, s, id, now);
    var i := QueueIndex(s.queue, id);
    if i < |s.queue| && CanAcquire(o, s, s.queue[i], now) { GrantKeepsIds(o, s, i, now); }
    else { assert forall lt :: HoldsInPhase(s, lt) && Holders(s', lt) == Holders(s, lt); }
  }

  lemma NextKeepsIds(o: Options, s: State, step: Step)
    requires InvIds(s) && Enabled(s, step)
    ensures InvIds(Next(o, s, step))
  {
    hide InvIds;
    match step
    case DoIssueLease(r, lt, now) => IssueKeepsIds(s, LeaseTicket(s.seqNo + 1, r, lt, now), now);
    case DoIssueBarrier(r, policy, now) => IssueKeepsIds(s, BarrierTicket(s.seqNo + 1, r, policy, now), now);
    case DoEnqueue(t, now) => EnqueueKeepsIds(s, t, now);
    case DoTry(id, now) => TryKeepsIds(o, s, id, now);
    case DoCancel(id, now) => CancelKeepsIds(s, id, now);
    case DoTouch(id, lt, now) => TouchKeepsIds(o, s, id, lt, now);
    case DoRelease(id, lt, now) => ReleaseKeepsIds(s, id, lt, now);
    case DoExpire(id, lt, now) => ExpireKeepsIds(s, id, lt, now);
  }

  // ---------- exclusion ----------

  /** Who may hold the card together. */
  ghost predicate Exclusion(o: Options, s: State) {
    // sessions, one-shots and transports never mix
    && (s.sessions == [] || s.oneshots == [])
    && (s.sessions == [] || s.transports == [])
    && (s.oneshots == [] || s.transports == [])
    && |s.sessions| <= o.maxSessions
    && |s.oneshots| <= 1
    // an exclusive transport is alone
    && (HasExclusive(s) ==> |s.transports| == 1)
    // channel transports stay within their window, one to a channel
    && QMICount(s.transports) <= o.maxQMITransports
    && (forall i, j :: 0 <= i < j < |s.transports| ==> s.transports[i].ticket.channel != s.transports[j].ticket.channel)
    // no lease runs whose class an active barrier blocks
    && (forall lt, i :: lt != BarrierLease && 0 <= i < |Holders(s, lt)| ==>
          !IsBlocked(s, Holders(s, lt)[i].ticket.apduClass))
  }

  lemma QMICountAppend(hs: seq<Hold>, h: Hold)
    ensures QMICount(hs + [h]) == QMICount(hs) + if h.ticket.scope == QMIChannel then 1 else 0
  {
    assert (hs + [h])[..|hs|] == hs;
  }

  /** Counting channel transports only looks at their scopes. */
  lemma {:induction false} QMICountScopes(hs: seq<Hold>, ks: seq<Hold>)
    requires |hs| == |ks| && forall i :: 0 <= i < |hs| ==> hs[i].ticket == ks[i].ticket
    ensures QMICount(hs) == QMICount(ks)
  {
    if hs != [] { QMICountScopes(hs[..|hs| - 1], ks[..|ks| - 1]); }
  }

  lemma {:induction false} QMICountRemove(hs: seq<Hold>, i: nat)
    requires i < |hs|
    ensures QMICount(RemoveAt(hs, i)) <= QMICount(hs)
  {
    var r := RemoveAt(hs, i);
    if i < |hs| - 1 {
      QMICountRemove(hs[..|hs| - 1], i);
      assert r[..|r| - 1] == RemoveAt(hs[..|hs| - 1], i);
    } else {
      assert r == hs[..|hs| - 1];
    }
  }

  lemma GrantKeepsExclusion(o: Options, s: State, i: nat, now: int)
    requires ValidOptions(o) && Exclusion(o, s) && i < |s.queue| && WellFormed(s.queue[i])
    requires CanAcquire(o, s, s.queue[i], now)
    requires s.queue[i].leaseType == Transport ==> Eligible(o, s, s.queue[i])
    ensures Exclusion(o, Grant(o, s, i, now))
  {
    hide SelectedTransport, SelectedBarrier, PendingBarrierAhead, RemoveAt, Exclusion, Grant, StopsScan,
      TransportFits;
    var t := s.queue[i];
    match t.leaseType
    case BarrierLease => BarrierKeepsExclusion(o, s, i, now);
    case Transport => TransportKeepsExclusion(o, s, i, now);
    case Session => SessionKeepsExclusion(o, s, i, now);
    case OneShot => SessionKeepsExclusion(o, s, i, now);
  }

  lemma BarrierKeepsExclusion(o: Options, s: State, i: nat, now: int)
    requires ValidOptions(o) && i < |s.queue| && s.queue[i].leaseType == BarrierLease && NoLease(s)
    ensures Exclusion(o, Grant(o, s, i, now))
  {
    hide RemoveAt, IsBlocked;
    var s' := Grant(o, s, i, now);
    assert forall lt :: lt != BarrierLease ==> Holders(s', lt) == [];
  }

  /** A granted lease joins holders none of which it shuts out, and no barrier blocks it. */
  lemma LeaseStaysUnblocked(o: Options, s: State, i: nat, now: int)
    requires Exclusion(o, s) && i < |s.queue| && s.queue[i].leaseType != BarrierLease
    requires !IsBlocked(s, s.queue[i].apduClass)
    ensures var s' := Grant(o, s, i, now);
            forall lt, k :: lt != BarrierLease && 0 <= k < |Holders(s', lt)| ==>
              !IsBlocked(s', Holders(s', lt)[k].ticket.apduClass)
  {
    hide RemoveAt, QMICount;
    var s' := Grant(o, s, i, now);
    assert s'.barriers == s.barriers;
    forall c ensures IsBlocked(s', c) == IsBlocked(s, c) {}
    forall lt, k | lt != BarrierLease && 0 <= k < |Holders(s', lt)|
      ensures !IsBlocked(s', Holders(s', lt)[k].ticket.apduClass)
    {
      if k < |Holders(s, lt)| { assert Holders(s', lt)[k] == Holders(s, lt)[k]; }
    }
  }

  lemma TransportKeepsExclusion(o: Options, s: State, i: nat, now: int)
    requires ValidOptions(o) && Exclusion(o, s) && i < |s.queue| && s.queue[i].leaseType == Transport
    requires s.sessions == [] && s.oneshots == [] && !IsBlocked(s, s.queue[i].apduClass)
    requires TransportFits(o, s, s.queue[i])
    ensures Exclusion(o, Grant(o, s, i, now))
  {
    LeaseStaysUnblocked(o, s, i, now);
    hide RemoveAt, IsBlocked;
    QMICountAppend(s.transports, NewHold(o, s.queue[i], now));
    assert Grant(o, s, i, now).transports == s.transports + [NewHold(o, s.queue[i], now)];
  }

  lemma SessionKeepsExclusion(o: Options, s: State, i: nat, now: int)
    requires ValidOptions(o) && Exclusion(o, s) && i < |s.queue| && s.queue[i].leaseType in {Session, OneShot}
    requires !IsBlocked(s, s.queue[i].apduClass) && s.transports == [] && s.oneshots == []
    requires if s.queue[i].leaseType == Session then |s.sessions| < o.maxSessions else s.sessions == []
    ensures Exclusion(o, Grant(o, s, i, now))
  {
    LeaseStaysUnblocked(o, s, i, now);
    hide RemoveAt, IsBlocked;
  }

  ghost predicate SameTickets(hs: seq<Hold>, ks: seq<Hold>) {
    |hs| == |ks| && forall i :: 0 <= i < |hs| ==> hs[i].ticket == ks[i].ticket
  }

  /** Exclusion speaks of the tickets that hold, not of their deadlines. */
  lemma ExclusionOfTickets(o: Options, s: State, s': State)
    requires Exclusion(o, s) && s'.barriers == s.barriers
    requires SameTickets(s.sessions, s'.sessions) && SameTickets(s.oneshots, s'.oneshots)
    requires SameTickets(s.transports, s'.transports)
    ensures Exclusion(o, s')
  {
    QMICountScopes(s.transports, s'.transports);
    forall c ensures IsBlocked(s', c) == IsBlocked(s, c) {}
    forall lt, k | lt != BarrierLease && 0 <= k < |Holders(s', lt)|
      ensures !IsBlocked(s', Holders(s', lt)[k].ticket.apduClass)
    {
      assert SameTickets(Holders(s, lt), Holders(s', lt));
    }
  }

  lemma TouchKeepsExclusion(o: Options, s: State, id: nat, lt: LeaseType, now: int)
    requires Exclusion(o, s)
    ensures Exclusion(o, Touch(o, s, id, lt, now))
  {
    ExclusionOfTickets(o, s, Touch(o, s, id, lt, now));
  }

  /** Taking any one holder away keeps exclusion. */
  lemma DropKeepsExclusion(o: Options, s: State, lt: LeaseType, i: nat)
    requires Exclusion(o, s) && i < |Holders(s, lt)|
    ensures Exclusion(o, SetHolders(s, lt, RemoveAt(Holders(s, lt), i)))
  {
    hide RemoveAt, QMICount;
    var s' := SetHolders(s, lt, RemoveAt(Holders(s, lt), i));
    if lt == Transport { QMICountRemove(s.transports, i); }
    forall c | IsBlocked(s', c) ensures IsBlocked(s, c) {
      var k :| 0 <= k < |s'.barriers| && c in s'.barriers[k].ticket.blocked;
      assert s'.barriers[k] == s.barriers[k] || s'.barriers[k] == s.barriers[k + 1];
    }
    forall l, k | l != BarrierLease && 0 <= k < |Holders(s', l)|
      ensures !IsBlocked(s', Holders(s', l)[k].ticket.apduClass)
    {
      assert Holders(s', l)[k] == Holders(s, l)[k] || Holders(s', l)[k] == Holders(s, l)[k + 1];
    }
  }

  // ---------- wakeup ----------

  /** Nobody sleeps on the current notification who could have been served when last trying. */
  ghost predicate NoLostWakeup(o: Options, s: State) {
    && (forall id :: id in s.parked ==> s.parked[id].version <= s.notify && s.parked[id].at <= s.clock)
    && (forall i :: 0 <= i < |s.queue| && Asleep(s, s.queue[i].id) ==>
          !CanAcquire(o, s, s.queue[i], s.parked[s.queue[i].id].at))
  }

  /** Parked on the notification that is still current. */
  ghost predicate Asleep(s: State, id: nat) {
    id in s.parked && s.parked[id].version == s.notify
  }

  /** The acquire tests look at the queue, the tickets that hold, and nothing else. */
  ghost predicate SameView(s: State, s': State) {
    s'.queue == s.queue && s'.barriers == s.barriers && SameTickets(s.sessions, s'.sessions)
    && SameTickets(s.oneshots, s'.oneshots) && SameTickets(s.transports, s'.transports)
  }

  lemma SameSelection(o: Options, s: State, s': State, now: int)
    requires SameView(s, s')
    ensures SelectedTransport(o, s', now) == SelectedTransport(o, s, now)
  {
    QMICountScopes(s.transports, s'.transports);
    forall t ensures StopsScan(o, s', t) == StopsScan(o, s, t) && Eligible(o, s', t) == Eligible(o, s, t) {
      assert IsBlocked(s', t.apduClass) == IsBlocked(s, t.apduClass);
      assert HasExclusive(s') == HasExclusive(s);
      assert ChannelBusy(s', t.channel) == ChannelBusy(s, t.channel);
      assert s'.transports == [] <==> s.transports == [];
    }
    var n := ScanEnd(o, s, |s.queue|);
    assert ScanEnd(o, s', |s.queue|) == n;
    forall g ensures FirstInGrade(o, s', now, g, n) == FirstInGrade(o, s, now, g, n) {}
  }

  lemma SameTests(o: Options, s: State, s': State, t: Ticket, now: int)
    requires SameView(s, s')
    ensures CanAcquire(o, s', t, now) == CanAcquire(o, s, t, now)
  {
    SameSelection(o, s, s', now);
    assert IsBlocked(s', t.apduClass) == IsBlocked(s, t.apduClass);
  }

  /** Any step that changes what the tests look at also moves the notification on. */
  lemma ChangesAreSignalled(o: Options, s: State, step: Step)
    ensures var s' := Next(o, s, step);
            (s'.notify == s.notify && SameView(s, s')) || s'.notify == s.notify + 1
  {
    hide CanAcquire, QueueIndex, RemoveAt, LeaseTicket, BarrierTicket;
    match step
    case DoTouch(id, lt, now) => TouchKeepsTickets(o, s, id, lt, now);
    case _ =>
  }

  lemma TouchKeepsTickets(o: Options, s: State, id: nat, lt: LeaseType, now: int)
    ensures SameView(s, Touch(o, s, id, lt, now)) && Touch(o, s, id, lt, now).notify == s.notify
  {
  }

  /** Whoever is parked after a step either was parked before it or has just failed its test. */
  lemma ParkedAfter(o: Options, s: State, step: Step)
    ensures var s' := Next(o, s, step);
            forall id :: id in s'.parked ==>
              (id in s.parked && s'.parked[id] == s.parked[id])
              || (step == DoTry(id, s'.clock) && s' == Park(s, id, s'.clock)
                  && QueueIndex(s.queue, id) < |s.queue|
                  && !CanAcquire(o, s, s.queue[QueueIndex(s.queue, id)], s'.clock))
  {
  }

  lemma NextKeepsWakeup(o: Options, s: State, step: Step)
    requires InvIds(s) && NoLostWakeup(o, s) && Enabled(s, step)
    ensures NoLostWakeup(o, Next(o, s, step))
  {
    var s' := Next(o, s, step);
    ChangesAreSignalled(o, s, step);
    ParkedAfter(o, s, step);
    forall i | 0 <= i < |s'.queue| && Asleep(s', s'.queue[i].id)
      ensures !CanAcquire(o, s', s'.queue[i], s'.parked[s'.queue[i].id].at)
    {
      var t := s'.queue[i];
      assert s'.notify == s.notify && SameView(s, s');
      SameTests(o, s, s', t, s'.parked[t.id].at);
      if id :| id == t.id && !(id in s.parked && s'.parked[id] == s.parked[id]) {
        assert QueueIndex(s.queue, id) == i;
      }
    }
  }

  // ---------- accounting ----------

  function CountReleased(log: seq<Event>): nat {
    if log == [] then 0 else CountReleased(log[..|log| - 1]) + if log[|log| - 1].Released? then 1 else 0
  }

  function CountForced(log: seq<Event>): nat {
    if log == [] then 0 else CountForced(log[..|log| - 1]) + if log[|log| - 1].Forced? then 1 else 0
  }

  lemma CountAppend(log: seq<Event>, e: Event)
    ensures CountReleased(log + [e]) == CountReleased(log) + if e.Released? then 1 else 0
    ensures CountForced(log + [e]) == CountForced(log) + if e.Forced? then 1 else 0
  {
    assert (log + [e])[..|log|] == log;
  }

  function ActiveCount(s: State): nat {
    |s.sessions| + |s.oneshots| + |s.transports| + |s.barriers|
  }

  /** Nothing is created or lost: every wait ended in a grant, a timeout or is still queued, and every
      grant is active, was released, or was forced. */
  ghost predicate Conserved(s: State) {
    && s.waitRequests == s.acquires + s.waitTimeouts + |s.queue|
    && s.acquires == ActiveCount(s) + CountReleased(s.log) + s.forcedReleases
    && s.forcedReleases == CountForced(s.log)
  }

  lemma GrantKeepsCounts(o: Options, s: State, i: nat, now: int)
    requires Conserved(s) && i < |s.queue|
    ensures Conserved(Grant(o, s, i, now))
  {
    var t := s.queue[i];
    CountAppend(s.log, Granted(t.id, t.leaseType, now));
    assert ActiveCount(Grant(o, s, i, now)) == ActiveCount(s) + 1;
  }

  lemma ReleaseKeepsCounts(s: State, id: nat, lt: LeaseType, now: int)
    requires Conserved(s)
    ensures Conserved(Release(s, id, lt, now))
  {
    CountAppend(s.log, Released(id));
    var s' := Release(s, id, lt, now);
    assert HoldIndex(Holders(s, lt), id) < |Holders(s, lt)| ==> ActiveCount(s') == ActiveCount(s) - 1;
  }

  lemma ExpireKeepsCounts(s: State, id: nat, lt: LeaseType, now: int)
    requires Conserved(s)
    ensures Conserved(Expire(s, id, lt, now))
  {
    CountAppend(s.log, Forced(id, now));
    var s' := Expire(s, id, lt, now);
    assert s'.log != s.log ==> ActiveCount(s') == ActiveCount(s) - 1;
  }

  lemma TouchKeepsCounts(o: Options, s: State, id: nat, lt: LeaseType, now: int)
    requires Conserved(s)
    ensures Conserved(Touch(o, s, id, lt, now))
  {
    CountAppend(s.log, Touched(id, lt, now));
    assert ActiveCount(Touch(o, s, id, lt, now)) == ActiveCount(s);
  }

  lemma NextKeepsCounts(o: Options, s: State, step: Step)
    requires Conserved(s)
    ensures Conserved(Next(o, s, step))
  {
    hide CountReleased, CountForced, Grant, Release, Expire, Touch, CanAcquire;
    match step
    case DoIssueLease(r, lt, now) => CountAppend(s.log, Issued(s.seqNo + 1));
    case DoIssueBarrier(r, policy, now) => CountAppend(s.log, Issued(s.seqNo + 1));
    case DoEnqueue(t, now) => CountAppend(s.log, Enqueued(t.id));
    case DoTry(id, now) =>
      var i := QueueIndex(s.queue, id);
      if i < |s.queue| && CanAcquire(o, s, s.queue[i], now) { GrantKeepsCounts(o, s, i, now); }
    case DoCancel(id, now) => CountAppend(s.log, Cancelled(id));
    case DoTouch(id, lt, now) => TouchKeepsCounts(o, s, id, lt, now);
    case DoRelease(id, lt, now) => ReleaseKeepsCounts(s, id, lt, now);
    case DoExpire(id, lt, now) => ExpireKeepsCounts(s, id, lt, now);
  }

  // ---------- watchdog ----------

  datatype LastSeen = NeverSeen | SeenAt(time: int)

  /** When lease `id` last showed progress: its grant or its latest touch. */
  function LastProgress(log: seq<Event>, id: nat): LastSeen {
    if log == [] then NeverSeen
    else
      var e := log[|log| - 1];
      if e.id == id && (e.Granted? || e.Touched?) then SeenAt(e.at) else LastProgress(log[..|log| - 1], id)
  }

  lemma LastProgressAppend(log: seq<Event>, e: Event)
    ensures forall id: nat ::
      LastProgress(log + [e], id) ==
      if e.id == id && (e.Granted? || e.Touched?) then SeenAt(e.at) else LastProgress(log, id)
  {
    assert (log + [e])[..|log|] == log;
  }

  ghost predicate DeadlinesMatch(o: Options, log: seq<Event>, hs: seq<Hold>) {
    forall i :: 0 <= i < |hs| ==>
      hs[i].expiresAt.At? && LastProgress(log, hs[i].ticket.id) == SeenAt(hs[i].expiresAt.time - o.maxLeaseHold)
  }

  ghost predicate DeadlineKept(o: Options, s: State, lt: LeaseType) {
    DeadlinesMatch(o, s.log, Holders(s, lt))
  }

  predicate IsProgress(e: Event) {
    e.Granted? || e.Touched?
  }

  lemma MatchAfterOther(o: Options, log: seq<Event>, e: Event, hs: seq<Hold>)
    requires DeadlinesMatch(o, log, hs)
    requires IsProgress(e) ==> forall i :: 0 <= i < |hs| ==> hs[i].ticket.id != e.id
    ensures DeadlinesMatch(o, log + [e], hs)
  {
    LastProgressAppend(log, e);
  }

  lemma MatchAfterGrant(o: Options, log: seq<Event>, t: Ticket, now: int, hs: seq<Hold>)
    requires t.kind == LeaseWait && DeadlinesMatch(o, log, hs)
    requires forall i :: 0 <= i < |hs| ==> hs[i].ticket.id != t.id
    ensures DeadlinesMatch(o, log + [Granted(t.id, t.leaseType, now)], hs + [NewHold(o, t, now)])
  {
    var e := Granted(t.id, t.leaseType, now);
    MatchAfterOther(o, log, e, hs);
    LastProgressAppend(log, e);
  }

  lemma MatchAfterTouch(o: Options, log: seq<Event>, lt: LeaseType, now: int, hs: seq<Hold>, k: nat)
    requires DistinctHolds(hs) && k < |hs| && DeadlinesMatch(o, log, hs)
    ensures DeadlinesMatch(o, log + [Touched(hs[k].ticket.id, lt, now)],
                           hs[k := hs[k].(expiresAt := At(now + o.maxLeaseHold))])
  {
    LastProgressAppend(log, Touched(hs[k].ticket.id, lt, now));
  }

  /** The forced release at position `p` of the log came a full hold time after the last progress. */
  ghost predicate ForcedInTime(o: Options, log: seq<Event>, p: nat) {
    p < |log| && log[p].Forced? ==>
      var seen := LastProgress(log[..p], log[p].id);
      seen.SeenAt? && log[p].at >= seen.time + o.maxLeaseHold
  }

  /** Deadlines follow the last progress, and nobody was forced out before a deadline. */
  ghost predicate Watchdog(o: Options, s: State) {
    (forall lt :: lt != BarrierLease ==> DeadlineKept(o, s, lt))
    && forall p: nat :: ForcedInTime(o, s.log, p)
  }

  lemma ForcedAppend(o: Options, log: seq<Event>, e: Event)
    requires forall p: nat :: ForcedInTime(o, log, p)
    requires e.Forced? ==> LastProgress(log, e.id).SeenAt? && e.at >= LastProgress(log, e.id).time + o.maxLeaseHold
    ensures forall p: nat :: ForcedInTime(o, log + [e], p)
  {
    forall p: nat ensures ForcedInTime(o, log + [e], p) {
      assert ForcedInTime(o, log, p);
      if p < |log| { assert (log + [e])[..p] == log[..p]; }
      if p == |log| { assert (log + [e])[..p] == log; }
    }
  }

  lemma NextKeepsWatchdog(o: Options, s: State, step: Step)
    requires InvIds(s) && Watchdog(o, s) && Enabled(s, step)
    ensures Watchdog(o, Next(o, s, step))
  {
    hide DeadlinesMatch, InvIds, LastProgress;
    var s' := Next(o, s, step);
    forall lt | lt != BarrierLease ensures DeadlineKept(o, s', lt) {
      assert DeadlineKept(o, s, lt);
      DeadlineStep(o, s, step, lt);
    }
    ForcedStep(o, s, step);
  }

  /** What a step adds to the log comes in time. */
  lemma ForcedStep(o: Options, s: State, step: Step)
    requires Watchdog(o, s) && Enabled(s, step)
    ensures forall p: nat :: ForcedInTime(o, Next(o, s, step).log, p)
  {
    hide CanAcquire, RemoveAt, ForcedInTime, LeaseTicket, BarrierTicket, LastProgress;
    var s' := Next(o, s, step);
    if s'.log != s.log {
      var e := s'.log[|s'.log| - 1];
      assert s'.log == s.log + [e];
      if step.DoExpire? { assert DeadlineKept(o, s, step.leaseType); }
      ForcedAppend(o, s.log, e);
    }
  }

  /** A step changes the holders of one kind of lease at most, and then by one. */
  lemma DeadlineStep(o: Options, s: State, step: Step, lt: LeaseType)
    requires InvIds(s) && DeadlineKept(o, s, lt) && lt != BarrierLease && Enabled(s, step)
    ensures DeadlineKept(o, Next(o, s, step), lt)
  {
    hide InvIds, DeadlinesMatch, LastProgress;
    var hs := Holders(s, lt);
    match step
    case DoIssueLease(r, l, now) => MatchAfterOther(o, s.log, Issued(s.seqNo + 1), hs);
    case DoIssueBarrier(r, policy, now) => MatchAfterOther(o, s.log, Issued(s.seqNo + 1), hs);
    case DoEnqueue(t, now) => MatchAfterOther(o, s.log, Enqueued(t.id), hs);
    case DoTry(id, now) =>
      var i := QueueIndex(s.queue, id);
      if i < |s.queue| && CanAcquire(o, s, s.queue[i], now) { DeadlineAfterGrant(o, s, i, now, lt); }
    case DoCancel(id, now) => MatchAfterOther(o, s.log, Cancelled(id), hs);
    case DoTouch(id, l, now) => DeadlineAfterTouch(o, s, id, l, now, lt);
    case DoRelease(id, l, now) => DeadlineAfterRemoval(o, s, Released(id), lt);
    case DoExpire(id, l, now) => DeadlineAfterRemoval(o, s, Forced(id, now), lt);
  }

  lemma DeadlineAfterGrant(o: Options, s: State, i: nat, now: int, lt: LeaseType)
    requires InvIds(s) && DeadlineKept(o, s, lt) && lt != BarrierLease && i < |s.queue|
    ensures DeadlineKept(o, Grant(o, s, i, now), lt)
  {
    var t := s.queue[i];
    assert HoldsInPhase(s, lt);
    assert WellFormed(t);
    if lt == t.leaseType { MatchAfterGrant(o, s.log, t, now, Holders(s, lt)); }
    else { MatchAfterOther(o, s.log, Granted(t.id, t.leaseType, now), Holders(s, lt)); }
  }

  lemma DeadlineAfterTouch(o: Options, s: State, id: nat, l: LeaseType, now: int, lt: LeaseType)
    requires InvIds(s) && DeadlineKept(o, s, lt) && lt != BarrierLease
    ensures DeadlineKept(o, Touch(o, s, id, l, now), lt)
  {
    assert HoldsInPhase(s, lt) && HoldsInPhase(s, l);
    var k := HoldIndex(Holders(s, l), id);
    if l != BarrierLease && k < |Holders(s, l)| {
      if l == lt { MatchAfterTouch(o, s.log, l, now, Holders(s, l), k); }
      else { MatchAfterOther(o, s.log, Touched(id, l, now), Holders(s, lt)); }
    }
  }

  lemma DeadlineAfterRemoval(o: Options, s: State, e: Event, lt: LeaseType)
    requires DeadlineKept(o, s, lt) && !IsProgress(e)
    ensures DeadlinesMatch(o, s.log + [e], Holders(s, lt))
    ensures forall i :: 0 <= i < |Holders(s, lt)| ==>
      DeadlinesMatch(o, s.log + [e], RemoveAt(Holders(s, lt), i))
  {
    MatchAfterOther(o, s.log, e, Holders(s, lt));
  }
}
