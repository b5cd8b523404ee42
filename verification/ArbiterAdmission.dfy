/** Who is let in, said without the program's tests: which leases exclude each other, how many there may be, and who
    goes first. Then what a request asks for, and when a lease is taken away. */
module ArbiterAdmission {
  import opened ArbiterModel
  import opened ArbiterInvariants
  import opened ArbiterSelection
  import opened ArbiterRuns

  // ---------- admission ----------

  /** Whether a newcomer and a holder exclude each other. Barriers go beside barriers, and shut out the classes they
      block; otherwise only sessions go beside sessions, and transports on different channels beside each other. */
  predicate Conflict(t: Ticket, h: Ticket) {
    match (t.leaseType, h.leaseType)
    case (BarrierLease, BarrierLease) => false
    case (_, BarrierLease) => t.apduClass in h.blocked
    case (Session, Session) => false
    case (Transport, Transport) => t.scope != QMIChannel || h.scope != QMIChannel || t.channel == h.channel
    case _ => true
  }

  /** As many sessions, or as many channels, are in use as there may be. */
  predicate Full(o: Options, s: State, t: Ticket) {
    || (t.leaseType == Session && |s.sessions| >= o.maxSessions)
    || (t.scope == QMIChannel && |s.transports| >= o.maxQMITransports)
  }

  ghost predicate Fits(o: Options, s: State, t: Ticket) {
    !Full(o, s, t)
    && forall lt, k :: 0 <= k < |Holders(s, lt)| ==> !Conflict(t, Holders(s, lt)[k].ticket)
  }

  /** A queued transport lets those behind it pass when it could enter itself, when an active barrier keeps it out, or
      when it only waits for its own channel. */
  ghost predicate LetsPass(o: Options, s: State, t: Ticket) {
    t.leaseType == Transport &&
    (Fits(o, s, t)
     || (exists k :: 0 <= k < |s.barriers| && t.apduClass in s.barriers[k].ticket.blocked)
     || (t.scope == QMIChannel && !Full(o, s, t)
         && forall k :: 0 <= k < |s.transports| ==> s.transports[k].ticket.scope == QMIChannel))
  }

  ghost predicate Candidate(o: Options, s: State, i: nat) {
    i < |s.queue| && s.queue[i].leaseType == Transport && Fits(o, s, s.queue[i])
    && forall k :: 0 <= k < i ==> LetsPass(o, s, s.queue[k])
  }

  /** Half a second makes a transport urgent, unless it is an AKA, which comes next. */
  function Urgency(t: Ticket, now: int): nat {
    if t.apduClass == USIMAKA then 1 else if now - t.enqueued >= 500_000_000 then 0 else 2
  }

  ghost predicate GoesFirst(o: Options, s: State, i: nat, now: int) {
    Candidate(o, s, i) && forall j: nat :: Candidate(o, s, j) && j != i ==>
      Urgency(s.queue[i], now) < Urgency(s.queue[j], now)
      || (Urgency(s.queue[i], now) == Urgency(s.queue[j], now) && i < j)
  }

  ghost predicate Admitted(o: Options, s: State, i: nat, now: int)
    requires i < |s.queue|
  {
    match s.queue[i].leaseType
    case BarrierLease => Fits(o, s, s.queue[i]) && forall k :: 0 <= k < i ==> s.queue[k].leaseType != BarrierLease
    case Transport => GoesFirst(o, s, i, now)
    case _ => i == 0 && Fits(o, s, s.queue[i])
  }

  /** The holders a transport meets, list by list. */
  lemma TransportFitsBeside(o: Options, s: State, t: Ticket)
    requires (forall lt :: HoldsInPhase(s, lt)) && s.sessions == [] && s.oneshots == [] && t.leaseType == Transport
    ensures Fits(o, s, t) <==>
              (!Full(o, s, t) && !IsBlocked(s, t.apduClass)
               && forall k :: 0 <= k < |s.transports| ==> !Conflict(t, s.transports[k].ticket))
  {
    assert forall lt :: HoldsInPhase(s, lt);
    assert HoldsInPhase(s, Transport) && HoldsInPhase(s, BarrierLease);
    hide PhaseOf, DistinctHolds, WellFormed;
    if !Full(o, s, t) && !IsBlocked(s, t.apduClass)
       && forall k :: 0 <= k < |s.transports| ==> !Conflict(t, s.transports[k].ticket)
    {
      forall lt, k | 0 <= k < |Holders(s, lt)| ensures !Conflict(t, Holders(s, lt)[k].ticket) {
        if lt == BarrierLease { assert Holders(s, lt)[k] == s.barriers[k]; }
        if lt == Transport { assert Holders(s, lt)[k] == s.transports[k]; }
      }
    }
    if Fits(o, s, t) {
      forall k | 0 <= k < |s.barriers| ensures t.apduClass !in s.barriers[k].ticket.blocked {
        assert Holders(s, BarrierLease)[k] == s.barriers[k];
      }
      forall k | 0 <= k < |s.transports| ensures !Conflict(t, s.transports[k].ticket) {
        assert Holders(s, Transport)[k] == s.transports[k];
      }
    }
  }

  lemma TransportFitsExactly(o: Options, s: State, t: Ticket)
    requires ValidOptions(o) && Exclusion(o, s) && (forall lt :: HoldsInPhase(s, lt))
    requires s.sessions == [] && s.oneshots == []
    requires WellFormed(t) && t.leaseType == Transport
    ensures Fits(o, s, t) <==> !IsBlocked(s, t.apduClass) && TransportFits(o, s, t)
    ensures LetsPass(o, s, t) <==> !StopsScan(o, s, t)
  {
    TransportFitsBeside(o, s, t);
    assert HoldsInPhase(s, Transport);
    hide Fits, HoldsInPhase, PhaseOf, IsBlocked;
    if s.transports != [] && t.scope != QMIChannel { assert Conflict(t, s.transports[0].ticket); }
    if !HasExclusive(s) { assert QMICount(s.transports) == |s.transports|; }
  }

  lemma OneShotExcludes(o: Options, s: State, t: Ticket)
    requires HoldsInPhase(s, OneShot) && s.oneshots != []
    ensures !Fits(o, s, t)
  {
    assert Holders(s, OneShot)[0] == s.oneshots[0] && Conflict(t, s.oneshots[0].ticket);
  }

  /** Beside a session or a one-shot there is no transport, and a barrier waits for every lease. */
  lemma FitsBesideNone(o: Options, s: State, t: Ticket)
    requires (forall lt :: HoldsInPhase(s, lt)) && Fits(o, s, t)
    ensures t.leaseType == Transport ==> s.sessions == [] && s.oneshots == []
    ensures t.leaseType == BarrierLease ==> NoLease(s)
    ensures t.leaseType == Session ==> s.oneshots == [] && s.transports == []
    ensures t.leaseType == OneShot ==> NoLease(s)
    ensures t.leaseType != BarrierLease ==> !IsBlocked(s, t.apduClass)
  {
    assert HoldsInPhase(s, Session) && HoldsInPhase(s, OneShot) && HoldsInPhase(s, Transport);
    assert HoldsInPhase(s, BarrierLease);
    hide PhaseOf, DistinctHolds, WellFormed;
    if s.sessions != [] { assert Holders(s, Session)[0] == s.sessions[0]; }
    if s.oneshots != [] { OneShotExcludes(o, s, t); }
    if s.transports != [] { assert Holders(s, Transport)[0] == s.transports[0]; }
    if t.leaseType != BarrierLease {
      forall k | 0 <= k < |s.barriers| ensures t.apduClass !in s.barriers[k].ticket.blocked {
        assert Holders(s, BarrierLease)[k] == s.barriers[k];
      }
    }
  }

  lemma OthersFitExactly(o: Options, s: State, t: Ticket)
    requires (forall lt :: HoldsInPhase(s, lt)) && WellFormed(t) && t.leaseType != Transport
    ensures Fits(o, s, t) <==>
              match t.leaseType
              case Session =>
                !IsBlocked(s, t.apduClass) && s.oneshots == [] && s.transports == [] && |s.sessions| < o.maxSessions
              case OneShot => !IsBlocked(s, t.apduClass) && NoLease(s)
              case _ => NoLease(s)
  {
    if Fits(o, s, t) {
      FitsBesideNone(o, s, t);
    } else if !Full(o, s, t) {
      var lt, k :| 0 <= k < |Holders(s, lt)| && Conflict(t, Holders(s, lt)[k].ticket);
      assert HoldsInPhase(s, lt);
    }
  }

  /** The candidates are those the scan reaches and finds eligible, and the grades are the urgencies. */
  lemma CandidatesAreScanned(o: Options, s: State, j: nat, now: int)
    requires ValidOptions(o) && InvIds(s) && Exclusion(o, s) && s.sessions == [] && s.oneshots == []
    ensures Candidate(o, s, j) <==> Scanned(o, s, j) && Eligible(o, s, s.queue[j])
    ensures j < |s.queue| ==>
              var t := s.queue[j];
              && (InGrade(o, s, now, AgedNonAKA, t) <==> Eligible(o, s, t) && Urgency(t, now) == 0)
              && (InGrade(o, s, now, AKA, t) <==> Eligible(o, s, t) && Urgency(t, now) == 1)
  {
    forall k | 0 <= k < |s.queue| && s.queue[k].leaseType == Transport
      ensures LetsPass(o, s, s.queue[k]) <==> !StopsScan(o, s, s.queue[k])
      ensures Fits(o, s, s.queue[k]) <==> !IsBlocked(s, s.queue[k].apduClass) && TransportFits(o, s, s.queue[k])
    {
      TransportFitsExactly(o, s, s.queue[k]);
    }
    hide HoldsInPhase, PhaseOf, TransportFits, IsBlocked, Fits, Exclusion, GatesQueue;
    if Scanned(o, s, j) {
      forall k | 0 <= k <= j ensures s.queue[k].leaseType == Transport { assert !StopsScan(o, s, s.queue[k]); }
    }
  }

  lemma FirstIsChosen(o: Options, s: State, i: nat, now: int)
    requires ValidOptions(o) && InvIds(s) && Exclusion(o, s) && s.sessions == [] && s.oneshots == [] && i < |s.queue|
    ensures GoesFirst(o, s, i, now) <==> Chosen(o, s, now, i)
  {
    forall j: nat
      ensures Candidate(o, s, j) <==> Scanned(o, s, j) && Eligible(o, s, s.queue[j])
      ensures j < |s.queue| ==>
                var t := s.queue[j];
                && (InGrade(o, s, now, AgedNonAKA, t) <==> Eligible(o, s, t) && Urgency(t, now) == 0)
                && (InGrade(o, s, now, AKA, t) <==> Eligible(o, s, t) && Urgency(t, now) == 1)
    {
      CandidatesAreScanned(o, s, j, now);
    }
    hide InvIds, Exclusion, Eligible, StopsScan, Candidate, Urgency, Aged;
    assert forall t :: InGrade(o, s, now, Any, t) == Eligible(o, s, t);
    hide InGrade;
  }

  lemma TransportAdmission(o: Options, s: State, i: nat, now: int)
    requires ValidOptions(o) && InvIds(s) && Exclusion(o, s) && i < |s.queue| && s.queue[i].leaseType == Transport
    ensures CanAcquire(o, s, s.queue[i], now) <==> GoesFirst(o, s, i, now)
  {
    var t := s.queue[i];
    SelectionRule(o, s, now, i);
    if SelectedTransport(o, s, now) == t.id { PendingBarrierTestIsImplied(o, s, i, now); }
    if Fits(o, s, t) { FitsBesideNone(o, s, t); }
    if s.sessions == [] && s.oneshots == [] {
      FirstIsChosen(o, s, i, now);
      CandidatesAreScanned(o, s, i, now);
    }
    hide Fits, Exclusion, SelectedTransport, StopsScan, LetsPass, PendingBarrierAhead, TransportFits, HoldsInPhase;
  }

  lemma FirstBarrierIs(s: State, i: nat)
    requires InvIds(s) && i < |s.queue| && s.queue[i].leaseType == BarrierLease
    ensures SelectedBarrier(s.queue) == s.queue[i].id <==>
            forall k :: 0 <= k < i ==> s.queue[k].leaseType != BarrierLease
  {
    var b := FirstBarrier(s.queue);
    assert s.queue[b].id == s.queue[i].id <==> b == i;
  }

  lemma HeadPending(s: State)
    requires s.queue != []
    ensures !PendingBarrierAhead(s.queue, s.queue[0])
  {
    assert QueueIndex(s.queue, s.queue[0].id) == 0;
  }

  /** Exactly who is let in: a barrier as the first of the queued ones when no lease is active; a session or one-shot
      from the head of the queue when it fits; and of the transports that fit, and that all those ahead let pass, the
      most urgent one that came first. */
  lemma AdmissionExactly(o: Options, s: State, i: nat, now: int)
    requires ValidOptions(o) && Inv(o, s) && i < |s.queue|
    ensures CanAcquire(o, s, s.queue[i], now) <==> Admitted(o, s, i, now)
  {
    var t := s.queue[i];
    assert QueueIndex(s.queue, t.id) == i;
    if t.leaseType == Transport {
      TransportAdmission(o, s, i, now);
    } else {
      OthersFitExactly(o, s, t);
      if t.leaseType == BarrierLease { FirstBarrierIs(s, i); } else if i == 0 { HeadPending(s); }
    }
  }

  // ---------- what follows for the window of channels and sessions ----------

  /** A channel is free for the first waiter while there is room: other channels in use do not keep it out. */
  lemma ChannelEnters(o: Options, s: State, now: int)
    requires ValidOptions(o) && Reachable(o, s) && s.queue != [] && s.sessions == [] && s.oneshots == []
    requires s.queue[0].leaseType == Transport && s.queue[0].scope == QMIChannel && |s.queue| == 1
    requires s.barriers == [] && |s.transports| < o.maxQMITransports
    requires forall k :: 0 <= k < |s.transports| ==>
               s.transports[k].ticket.scope == QMIChannel && s.transports[k].ticket.channel != s.queue[0].channel
    ensures CanAcquire(o, s, s.queue[0], now)
  {
    Safety(o, s);
    TransportFitsBeside(o, s, s.queue[0]);
    AdmissionExactly(o, s, 0, now);
  }

  ghost predicate Taken(s: State, channel: int) {
    exists h :: 0 <= h < |s.transports| && s.transports[h].ticket.channel == channel
  }

  /** And it does not wait behind transports that wait for other channels, in use. */
  lemma ChannelOvertakes(o: Options, s: State, i: nat, now: int)
    requires ValidOptions(o) && Reachable(o, s) && i < |s.queue| && s.sessions == [] && s.oneshots == []
    requires s.barriers == [] && |s.transports| < o.maxQMITransports
    requires forall k :: 0 <= k < |s.transports| ==> s.transports[k].ticket.scope == QMIChannel
    requires forall k :: 0 <= k <= i ==> s.queue[k].leaseType == Transport && s.queue[k].scope == QMIChannel
    requires forall k :: 0 <= k < |s.queue| ==> (k == i <==> !Taken(s, s.queue[k].channel))
    ensures CanAcquire(o, s, s.queue[i], now)
  {
    Safety(o, s);
    PhasesOf(s);
    AdmissionExactly(o, s, i, now);
    forall k: nat | Candidate(o, s, k) ensures k == i {
      assert Fits(o, s, s.queue[k]);
      hide *;
      OwnChannelFree(o, s, s.queue[k]);
    }
    OwnChannelFits(o, s, s.queue[i]);
    hide Inv, InvIds, Exclusion, HoldsInPhase, Reachable, CanAcquire, Fits, Taken;
    assert forall k :: 0 <= k < i ==> LetsPass(o, s, s.queue[k]);
  }

  lemma OwnChannelFits(o: Options, s: State, t: Ticket)
    requires (forall lt :: HoldsInPhase(s, lt)) && t.leaseType == Transport && t.scope == QMIChannel
    requires s.sessions == [] && s.oneshots == [] && s.barriers == [] && |s.transports| < o.maxQMITransports
    requires forall k :: 0 <= k < |s.transports| ==> s.transports[k].ticket.scope == QMIChannel
    requires !Taken(s, t.channel)
    ensures Fits(o, s, t)
  {
    TransportFitsBeside(o, s, t);
    assert HoldsInPhase(s, Transport);
    hide Fits, HoldsInPhase;
    forall k | 0 <= k < |s.transports| ensures s.transports[k].ticket.channel != t.channel {}
  }

  lemma OwnChannelFree(o: Options, s: State, t: Ticket)
    requires (forall lt :: HoldsInPhase(s, lt)) && t.leaseType == Transport && Fits(o, s, t)
    ensures !Taken(s, t.channel)
  {
    assert HoldsInPhase(s, Transport);
    FitsBesideNone(o, s, t);
    TransportFitsBeside(o, s, t);
    hide HoldsInPhase, Fits, Full;
  }

  lemma PhasesOf(s: State)
    requires InvIds(s)
    ensures forall lt :: HoldsInPhase(s, lt)
  {
  }

  /** A session at the head joins the sessions there are. */
  lemma SessionJoins(o: Options, s: State, now: int)
    requires ValidOptions(o) && Reachable(o, s) && s.queue != [] && s.queue[0].leaseType == Session
    requires s.oneshots == [] && s.transports == [] && |s.sessions| < o.maxSessions
    requires forall k :: 0 <= k < |s.barriers| ==> s.queue[0].apduClass !in s.barriers[k].ticket.blocked
    ensures CanAcquire(o, s, s.queue[0], now)
  {
    Safety(o, s);
    OthersFitExactly(o, s, s.queue[0]);
    AdmissionExactly(o, s, 0, now);
  }

  // ---------- what a request asks for ----------

  /** Two transports exclude each other unless both asked, in QMI mode, for a channel of their own. */
  lemma TogetherExactly(i: nat, a: Request, at: int, j: nat, b: Request, bt: int)
    ensures Conflict(LeaseTicket(i, a, Transport, at), LeaseTicket(j, b, Transport, bt)) <==>
            !(a.scope == b.scope == QMIChannel && a.qmiMode && b.qmiMode
              && a.channel > 0 && b.channel > 0 && a.channel != b.channel)
  {
  }

  /** The class a lease counts as: the one it asks for, or what its type stands for. */
  function ClassOf(r: Request, lt: LeaseType): APDUClass {
    match r.apduClass
    case Unset => (match lt case OneShot => USIMAKA case _ => EUICCWrite)
    case c => c
  }

  /** A barrier shuts out the classes its policy names, where no name stands for AKA, and without a policy AKA and
      SMSC. */
  lemma BarrierShutsOut(i: nat, r: Request, lt: LeaseType, at: int, j: nat, b: Request, policy: seq<APDUClass>, bt: int)
    requires lt != BarrierLease
    ensures var c := ClassOf(r, lt);
            Conflict(LeaseTicket(i, r, lt, at), BarrierTicket(j, b, policy, bt)) <==>
            (c in policy || (Unset in policy && c == USIMAKA) || (policy == [] && (c == USIMAKA || c == SMSC)))
    ensures Conflict(BarrierTicket(j, b, policy, bt), LeaseTicket(i, r, lt, at))
  {
    var c := ClassOf(r, lt);
    var blocked := set x | x in policy :: NormalizeClass(x, OneShot);
    assert LeaseTicket(i, r, lt, at).apduClass == c;
    if policy != [] { assert NormalizeClass(policy[0], OneShot) in blocked; }
    if c in policy { assert NormalizeClass(c, OneShot) in blocked; }
    if Unset in policy { assert NormalizeClass(Unset, OneShot) == USIMAKA; }
  }

  lemma FreshNumber(s: State)
    requires InvIds(s)
    ensures !Queued(s, s.seqNo + 1) && forall t :: t in s.issued ==> t.id != s.seqNo + 1
  {
    assert PhaseOf(s.log, s.seqNo + 1) == Unknown;
  }

  /** From the request to the ticket in the queue: numbered anew, stamped, and under the caller's name. */
  lemma AskedAndQueued(o: Options, s: State, r: Request, lt: LeaseType, at: int, now: int)
    requires ValidOptions(o) && Reachable(o, s) && s.clock <= at <= now && lt != BarrierLease
    ensures var s' := Next(o, s, DoIssueLease(r, lt, at));
            exists t: Ticket :: s'.issued == s.issued + {t} && t !in s.issued
              && t.owner == r.owner && t.leaseType == lt && t.enqueued == at && t.apduClass == ClassOf(r, lt)
              && t.channel == r.channel && !Queued(s, t.id)
              && Enabled(s', DoEnqueue(t, now)) && Next(o, s', DoEnqueue(t, now)).queue == s.queue + [t]
  {
    Safety(o, s);
    FreshNumber(s);
    hide Inv, InvIds, Reachable, PhaseOf;
    var t := LeaseTicket(s.seqNo + 1, r, lt, at);
    var s' := Next(o, s, DoIssueLease(r, lt, at));
    assert s'.issued == s.issued + {t} && s'.queue == s.queue && s'.clock == at;
    assert Next(o, s', DoEnqueue(t, now)) == Enqueue(s', t, now);
    hide Next;
  }

  /** The same for a barrier, which goes by the class of card switches unless it names another. */
  lemma BarrierAskedAndQueued(o: Options, s: State, r: Request, policy: seq<APDUClass>, at: int, now: int)
    requires ValidOptions(o) && Reachable(o, s) && s.clock <= at <= now
    ensures var s' := Next(o, s, DoIssueBarrier(r, policy, at));
            exists t: Ticket :: s'.issued == s.issued + {t} && t !in s.issued
              && t.owner == r.owner && t.leaseType == BarrierLease && t.enqueued == at && t.scope == Exclusive
              && t.apduClass == (match r.apduClass case Unset => SwitchBarrier case c => c) && !Queued(s, t.id)
              && Enabled(s', DoEnqueue(t, now)) && Next(o, s', DoEnqueue(t, now)).queue == s.queue + [t]
  {
    Safety(o, s);
    FreshNumber(s);
    hide Inv, InvIds, Reachable, PhaseOf;
    var t := BarrierTicket(s.seqNo + 1, r, policy, at);
    var s' := Next(o, s, DoIssueBarrier(r, policy, at));
    assert s'.issued == s.issued + {t} && s'.queue == s.queue && s'.clock == at;
    assert Next(o, s', DoEnqueue(t, now)) == Enqueue(s', t, now);
    hide Next;
  }

  // ---------- how a lease begins and ends ----------

  lemma GrantHolds(o: Options, s: State, i: nat, now: int)
    requires i < |s.queue|
    ensures var t := s.queue[i];
            && (forall lt :: Holders(Grant(o, s, i, now), lt) ==
                  if lt == t.leaseType then Holders(s, lt) + [NewHold(o, t, now)] else Holders(s, lt))
            && Grant(o, s, i, now).queue == s.queue[..i] + s.queue[i + 1..]
  {
  }

  lemma HeldAt(s: State, lt: LeaseType, k: nat)
    requires InvIds(s) && k < |Holders(s, lt)|
    ensures HoldIndex(Holders(s, lt), Holders(s, lt)[k].ticket.id) == k
  {
    assert HoldsInPhase(s, lt);
  }

  /** An active lease, seen by a timer. */
  lemma TimerExactly(o: Options, s: State, lt: LeaseType, k: nat, now: int)
    requires InvIds(s) && lt != BarrierLease && k < |Holders(s, lt)| && Holders(s, lt)[k].expiresAt.At?
    ensures var h := Holders(s, lt)[k];
            Holders(Next(o, s, DoExpire(h.ticket.id, lt, now)), lt) ==
              if now >= h.expiresAt.time then Holders(s, lt)[..k] + Holders(s, lt)[k + 1..] else Holders(s, lt)
  {
    HeldAt(s, lt, k);
    hide InvIds, HoldsInPhase;
  }

  lemma AdmittedIsGranted(o: Options, s: State, i: nat, now: int)
    requires ValidOptions(o) && Reachable(o, s) && i < |s.queue| && Admitted(o, s, i, now) && s.clock <= now
    ensures Next(o, s, DoTry(s.queue[i].id, now)) == Grant(o, s, i, now) && InvIds(Grant(o, s, i, now))
    ensures s.queue[i].leaseType != BarrierLease ==> s.queue[i].kind == LeaseWait
  {
    Safety(o, s);
    AdmissionExactly(o, s, i, now);
    IndexIs(s.queue, i);
    assert WellFormed(s.queue[i]);
    hide Inv, Admitted, CanAcquire, Grant, HoldsInPhase, PhaseOf;
    assert Next(o, s, DoTry(s.queue[i].id, now)) == Try(o, s, s.queue[i].id, now);
    NextKeepsIds(o, s, DoTry(s.queue[i].id, now));
  }

  /** An admitted lease becomes active, and its watchdog takes it away from the end of the longest hold on, not
      before. */
  lemma GrantedUntil(o: Options, s: State, i: nat, now: int, later: int)
    requires ValidOptions(o) && Reachable(o, s) && i < |s.queue| && Admitted(o, s, i, now)
    requires s.queue[i].leaseType != BarrierLease && s.clock <= now <= later
    ensures var t := s.queue[i];
            var s' := Next(o, s, DoTry(t.id, now));
            var end := Next(o, s', DoExpire(t.id, t.leaseType, later));
            && (exists h: Hold :: h.ticket == t && Holders(s', t.leaseType) == Holders(s, t.leaseType) + [h])
            && s'.queue == s.queue[..i] + s.queue[i + 1..]
            && Holders(end, t.leaseType) ==
                 (if later - now >= o.maxLeaseHold then Holders(s, t.leaseType) else Holders(s', t.leaseType))
  {
    AdmittedIsGranted(o, s, i, now);
    GrantHolds(o, s, i, now);
    hide Reachable, InvIds, Next, Grant, Admitted;
    var t := s.queue[i];
    var s' := Next(o, s, DoTry(t.id, now));
    var k := |Holders(s, t.leaseType)|;
    TimerExactly(o, s', t.leaseType, k, later);
    assert Holders(s', t.leaseType)[..k] == Holders(s, t.leaseType);
  }

  /** A touch of an active lease puts that off until the longest hold after it. */
  lemma TouchedUntil(o: Options, s: State, lt: LeaseType, k: nat, now: int, later: int)
    requires ValidOptions(o) && Reachable(o, s) && lt != BarrierLease && k < |Holders(s, lt)|
    requires s.clock <= now <= later
    ensures var id := Holders(s, lt)[k].ticket.id;
            var s' := Next(o, s, DoTouch(id, lt, now));
            var end := Next(o, s', DoExpire(id, lt, later));
            && SameTickets(Holders(s, lt), Holders(s', lt))
            && Holders(end, lt) == (if later - now >= o.maxLeaseHold
                                    then Holders(s', lt)[..k] + Holders(s', lt)[k + 1..] else Holders(s', lt))
  {
    Safety(o, s);
    var id := Holders(s, lt)[k].ticket.id;
    HeldAt(s, lt, k);
    TouchChanges(o, s, id, lt, now);
    NextKeepsIds(o, s, DoTouch(id, lt, now));
    var s' := Next(o, s, DoTouch(id, lt, now));
    assert s' == Touch(o, s, id, lt, now);
    hide Inv, InvIds, Next, Touch, HoldsInPhase;
    TimerExactly(o, s', lt, k, later);
  }

  /** A release takes the lease or barrier away. */
  lemma Released(o: Options, s: State, lt: LeaseType, k: nat, now: int)
    requires ValidOptions(o) && Reachable(o, s) && k < |Holders(s, lt)|
    ensures Holders(Next(o, s, DoRelease(Holders(s, lt)[k].ticket.id, lt, now)), lt) ==
            Holders(s, lt)[..k] + Holders(s, lt)[k + 1..]
  {
    Safety(o, s);
    HeldAt(s, lt, k);
    hide InvIds, HoldsInPhase, Inv, Exclusion, NoLostWakeup, Conserved, Watchdog, PhaseOf, DistinctHolds;
    assert Next(o, s, DoRelease(Holders(s, lt)[k].ticket.id, lt, now))
        == Release(s, Holders(s, lt)[k].ticket.id, lt, now);
    hide Next;
  }

  /** A cancelled waiter leaves the queue to the others. */
  lemma CancelledLeaves(o: Options, s: State, i: nat, now: int)
    requires ValidOptions(o) && Reachable(o, s) && i < |s.queue|
    ensures var s' := Next(o, s, DoCancel(s.queue[i].id, now));
            && s'.queue == s.queue[..i] + s.queue[i + 1..] && s'.waitTimeouts == s.waitTimeouts + 1
            && PhaseOf(s'.log, s.queue[i].id) == Finished
  {
    Safety(o, s);
    IndexIs(s.queue, i);
  }

  /** Nothing but a release ends an active barrier: there is no watchdog for it, and a touch does not change it. */
  lemma BarrierUntilReleased(o: Options, s: State, step: Step)
    requires step.DoRelease? ==> step.leaseType != BarrierLease
    ensures s.barriers <= Next(o, s, step).barriers
  {
    hide CanAcquire, QueueIndex, HoldIndex, RemoveAt, Overdue, LeaseTicket, BarrierTicket;
  }
}
